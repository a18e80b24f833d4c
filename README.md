# KAREN assistant shell: a Dafny model

KAREN is a browser assistant with three screens whose state logic is
modelled here:

- **The application shell** (`App.tsx`, module `Chat`). It holds the chat
  log, the send flow (a blank text is refused, then the user message, the
  remote reply and the spoken reply follow), and the listening and speaking
  indicators. It also schedules the live session's reply audio for gapless
  playback: each chunk starts at the later of the playback cursor and the
  output clock, and the cursor then moves to the chunk's end.
- **The study board** (`components/StudyView.tsx`, module `Study`). It has a
  countdown timer with Pomodoro (25 min) and break (5 min) presets, its
  `MM:SS` rendering, and the add and delete operations on subjects and their
  topics.
- **The mind-map board** (`components/ProjectView.tsx`, module `Board`). It
  covers dragging a node, adding nodes and projects, choosing a project, and
  the lines drawn between connected nodes.

The records they share (`types.ts`) are the datatypes of module `Types`.

Pure list updates and renderings are functions. The refs and React state
that the handlers change step by step are classes:

- `Chat.Assistant` and `Chat.Source`;
- `Study.Timer`;
- `Board.Canvas`.

Each handler is a method that states the whole new state. The external
inputs are parameters:

- the remote reply text;
- whether speech synthesis returned audio;
- a chunk's decoded duration;
- the output clock's current time;
- pointer positions;
- `prompt` answers, as `Option<string>` (`None` when the dialog is cancelled);
- fresh ids and timestamps.

Four behaviours of the code are easy to misread, and the model follows the
code in each:

- The playback cursor and the set of playing chunks are never reset when a
  session starts. `Assistant.ToggleListening` leaves them as they are.
- The guard that forwards microphone blocks (`App.tsx:102`) does not read the
  current listening flag. It reads the `isListening` value that the handler
  captured when it opened the session, and nothing later changes that
  captured value. On the path that opens a session that value is always
  off, so no block of such a session is forwarded (`ToggleListening`
  returns the captured value, `ForwardBlock` takes it, and
  `OpenThenCapture` shows the block dropped while the shell is listening).
- A denied microphone does not clear the listening flag. The rejected promise
  is not handled, so the flag set at `App.tsx:84` stays on.
- A drag updates the project list but not the selected-project snapshot that
  the canvas draws from. `Canvas.MouseMove` keeps `active` unchanged.

## Model

| member | source | states |
|---|---|---|
| Chat.LeadingSpace | App.tsx:57 | length of the leading white space that `trim` removes: every character before it is ECMAScript white space and the character at it is not |
| Chat.ContentEnd | App.tsx:57 | where the trailing white space starts: everything from there is white space and the character before it is not |
| Chat.Trim | App.tsx:57 | `text.trim()` is no longer than the text, and what is left neither starts nor ends with white space |
| Chat.TrimEmptyIffBlank | App.tsx:57 | `text.trim()` is empty exactly when every character is white space (both directions) |
| Chat.TrimStripsBothEnds | App.tsx:57 | the trimmed text is the slice of the input between its leading and trailing white space, and it neither starts nor ends with white space |
| Chat.Schedule | App.tsx:113 | a chunk starts at the later of the cursor and the clock (never before either) and keeps its duration |
| Chat.ScheduleAll | App.tsx:108-128 | a run of arrivals gets one slot per chunk, in arrival order |
| Chat.CursorAfter | App.tsx:113-125 | the cursor after any run of arrivals is never behind where it started |
| Chat.SlotAt | App.tsx:113-125 | the i-th slot keeps its chunk's duration, starts no earlier than its arrival and the first cursor, no earlier than the previous slot's end, and exactly at that end when the chunk arrived by then |
| Chat.CursorAfterLastEnd | App.tsx:113-125 | after a non-empty run the cursor equals the end of the last slot |
| Chat.ScheduleAllBackToBack | App.tsx:108-128 | for every arrival timing: no slot starts before its arrival, consecutive slots do not overlap, and a chunk that arrives in time starts exactly when the previous one ends |
| Chat.TwoChunksPlayBackToBack | App.tsx:113-125 | two chunks of 1.0 s and 0.5 s that arrive while the clock is ahead of the cursor start at the clock, and 1.0 s after it |
| Chat.Source.constructor | App.tsx:115-126 | a playing chunk node records the clock time it was started at and its buffer duration |
| Chat.Assistant.constructor | App.tsx:15-29 | initial state: empty log and input, the three flags off, cursor 0, no playing chunks |
| Chat.Assistant.Submit | App.tsx:56-61 | a message is sent exactly when the text is not blank; it is appended as a user message, the input is cleared and the busy flag is set; blank text changes nothing |
| Chat.Assistant.ReceiveReply | App.tsx:65-72 | the reply is appended as a model message and the busy flag is cleared |
| Chat.Assistant.SpeakText | App.tsx:31-54 | with voice off nothing changes; with voice on the speaking flag ends up set exactly when synthesis returned audio; a clip plays exactly when voice is on, audio came back and it decoded, so a rejected decode leaves the flag on with nothing to clear it |
| Chat.Assistant.SpeechEnded | App.tsx:46-48 | the end of the synthesised clip clears the speaking flag and nothing else |
| Chat.Assistant.SendMessage | App.tsx:56-76 | a non-blank text appends exactly the user message and then the model message after the earlier log, leaves the input empty and the shell not busy, and the reply is spoken exactly when voice is on and its audio came back and decoded; a blank text changes nothing |
| Chat.Assistant.ToggleListening | App.tsx:78-84 | flips the listening flag and opens a session only when it was off; returns the `isListening` its callbacks capture, which is off whenever a session opens; the cursor and chunk set are not reset |
| Chat.Assistant.SessionEnded | App.tsx:129-130 | an error or close clears the listening flag and nothing else |
| Chat.Assistant.ForwardBlock | App.tsx:98-103 | a microphone block is forwarded exactly when the flag captured by the opening call is set; the current flag plays no part and nothing changes |
| Chat.Assistant.OpenThenCapture | App.tsx:78-103 | opening a session from the toggle and then capturing a block leaves the shell listening but drops the block |
| Chat.Assistant.OnMessage | App.tsx:108-128 | without audio nothing changes; audio whose decode is rejected sets the speaking flag and moves the cursor up to the clock but starts nothing and leaves the active set as it was; with a decoded chunk, a fresh source starts at `Schedule`'s slot after every chunk already playing, the cursor moves to its end, it joins the active set and the speaking flag is set; no two active chunks overlap (kept invariant) |
| Chat.Assistant.OnEnded | App.tsx:119-122 | the finished chunk leaves the active set, and the speaking flag is cleared exactly when the set becomes empty |
| Study.NatToString | components/StudyView.tsx:29 | `toString()` of a whole number gives decimal digits only, with no leading zero (just `0` for zero), one digit below 10 and two below 100 |
| Study.NatToStringValue | components/StudyView.tsx:29 | the digits of `toString()` read back as the number |
| Study.Repeat | components/StudyView.tsx:29 | n copies of the fill character |
| Study.PadStart | components/StudyView.tsx:29 | `padStart` reaches the requested width (or keeps the length when already that long), ends with the original string and is filled in front with the fill character |
| Study.Pad2 | components/StudyView.tsx:29 | a padded field is at least two characters, exactly two below 100; below 10 it is `0` followed by the digit, from 10 up it is the digits of the number unchanged |
| Study.Pad2Value | components/StudyView.tsx:29 | a field padded to two places is all digits, at least two long (exactly two below 100), and reads back as its number |
| Study.Clock | components/StudyView.tsx:29 | the two fields joined by a colon: at least five characters, with the colon three from the end when the seconds are below 100 |
| Study.FormatTime | components/StudyView.tsx:26-30 | the rendering is at least five characters with the colon three from the end, and exactly five below 100 minutes |
| Study.ClockFields | components/StudyView.tsx:26-30 | the `m:s` display has a colon three from the end, a minutes field reading m with at least two digits, and a two-digit seconds field reading s |
| Study.FormatTimeFields | components/StudyView.tsx:26-30 | `formatTime` shows `seconds / 60` in a field of at least two digits, a colon, and `seconds % 60` (00 to 59) in exactly two digits |
| Study.ParseFields | components/StudyView.tsx:26-30 | a display with a colon three from the end and digit fields on both sides reads back as minutes times 60 plus seconds |
| Study.FormatTimeRoundTrip | components/StudyView.tsx:26-30 | reading the rendering back as `M*60 + S` gives the number of seconds rendered |
| Study.Settle | components/StudyView.tsx:20-22 | the effect stops a timer that is at zero and changes nothing else |
| Study.TickStep | components/StudyView.tsx:16-24 | a running timer loses exactly one second and stops when it reaches zero; a stopped one does not change |
| Study.ToggleStep | components/StudyView.tsx:90 | play/pause flips the running flag, except that a timer at zero stays stopped |
| Study.ResetStep | components/StudyView.tsx:96 | reset gives zero and stopped, and the preset is kept |
| Study.Ticks | components/StudyView.tsx:16-24 | any number of interval firings keeps the zero-means-stopped invariant |
| Study.Countdown | components/StudyView.tsx:16-24 | after n ticks a running countdown shows max(start - n, 0) and is running exactly while n is less than the start |
| Study.StoppedStays | components/StudyView.tsx:16-24 | ticks do not change a stopped timer |
| Study.PomodoroRunsOut | components/StudyView.tsx:32-36 | a Pomodoro is still running after 1499 ticks and stops at 0 after 1500 |
| Study.Timer.constructor | components/StudyView.tsx:12-14 | mounted at zero, stopped, on the Pomodoro preset |
| Study.Timer.Tick | components/StudyView.tsx:16-24 | one firing of the interval followed by the effect: the new state is `TickStep` of the old one |
| Study.Timer.Toggle | components/StudyView.tsx:90 | the new state is `ToggleStep` of the old one |
| Study.Timer.Reset | components/StudyView.tsx:96 | the new state is `ResetStep` of the old one |
| Study.Timer.StartPomodoro | components/StudyView.tsx:32-36 | 1500 seconds, Pomodoro preset, running |
| Study.Timer.StartBreak | components/StudyView.tsx:104 | 300 seconds, break preset, running |
| Study.AddSubject | components/StudyView.tsx:38-43 | an entered name appends one subject with no topics after the unchanged list; a cancelled or empty answer changes nothing |
| Study.NewTopic | components/StudyView.tsx:50-57 | a new topic has the given id and name, medium difficulty, term 1, status learning and progress 0 |
| Study.AddTopic | components/StudyView.tsx:45-63 | with an entered name, subjects with the id get the new medium, term-1, learning topic with no progress at the end of their topics; all others, and ids, names and order, are unchanged |
| Study.DeleteSubject | components/StudyView.tsx:112 | what remains is shorter or equal and holds only subjects of the list with another id |
| Study.DeleteKeepsOthers | components/StudyView.tsx:112 | every subject with another id keeps its number of occurrences, and the result is an ordered subsequence of the input |
| Study.DeleteSubjectAppend | components/StudyView.tsx:112 | deleting from a concatenation deletes from each part |
| Study.DeleteAbsent | components/StudyView.tsx:112 | deleting an id that no subject has changes nothing |
| Study.DeleteUndoesAdd | components/StudyView.tsx:38-43 | deleting a subject just added under a fresh id gives back the original list |
| Study.DeleteIdempotent | components/StudyView.tsx:112 | deleting the same id twice is the same as once |
| Study.AddTopicOnlyTouchesTarget | components/StudyView.tsx:48-61 | adding a topic touches only the subjects with that id: once those are deleted, before and after agree |
| Board.FirstMatch | components/ProjectView.tsx:84 | `find` returns the first index that satisfies the test, or the length when none does |
| Board.FindProject | components/ProjectView.tsx:84 | the selector picks the first project with the id, and picks none exactly when no project has it |
| Board.FindNode | components/ProjectView.tsx:113-114 | an endpoint resolves to the first node with the id, or to nothing exactly when no node has it |
| Board.MoveNodes | components/ProjectView.tsx:27-29 | every node with the dragged id moves by (dx, dy); the others and the order are kept |
| Board.MoveInProjects | components/ProjectView.tsx:25-33 | only projects with the active id change, and only in their nodes' positions; ids, names, connections and node counts are kept |
| Board.MoveNodesCompose | components/ProjectView.tsx:27-29 | two node moves add up to one move by the sum |
| Board.MoveCompose | components/ProjectView.tsx:25-33 | two drag moves of a project add up to one move by the sum |
| Board.MoveUndo | components/ProjectView.tsx:25-33 | a zero move changes nothing, and the opposite move undoes a move |
| Board.DragMoves | components/ProjectView.tsx:19-36 | a run of moves keeps the number of projects and every project's id, name, connections and node count, and leaves projects with another id untouched |
| Board.DragTelescopes | components/ProjectView.tsx:19-36 | because each move re-anchors, any run of moves displaces the node by the last pointer position minus the press position |
| Board.NewNode | components/ProjectView.tsx:44-50 | the node `addNode` creates has the entered caption and the fresh id, is a text node without content, and sits at (400, 200) |
| Board.NewProject | components/ProjectView.tsx:65-70 | a new project has the entered name and one text node `root` at (400, 300) carrying that name, and draws no lines |
| Board.AddNodeTo | components/ProjectView.tsx:51-58 | the node is appended to the projects with the id only; order and number of projects are kept |
| Board.LastWithId | components/ProjectView.tsx:51-58 | the project left selected is the last one with the id (the last `setActiveProject` wins), or none exactly when no project has the id |
| Board.AddNodeThenFind | components/ProjectView.tsx:51-58 | after `addNode`, looking up the project finds it with the new node at the end of its list |
| Board.Resolve | components/ProjectView.tsx:113-120 | a connection is drawn exactly when both endpoints name a node, from (x+60, y+20) of the first matching node to that of the other |
| Board.Lines | components/ProjectView.tsx:112-125 | the lines drawn for a list of connections are never more than the connections |
| Board.LinesFromConnections | components/ProjectView.tsx:112-125 | every line drawn belongs to a connection whose endpoints both resolve |
| Board.LinesAllResolved | components/ProjectView.tsx:112-125 | when every connection resolves, each one gets its line, in order |
| Board.LinesAppend | components/ProjectView.tsx:112-125 | the lines of two consecutive runs of connections are those of the first followed by those of the second |
| Board.LinesSkipOnlyDangling | components/ProjectView.tsx:112-125 | for any connections around it, a dangling connection draws nothing while the lines before and after it are still drawn in order, and a resolved one draws its line in its place |
| Board.Canvas.constructor | components/ProjectView.tsx:12-13 | on mount the first project (if any) is selected and nothing is dragged |
| Board.Canvas.MouseDown | components/ProjectView.tsx:15-17 | pressing a node anchors a drag at the pointer |
| Board.Canvas.MouseMove | components/ProjectView.tsx:19-36 | without a drag or a selected project nothing changes; otherwise the projects are moved by the offset from the anchor, the anchor moves to the pointer, and the selected snapshot is unchanged |
| Board.Canvas.MouseUp | components/ProjectView.tsx:38 | releasing the button or leaving the canvas ends the drag |
| Board.Canvas.AddNode | components/ProjectView.tsx:40-60 | with no selection or no entered label nothing changes; otherwise a text node at (400, 200) is added to the selected project and the selection becomes the last updated match |
| Board.Canvas.CreateProject | components/ProjectView.tsx:62-74 | an entered name appends a project with one `root` node at (400, 300) and no connections, and selects it; otherwise nothing changes |
| Board.Canvas.SelectProject | components/ProjectView.tsx:84 | the selection becomes the first project with the chosen id, or none |
| Board.CreatedProjectIsFound | components/ProjectView.tsx:62-74 | a project created under a fresh id is found by that id |

## Left out

- The remote model calls are parameters: the chat reply (`sendKarenMessage`), speech synthesis (`generateTTS`) and the live session (`ai.live.connect`). The fallback reply text is part of `services/gemini.ts`, which is not part of this model.
- The audio codecs and audio nodes are left out: `decode`, `encode`, `decodeAudioData`, `createBlob`, the `AudioContext`s, `getUserMedia` and the script processor. A decoded chunk is just its duration, and a playing node is just its start and duration.
- Chat.Assistant.OnMessage: one inbound message is handled as one step. In the source, `decodeAudioData` is awaited between taking the maximum of the cursor and the clock and starting the chunk, so another message could interleave there; the model does not capture that interleaving.
- Chat.Assistant.SendMessage and Chat.Assistant.SpeakText: the waits on the remote reply and on synthesis are folded into single steps. Other events between them are not modelled.
- Chat.Assistant.OnMessage and Chat.Assistant.SpeakText: a decode is only its outcome (a duration, or rejected); the byte formats and the reason a decode fails are not modelled. In the source a rejection also rejects the enclosing async handler, and the code does not handle it.
- Chat.Schedule, Chat.ScheduleAll and Chat.Assistant.OnMessage: clock times and durations are exact non-negative reals, while the source adds and compares double-precision numbers (App.tsx:113, App.tsx:125); rounding of the cursor is not modelled.
- Chat.Assistant.ToggleListening: the session itself, its `onopen` wiring and microphone capture are left out. A denied microphone leaves the flag on, as described above.
- Study.NatToString: modelled on whole numbers in decimal notation. The exponent form that JavaScript uses from 10^21 upward is not modelled.
- Study.Timer.Tick: the one-second spacing of `setInterval` is not modelled; a tick is a call.
- The timer's progress bar (`StudyView.tsx:83`) is a floating-point width and is left out.
- Pointer coordinates and node positions are whole pixels. The browser's fractional coordinates are not modelled.
- Message ids and timestamps from `Date.now()` are passed in. The model makes no claim that they are distinct or increasing.
- Rendering is left out: JSX, the icons, the settings view, the waveform, view switching, `constants.tsx`, and the editing of the chat input box by keystrokes.
