/** The application shell's own state: the chat log with its send flow, the
    listening and speaking indicators, and the scheduler that queues the
    live session's reply audio for gapless playback against the output
    clock. The remote assistant, the speech synthesiser, audio decoding and
    the audio nodes are outside the model: what they deliver (a reply text,
    whether audio came back, a chunk's duration, the clock's current time)
    is passed in. */
module Chat {
  import opened Types

  // ---------------------------------------------------------------------
  // Blank input: `String.prototype.trim`
  // ---------------------------------------------------------------------

  /** The characters `trim` removes: ECMAScript WhiteSpace (tab, vertical
      tab, form feed, space, no-break space, byte order mark and the other
      space separators) and LineTerminator (LF, CR, LS, PS). */
  predicate IsJsSpace(c: char)
  {
    || c == '\t' || c == '\n' || c == '\U{000B}' || c == '\U{000C}' || c == '\r'
    || c == ' ' || c == '\U{00A0}' || c == '\U{1680}' || ('\U{2000}' <= c <= '\U{200A}')
    || c == '\U{2028}' || c == '\U{2029}' || c == '\U{202F}' || c == '\U{205F}'
    || c == '\U{3000}' || c == '\U{FEFF}'
  }

  /** Every character of `s` is one `trim` removes. */
  predicate Blank(s: string)
  {
    forall i :: 0 <= i < |s| ==> IsJsSpace(s[i])
  }

  /** The length of the white space `trim` removes at the front: all of
      it is white space, and what follows it (if anything) is not. */
  function LeadingSpace(s: string): (k: nat)
    ensures k <= |s|
    ensures forall i :: 0 <= i < k ==> IsJsSpace(s[i])
    ensures k < |s| ==> !IsJsSpace(s[k])
    decreases |s|
  {
    if s != [] && IsJsSpace(s[0]) then
      var k := LeadingSpace(s[1..]);
      assert forall i :: 1 <= i < k + 1 ==> s[i] == s[1..][i - 1];
      k + 1
    else
      0
  }

  /** Where the white space `trim` removes at the back begins: all of `s`
      from there on is white space, and the character before it (if any)
      is not. */
  function ContentEnd(s: string): (k: nat)
    ensures k <= |s|
    ensures forall i :: k <= i < |s| ==> IsJsSpace(s[i])
    ensures k > 0 ==> !IsJsSpace(s[k - 1])
    decreases |s|
  {
    if s != [] && IsJsSpace(s[|s| - 1]) then
      var k := ContentEnd(s[..|s| - 1]);
      assert forall i :: k <= i < |s| - 1 ==> s[i] == s[..|s| - 1][i];
      k
    else
      |s|
  }

  function TrimStart(s: string): string
  {
    s[LeadingSpace(s)..]
  }

  function TrimEnd(s: string): string
  {
    s[..ContentEnd(s)]
  }

  /** `String.prototype.trim`: no longer than its input, and when
      anything is left it neither starts nor ends with white space. */
  function Trim(s: string): (r: string)
    ensures |r| <= |s|
    ensures r != [] ==> !IsJsSpace(r[0]) && !IsJsSpace(r[|r| - 1])
  {
    TrimEnd(TrimStart(s))
  }

  /** The guard of App.tsx:57: `trim` leaves nothing exactly when every
      character of the text is white space. */
  lemma {:induction false} TrimEmptyIffBlank(s: string)
    ensures Trim(s) == [] <==> Blank(s)
  {
    var k := LeadingSpace(s);
    var t := s[k..];
    var e := ContentEnd(t);
    if Trim(s) == [] {
      assert e == 0;
    } else {
      assert k < |s|;
    }
  }

  /** `trim` cuts its input into leading white space, the result and
      trailing white space: the result is the slice of `s` from the end of
      the leading white space to the start of the trailing white space, and
      it neither starts nor ends with white space. */
  lemma {:induction false} TrimStripsBothEnds(s: string)
    ensures var k := LeadingSpace(s);
      var e := k + |Trim(s)|;
      && e <= |s|
      && Trim(s) == s[k..e]
      && (forall i :: 0 <= i < k ==> IsJsSpace(s[i]))
      && (forall i :: e <= i < |s| ==> IsJsSpace(s[i]))
      && (k < e ==> !IsJsSpace(s[k]) && !IsJsSpace(s[e - 1]))
  {
    var k := LeadingSpace(s);
    var t := s[k..];
    var e := ContentEnd(t);
    assert Trim(s) == t[..e];
    assert |Trim(s)| == e;
    assert forall i :: k + e <= i < |s| ==> s[i] == t[i - k];
    if 0 < e {
      assert s[k + e - 1] == t[e - 1];
    }
  }

  // ---------------------------------------------------------------------
  // Gapless playback schedule
  // ---------------------------------------------------------------------

  /** Times on the output audio clock, in seconds. */
  type Seconds = r: real | r >= 0.0

  /** Where one chunk is placed on the output clock. */
  datatype Slot = Slot(start: Seconds, duration: Seconds)
  {
    function End(): Seconds { start + duration }
  }

  /** Where an inbound chunk of `duration` seconds goes when it arrives at
      clock time `now` with the cursor at `cursor` (App.tsx:113): never before
      the clock, never before the cursor, and at the later of the two, so
      there is no gap when the chunk arrives in time. */
  function Schedule(cursor: Seconds, now: Seconds, duration: Seconds): (s: Slot)
    ensures s.start >= cursor && s.start >= now
    ensures s.start == cursor || s.start == now
    ensures s.duration == duration && s.End() >= cursor
  {
    Slot(if cursor < now then now else cursor, duration)
  }

  /** A chunk as the session delivers it: the clock time at which it is
      handled and the duration of its decoded buffer. */
  datatype Arrival = Arrival(clock: Seconds, duration: Seconds)

  /** The audio of one live-session message after decoding: a buffer of
      `duration` seconds, or a decode that was rejected. */
  datatype Chunk = Decoded(duration: Seconds) | Undecodable

  /** The slots of a run of arrivals handled one after another, each
      starting from the cursor the previous one left (App.tsx:113, 125). */
  function ScheduleAll(cursor: Seconds, arrivals: seq<Arrival>): (slots: seq<Slot>)
    ensures |slots| == |arrivals|
    decreases |arrivals|
  {
    if arrivals == [] then []
    else
      var s := Schedule(cursor, arrivals[0].clock, arrivals[0].duration);
      [s] + ScheduleAll(s.End(), arrivals[1..])
  }

  /** The cursor after a run of arrivals: it never moves back. */
  function CursorAfter(cursor: Seconds, arrivals: seq<Arrival>): (r: Seconds)
    ensures r >= cursor
    decreases |arrivals|
  {
    if arrivals == [] then cursor
    else
      var s := Schedule(cursor, arrivals[0].clock, arrivals[0].duration);
      CursorAfter(s.End(), arrivals[1..])
  }

  /** The slot of the `i`-th arrival: its own duration, not before the clock
      time at which it arrived nor before the initial cursor, not before the
      previous slot ends, and exactly at that end if it arrived by then. */
  lemma {:induction false} SlotAt(cursor: Seconds, arrivals: seq<Arrival>, i: nat)
    requires i < |arrivals|
    ensures var slots := ScheduleAll(cursor, arrivals);
      && slots[i].duration == arrivals[i].duration
      && slots[i].start >= arrivals[i].clock && slots[i].start >= cursor
      && (i > 0 ==> slots[i - 1].End() <= slots[i].start)
      && (i > 0 && arrivals[i].clock <= slots[i - 1].End() ==> slots[i].start == slots[i - 1].End())
    decreases i
  {
    var s := Schedule(cursor, arrivals[0].clock, arrivals[0].duration);
    var rest := ScheduleAll(s.End(), arrivals[1..]);
    assert ScheduleAll(cursor, arrivals) == [s] + rest;
    if i > 0 {
      SlotAt(s.End(), arrivals[1..], i - 1);
      assert arrivals[1..][i - 1] == arrivals[i];
      if i == 1 {
        if arrivals[1].clock <= s.End() {
          assert rest[0] == Schedule(s.End(), arrivals[1].clock, arrivals[1].duration);
        }
      }
    }
  }

  /** After a non-empty run the cursor stands at the end of the last
      chunk. */
  lemma {:induction false} CursorAfterLastEnd(cursor: Seconds, arrivals: seq<Arrival>)
    ensures arrivals != [] ==>
      CursorAfter(cursor, arrivals) == ScheduleAll(cursor, arrivals)[|arrivals| - 1].End()
    decreases |arrivals|
  {
    if arrivals != [] {
      var s := Schedule(cursor, arrivals[0].clock, arrivals[0].duration);
      var rest := ScheduleAll(s.End(), arrivals[1..]);
      assert ScheduleAll(cursor, arrivals) == [s] + rest;
      CursorAfterLastEnd(s.End(), arrivals[1..]);
    }
  }

  /** Whatever the timing of the arrivals against the clock: slots follow
      arrival order without overlap, none starts before its arrival, and
      each chunk that arrives before the previous one ends starts exactly at
      that end. */
  lemma ScheduleAllBackToBack(cursor: Seconds, arrivals: seq<Arrival>)
    ensures var slots := ScheduleAll(cursor, arrivals);
      && (forall i :: 0 <= i < |slots| ==> slots[i].start >= arrivals[i].clock)
      && (forall i :: 0 < i < |slots| ==> slots[i - 1].End() <= slots[i].start)
      && (forall i :: 0 < i < |slots| && arrivals[i].clock <= slots[i - 1].End() ==>
            slots[i].start == slots[i - 1].End())
  {
    var slots := ScheduleAll(cursor, arrivals);
    forall i | 0 <= i < |slots|
      ensures slots[i].start >= arrivals[i].clock
      ensures i > 0 ==> slots[i - 1].End() <= slots[i].start
      ensures i > 0 && arrivals[i].clock <= slots[i - 1].End() ==> slots[i].start == slots[i - 1].End()
    {
      SlotAt(cursor, arrivals, i);
    }
  }

  /** The scenario of two chunks of 1.0 s and 0.5 s arriving back to back
      while the clock is ahead of the cursor: the second starts exactly
      1.0 s after the first. */
  lemma TwoChunksPlayBackToBack(cursor: Seconds, clock: Seconds)
    requires cursor < clock
    ensures var slots := ScheduleAll(cursor, [Arrival(clock, 1.0), Arrival(clock, 0.5)]);
      |slots| == 2 && slots[0].start == clock && slots[1].start == clock + 1.0
  {
    var arrivals := [Arrival(clock, 1.0), Arrival(clock, 0.5)];
    var first := Schedule(cursor, clock, 1.0);
    assert first.start == clock;
    var second := Schedule(first.End(), clock, 0.5);
    assert arrivals[1..] == [Arrival(clock, 0.5)];
    assert arrivals[1..][1..] == [];
    assert ScheduleAll(first.End(), arrivals[1..]) == [second];
  }

  // ---------------------------------------------------------------------
  // The shell's state
  // ---------------------------------------------------------------------

  /** A playing audio node, with the clock time at which it was started and
      the duration of its buffer. Each node is a distinct object. */
  class Source {
    const start: Seconds
    const duration: Seconds

    function End(): Seconds { start + duration }

    constructor (start: Seconds, duration: Seconds)
      ensures this.start == start && this.duration == duration
    {
      this.start := start;
      this.duration := duration;
    }
  }

  /** The state App.tsx keeps in React state and refs. */
  class Assistant {
    var messages: seq<Message>
    var inputText: string
    var isProcessing: bool
    var isSpeaking: bool
    var isListening: bool
    /** `nextStartTimeRef`: where the next inbound chunk may start. */
    var cursor: Seconds
    /** `sourcesRef`: the reply chunks scheduled and not yet ended. */
    var sources: set<Source>

    /** Every active chunk ends by the cursor, and no two active chunks
        overlap on the clock. */
    ghost predicate Valid()
      reads this
    {
      && (forall s :: s in sources ==> s.End() <= cursor)
      && (forall a, b :: a in sources && b in sources && a != b ==>
            a.End() <= b.start || b.End() <= a.start)
    }

    /** The state on mount (App.tsx:14-29). */
    constructor ()
      ensures Valid()
      ensures messages == [] && inputText == ""
      ensures !isProcessing && !isSpeaking && !isListening
      ensures cursor == 0.0 && sources == {}
    {
      messages, inputText := [], "";
      isProcessing, isSpeaking, isListening := false, false, false;
      cursor, sources := 0.0, {};
    }

    /** The first half of `sendMessage`, up to the remote call: blank text is
        ignored; otherwise one user message is appended, the input is cleared
        and the shell is marked busy. */
    method Submit(text: string, id: string, now: int) returns (sent: bool)
      requires Valid()
      modifies this
      ensures Valid()
      ensures sent <==> !Blank(text)
      ensures messages == if sent then old(messages) + [Message(id, User, text, now)] else old(messages)
      ensures inputText == if sent then "" else old(inputText)
      ensures isProcessing == (sent || old(isProcessing))
      ensures isSpeaking == old(isSpeaking) && isListening == old(isListening)
      ensures cursor == old(cursor) && sources == old(sources)
    {
      TrimEmptyIffBlank(text);
      if Trim(text) == [] {
        return false;
      }
      messages := messages + [Message(id, User, text, now)];
      inputText := "";
      isProcessing := true;
      sent := true;
    }

    /** The second half of `sendMessage`, once the reply text is in: one
        model message carrying it is appended and the busy mark is cleared. */
    method ReceiveReply(reply: string, id: string, now: int)
      requires Valid()
      modifies this
      ensures Valid()
      ensures messages == old(messages) + [Message(id, Model, reply, now)]
      ensures !isProcessing
      ensures inputText == old(inputText)
      ensures isSpeaking == old(isSpeaking) && isListening == old(isListening)
      ensures cursor == old(cursor) && sources == old(sources)
    {
      messages := messages + [Message(id, Model, reply, now)];
      isProcessing := false;
    }

    /** `speakText` collapsed over its wait for synthesis: nothing happens
        when voice is off; otherwise the speaking flag stays on exactly when
        audio came back. A clip plays only when that audio also decodes; when
        decoding is rejected no clip ever ends, so the flag is left on. */
    method SpeakText(voiceEnabled: bool, hasAudio: bool, decoded: bool) returns (plays: bool)
      requires Valid()
      modifies this
      ensures Valid()
      ensures isSpeaking == if voiceEnabled then hasAudio else old(isSpeaking)
      ensures plays <==> voiceEnabled && hasAudio && decoded
      ensures voiceEnabled && hasAudio && !plays ==> isSpeaking
      ensures messages == old(messages) && inputText == old(inputText)
      ensures isProcessing == old(isProcessing) && isListening == old(isListening)
      ensures cursor == old(cursor) && sources == old(sources)
    {
      if !voiceEnabled {
        return false;
      }
      isSpeaking := true;
      if !hasAudio {
        isSpeaking := false;
        return false;
      }
      plays := decoded;
    }

    /** The synthesised clip finished playing. */
    method SpeechEnded()
      requires Valid()
      modifies this
      ensures Valid()
      ensures !isSpeaking
      ensures messages == old(messages) && inputText == old(inputText)
      ensures isProcessing == old(isProcessing) && isListening == old(isListening)
      ensures cursor == old(cursor) && sources == old(sources)
    {
      isSpeaking := false;
    }

    /** The whole of `sendMessage`, with the remote reply and the outcome of
        synthesis as inputs: a non-blank text appends exactly the user
        message and then the model message, leaving earlier messages alone. */
    method SendMessage(text: string, userId: string, userTime: int,
                       reply: string, modelId: string, modelTime: int,
                       voiceEnabled: bool, hasAudio: bool, decoded: bool)
      returns (plays: bool)
      requires Valid()
      modifies this
      ensures Valid()
      ensures Blank(text) ==>
        messages == old(messages) && inputText == old(inputText)
        && isProcessing == old(isProcessing) && isSpeaking == old(isSpeaking)
      ensures !Blank(text) ==>
        && messages == old(messages) + [Message(userId, User, text, userTime),
                                        Message(modelId, Model, reply, modelTime)]
        && inputText == "" && !isProcessing
        && isSpeaking == if voiceEnabled then hasAudio else old(isSpeaking)
      ensures plays <==> !Blank(text) && voiceEnabled && hasAudio && decoded
      ensures isListening == old(isListening)
      ensures cursor == old(cursor) && sources == old(sources)
    {
      var sent := Submit(text, userId, userTime);
      if !sent {
        return false;
      }
      ReceiveReply(reply, modelId, modelTime);
      plays := SpeakText(voiceEnabled, hasAudio, decoded);
    }

    /** `toggleListening`: while listening it only clears the flag; otherwise
        it sets the flag and the session is opened (the connection itself is
        not modelled). `captured` is the `isListening` that the callbacks
        created by this call close over: the value at the time of the call,
        which on the opening path is always off. */
    method ToggleListening() returns (opens: bool, captured: bool)
      requires Valid()
      modifies this
      ensures Valid()
      ensures opens <==> !old(isListening)
      ensures captured == old(isListening)
      ensures opens ==> !captured
      ensures isListening == !old(isListening)
      ensures messages == old(messages) && inputText == old(inputText)
      ensures isProcessing == old(isProcessing) && isSpeaking == old(isSpeaking)
      ensures cursor == old(cursor) && sources == old(sources)
    {
      captured := isListening;
      if isListening {
        isListening := false;
        return false, captured;
      }
      isListening := true;
      opens := true;
    }

    /** The session reported an error or was closed (App.tsx:129-130). */
    method SessionEnded()
      requires Valid()
      modifies this
      ensures Valid()
      ensures !isListening
      ensures messages == old(messages) && inputText == old(inputText)
      ensures isProcessing == old(isProcessing) && isSpeaking == old(isSpeaking)
      ensures cursor == old(cursor) && sources == old(sources)
    {
      isListening := false;
    }

    /** The guard of the capture callback (App.tsx:102): a microphone block
        is handed to the session exactly when the `isListening` captured by
        the `toggleListening` call that opened the session is set. The
        current flag plays no part, and nothing changes. */
    method ForwardBlock(captured: bool) returns (forwarded: bool)
      ensures forwarded == captured
    {
      forwarded := captured;
    }

    /** Opening a session and then capturing a block: the shell is listening,
        yet the block is dropped, because the guard reads the flag as it was
        before the session opened. So no block of a session opened from the
        toggle is ever forwarded. */
    method OpenThenCapture() returns (forwarded: bool)
      requires Valid() && !isListening
      modifies this
      ensures Valid() && isListening && !forwarded
      ensures messages == old(messages) && inputText == old(inputText)
      ensures isProcessing == old(isProcessing) && isSpeaking == old(isSpeaking)
      ensures cursor == old(cursor) && sources == old(sources)
    {
      var opens, captured := ToggleListening();
      forwarded := ForwardBlock(captured);
    }

    /** One inbound live-session message, handled as one step. Without audio
        nothing changes. With audio arriving at clock time `now`, the speaking
        flag is set and the cursor moves up to the clock before decoding. A
        chunk that decodes to `duration` seconds is started at the slot
        `Schedule` gives, the cursor moves to its end and the new node joins
        the active set; a chunk whose decoding is rejected starts nothing, so
        the flag stays on with no chunk left to clear it. */
    method OnMessage(audio: Option<Chunk>, now: Seconds) returns (started: Option<Source>)
      requires Valid()
      modifies this
      ensures Valid()
      ensures audio.None? ==>
        started.None? && isSpeaking == old(isSpeaking)
        && cursor == old(cursor) && sources == old(sources)
      ensures audio == Some(Undecodable) ==>
        started.None? && isSpeaking
        && cursor == Schedule(old(cursor), now, 0.0).start && sources == old(sources)
      ensures audio.Some? && audio.value.Decoded? ==>
        && started.Some? && fresh(started.value)
        && Slot(started.value.start, started.value.duration)
           == Schedule(old(cursor), now, audio.value.duration)
        && cursor == started.value.End() && cursor >= old(cursor)
        && (forall s :: s in old(sources) ==> s.End() <= started.value.start)
        && sources == old(sources) + {started.value}
        && isSpeaking
      ensures messages == old(messages) && inputText == old(inputText)
      ensures isProcessing == old(isProcessing) && isListening == old(isListening)
    {
      if audio.None? {
        return None;
      }
      isSpeaking := true;
      if cursor < now {
        cursor := now;
      }
      if audio.value.Undecodable? {
        return None;
      }
      var source := new Source(cursor, audio.value.duration);
      cursor := cursor + audio.value.duration;
      sources := sources + {source};
      started := Some(source);
    }

    /** A reply chunk finished: it leaves the active set, and the speaking
        flag is cleared exactly when that leaves the set empty. */
    method OnEnded(source: Source)
      requires Valid()
      modifies this
      ensures Valid()
      ensures sources == old(sources) - {source}
      ensures isSpeaking == (old(isSpeaking) && sources != {})
      ensures cursor == old(cursor)
      ensures messages == old(messages) && inputText == old(inputText)
      ensures isProcessing == old(isProcessing) && isListening == old(isListening)
    {
      sources := sources - {source};
      if |sources| == 0 {
        isSpeaking := false;
      }
    }
  }
}
