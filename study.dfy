/** The study board: the `MM:SS` rendering of the countdown, the countdown
    timer's state machine, and the list updates on subjects and topics.
    The entered names and fresh ids come in as parameters; a name is
    `None` when the prompt was cancelled. */
module Study {
  import opened Types

  // ---------------------------------------------------------------------
  // Decimal digits
  // ---------------------------------------------------------------------

  predicate IsDigit(c: char)
  {
    '0' <= c <= '9'
  }

  predicate AllDigits(s: string)
  {
    forall i :: 0 <= i < |s| ==> IsDigit(s[i])
  }

  function DigitChar(d: nat): (c: char)
    requires d < 10
    ensures IsDigit(c) && c as int - '0' as int == d
  {
    ('0' as int + d) as char
  }

  /** The number a string of decimal digits denotes (leading zeros allowed). */
  function DigitsValue(s: string): nat
    requires AllDigits(s)
    decreases |s|
  {
    if s == [] then 0
    else
      DigitsValue(s[..|s| - 1]) * 10 + (s[|s| - 1] as int - '0' as int)
  }

  /** `Number.prototype.toString()` of a non-negative integer: its decimal
      digits with no leading zero; one digit below 10, two below 100. */
  function NatToString(n: nat): (r: string)
    ensures AllDigits(r) && |r| >= 1
    ensures n > 0 ==> r[0] != '0'
    ensures n == 0 ==> r == "0"
    ensures n < 10 ==> |r| == 1
    ensures 10 <= n < 100 ==> |r| == 2
    decreases n
  {
    if n < 10 then [DigitChar(n)]
    else NatToString(n / 10) + [DigitChar(n % 10)]
  }

  lemma {:induction false} NatToStringValue(n: nat)
    ensures DigitsValue(NatToString(n)) == n
    decreases n
  {
    if n >= 10 {
      var r := NatToString(n);
      NatToStringValue(n / 10);
      assert r[..|r| - 1] == NatToString(n / 10);
    }
  }

  /** `n` copies of `c`. */
  function Repeat(c: char, n: nat): (r: string)
    ensures |r| == n && forall i :: 0 <= i < n ==> r[i] == c
  {
    seq(n, _ => c)
  }

  /** `padStart(width, fill)` with a one-character fill: `s` preceded by as
      many `fill` characters as it takes to reach `width`, and `s` itself
      when it is already that long. */
  function PadStart(s: string, width: nat, fill: char): (r: string)
    ensures |r| == if |s| >= width then |s| else width
    ensures r[|r| - |s|..] == s
    ensures forall i :: 0 <= i < |r| - |s| ==> r[i] == fill
  {
    if |s| >= width then s else Repeat(fill, width - |s|) + s
  }

  /** Leading zeros do not change the value of a digit string. */
  lemma {:induction false} LeadingZerosValue(z: string, s: string)
    requires forall i :: 0 <= i < |z| ==> z[i] == '0'
    requires AllDigits(s)
    ensures AllDigits(z + s) && DigitsValue(z + s) == DigitsValue(s)
    decreases |s|
  {
    var w := z + s;
    assert AllDigits(w) by {
      forall i | 0 <= i < |w| ensures IsDigit(w[i]) {
        if i < |z| { assert w[i] == z[i]; } else { assert w[i] == s[i - |z|]; }
      }
    }
    if s == [] {
      assert w == z;
      ZerosValue(z);
    } else {
      var s' := s[..|s| - 1];
      assert w[..|w| - 1] == z + s';
      LeadingZerosValue(z, s');
    }
  }

  lemma {:induction false} ZerosValue(z: string)
    requires forall i :: 0 <= i < |z| ==> z[i] == '0'
    ensures AllDigits(z) && DigitsValue(z) == 0
    decreases |z|
  {
    if z != [] {
      ZerosValue(z[..|z| - 1]);
    }
  }

  /** A field of the clock display: `toString()` padded to two places with
      zeros. Below 10 it is a `0` before the single digit; from 10 up it is
      the digits of `n` unchanged. */
  function Pad2(n: nat): (r: string)
    ensures |r| >= 2 && |r| >= |NatToString(n)|
    ensures r[|r| - |NatToString(n)|..] == NatToString(n)
    ensures n < 100 ==> |r| == 2
    ensures n < 10 ==> r == "0" + NatToString(n)
    ensures 10 <= n ==> r == NatToString(n)
  {
    PadStart(NatToString(n), 2, '0')
  }

  /** A padded field reads back as its number and has at least two digits,
      exactly two below 100. */
  lemma {:induction false} Pad2Value(n: nat)
    ensures AllDigits(Pad2(n)) && |Pad2(n)| >= 2 && DigitsValue(Pad2(n)) == n
    ensures n < 100 ==> |Pad2(n)| == 2
  {
    var d := NatToString(n);
    NatToStringValue(n);
    if |d| < 2 {
      LeadingZerosValue(Repeat('0', 2 - |d|), d);
    }
  }

  // ---------------------------------------------------------------------
  // formatTime (StudyView.tsx:26-30)
  // ---------------------------------------------------------------------

  /** `formatTime`: at least five characters with the colon three from the
      end, and exactly five (`MM:SS`) below 100 minutes. */
  function FormatTime(seconds: nat): (r: string)
    ensures |r| >= 5 && r[|r| - 3] == ':'
    ensures seconds < 6000 ==> |r| == 5
  {
    ClockFields(seconds / 60, seconds % 60);
    Clock(seconds / 60, seconds % 60)
  }

  /** The two padded fields joined by a colon: at least five characters,
      the colon three from the end whenever the seconds field has two
      digits. */
  function Clock(minutes: nat, secs: nat): (r: string)
    ensures |r| >= 5
    ensures secs < 100 ==> r[|r| - 3] == ':'
  {
    Pad2(minutes) + ":" + Pad2(secs)
  }

  /** The minutes field of a clock display: all but its last three
      characters. */
  function MinutesField(r: string): string
    requires |r| >= 3
  {
    r[..|r| - 3]
  }

  /** The seconds field of a clock display: its last two characters. */
  function SecondsField(r: string): string
    requires |r| >= 3
  {
    r[|r| - 2..]
  }

  /** Cutting `m + ":" + s` three characters from the end gives back its
      parts when `s` has two characters. */
  lemma {:induction false} SplitFields(m: string, s: string)
    requires |s| == 2
    ensures var r := m + ":" + s;
      r[|r| - 3] == ':' && MinutesField(r) == m && SecondsField(r) == s
  {
    var r := m + ":" + s;
    assert r[..|r| - 3] == m;
    assert r[|r| - 2..] == s;
  }

  /** The fields of a clock display read back as the numbers shown, the
      minutes with at least two digits, the seconds (below 100) with
      exactly two. */
  lemma {:induction false} ClockFields(minutes: nat, secs: nat)
    requires secs < 100
    ensures |Clock(minutes, secs)| >= 5
    ensures Clock(minutes, secs)[|Clock(minutes, secs)| - 3] == ':'
    ensures var m := MinutesField(Clock(minutes, secs));
      AllDigits(m) && |m| >= 2 && DigitsValue(m) == minutes
    ensures var s := SecondsField(Clock(minutes, secs));
      AllDigits(s) && |s| == 2 && DigitsValue(s) == secs
    ensures minutes < 100 ==> |Clock(minutes, secs)| == 5
  {
    Pad2Value(minutes);
    Pad2Value(secs);
    SplitFields(Pad2(minutes), Pad2(secs));
  }

  /** The rendering has a minutes field of at least two digits reading
      `seconds / 60`, a colon, and a seconds field of exactly two digits
      reading `seconds % 60`, from 00 to 59. */
  lemma {:induction false} FormatTimeFields(seconds: nat)
    ensures |FormatTime(seconds)| >= 5
    ensures FormatTime(seconds)[|FormatTime(seconds)| - 3] == ':'
    ensures var m := MinutesField(FormatTime(seconds));
      AllDigits(m) && |m| >= 2 && DigitsValue(m) == seconds / 60
    ensures var s := SecondsField(FormatTime(seconds));
      AllDigits(s) && |s| == 2 && DigitsValue(s) == seconds % 60 < 60
  {
    var minutes, secs := seconds / 60, seconds % 60;
    assert FormatTime(seconds) == Clock(minutes, secs);
    ClockFields(minutes, secs);
  }

  /** Position of the first colon, or the length when there is none. */
  function ColonIndex(s: string): (i: nat)
    ensures i <= |s|
    ensures i < |s| ==> s[i] == ':'
    ensures forall j :: 0 <= j < i ==> s[j] != ':'
    decreases |s|
  {
    if s == [] || s[0] == ':' then 0 else 1 + ColonIndex(s[1..])
  }

  /** Reads `M:S` (digit strings on both sides of the first colon) as
      `M * 60 + S` seconds. */
  function ParseTime(s: string): Option<nat>
  {
    var i := ColonIndex(s);
    if i == |s| then None
    else
      var minutes, secs := s[..i], s[i + 1..];
      if minutes != [] && secs != [] && AllDigits(minutes) && AllDigits(secs)
      then Some(DigitsValue(minutes) * 60 + DigitsValue(secs))
      else None
  }

  /** A display with a colon three from the end and digit fields on both
      sides reads back as minutes times 60 plus seconds. */
  lemma {:induction false} ParseFields(r: string, minutes: nat, secs: nat)
    requires |r| >= 4 && r[|r| - 3] == ':'
    requires AllDigits(MinutesField(r)) && DigitsValue(MinutesField(r)) == minutes
    requires AllDigits(SecondsField(r)) && DigitsValue(SecondsField(r)) == secs
    ensures ParseTime(r) == Some(minutes * 60 + secs)
  {
    var c := |r| - 3;
    assert r[..c] == MinutesField(r) && r[c + 1..] == SecondsField(r);
    assert forall j :: 0 <= j < c ==> r[j] == MinutesField(r)[j];
    assert ColonIndex(r) == c;
  }

  /** Reading the rendering back gives the number of seconds rendered. */
  lemma {:induction false} FormatTimeRoundTrip(seconds: nat)
    ensures ParseTime(FormatTime(seconds)) == Some(seconds)
  {
    var r, minutes, secs := FormatTime(seconds), seconds / 60, seconds % 60;
    FormatTimeFields(seconds);
    ParseFields(r, minutes, secs);
    assert minutes * 60 + secs == seconds;
  }

  // ---------------------------------------------------------------------
  // The countdown timer (StudyView.tsx:12-24, 32-36, 90-104)
  // ---------------------------------------------------------------------

  datatype TimerKind = Pomodoro | Break | Custom

  /** The timer's three pieces of state: seconds left, whether it runs, and
      which preset was last chosen. */
  datatype TimerState = TimerState(seconds: nat, running: bool, kind: TimerKind)

  /** What the timer effect enforces after every change: at zero it is
      stopped. */
  predicate Settled(t: TimerState)
  {
    t.seconds == 0 ==> !t.running
  }

  /** The timer effect's else branch: at zero the timer is stopped. */
  function Settle(t: TimerState): (r: TimerState)
    ensures Settled(r) && r.seconds == t.seconds && r.kind == t.kind
    ensures r.running == (t.running && t.seconds > 0)
  {
    if t.seconds == 0 then t.(running := false) else t
  }

  /** One firing of the interval, which exists only while the timer runs
      with time left: exactly one second less, and stopped when that reaches
      zero. Otherwise nothing changes. */
  function TickStep(t: TimerState): (r: TimerState)
    requires Settled(t)
    ensures Settled(r) && r.kind == t.kind
    ensures t.running ==> r.seconds == t.seconds - 1 && r.running == (r.seconds > 0)
    ensures !t.running ==> r == t
  {
    if t.running && t.seconds > 0 then Settle(t.(seconds := t.seconds - 1)) else t
  }

  /** The play/pause button: flips running, except that at zero the effect
      immediately stops it again. */
  function ToggleStep(t: TimerState): (r: TimerState)
    ensures Settled(r) && r.seconds == t.seconds && r.kind == t.kind
    ensures r.running == (t.seconds > 0 && !t.running)
  {
    Settle(t.(running := !t.running))
  }

  /** The reset button sets zero; the effect then stops the timer. The
      preset kind is kept. */
  function ResetStep(t: TimerState): (r: TimerState)
    ensures Settled(r) && r.seconds == 0 && !r.running && r.kind == t.kind
  {
    Settle(t.(seconds := 0))
  }

  const PomodoroSeconds: nat := 25 * 60
  const BreakSeconds: nat := 5 * 60

  /** `n` interval firings in a row. */
  function Ticks(t: TimerState, n: nat): (r: TimerState)
    requires Settled(t)
    ensures Settled(r)
    decreases n
  {
    if n == 0 then t else Ticks(TickStep(t), n - 1)
  }

  /** A running countdown loses exactly one second per tick and never goes
      below zero; it is running exactly while time is left. */
  lemma {:induction false} Countdown(t: TimerState, n: nat)
    requires Settled(t) && t.running
    ensures var r := Ticks(t, n);
      && r.seconds == (if n <= t.seconds then t.seconds - n else 0)
      && r.running == (n < t.seconds)
      && r.kind == t.kind
    decreases n
  {
    if n > 0 {
      var u := TickStep(t);
      if u.running {
        Countdown(u, n - 1);
      } else {
        assert u.seconds == 0;
        StoppedStays(u, n - 1);
      }
    }
  }

  /** Ticks do nothing to a stopped timer. */
  lemma {:induction false} StoppedStays(t: TimerState, n: nat)
    requires Settled(t) && !t.running
    ensures Ticks(t, n) == t
    decreases n
  {
    if n > 0 {
      StoppedStays(t, n - 1);
    }
  }

  /** A Pomodoro runs out, and stops, after exactly 1500 ticks. */
  lemma {:induction false} PomodoroRunsOut()
    ensures Ticks(TimerState(PomodoroSeconds, true, Pomodoro), PomodoroSeconds - 1).running
    ensures Ticks(TimerState(PomodoroSeconds, true, Pomodoro), PomodoroSeconds)
      == TimerState(0, false, Pomodoro)
  {
    Countdown(TimerState(PomodoroSeconds, true, Pomodoro), PomodoroSeconds - 1);
    Countdown(TimerState(PomodoroSeconds, true, Pomodoro), PomodoroSeconds);
  }

  /** The timer of the study board, with each React update (a button's
      handler or one interval firing, followed by the effect) as one step. */
  class Timer {
    var seconds: nat
    var running: bool
    var kind: TimerKind

    function State(): TimerState
      reads this
    {
      TimerState(seconds, running, kind)
    }

    ghost predicate Valid()
      reads this
    {
      Settled(State())
    }

    /** Mounted at zero, stopped, on the Pomodoro preset. */
    constructor ()
      ensures Valid() && State() == TimerState(0, false, Pomodoro)
    {
      seconds, running, kind := 0, false, Pomodoro;
    }

    method Tick()
      requires Valid()
      modifies this
      ensures Valid() && State() == TickStep(old(State()))
    {
      if running && seconds > 0 {
        seconds := seconds - 1;
        if seconds == 0 {
          running := false;
        }
      }
    }

    method Toggle()
      requires Valid()
      modifies this
      ensures Valid() && State() == ToggleStep(old(State()))
    {
      running := !running;
      if seconds == 0 {
        running := false;
      }
    }

    method Reset()
      requires Valid()
      modifies this
      ensures Valid() && State() == ResetStep(old(State()))
    {
      seconds := 0;
      running := false;
    }

    /** 25 minutes, Pomodoro, running. */
    method StartPomodoro()
      modifies this
      ensures Valid() && State() == TimerState(PomodoroSeconds, true, Pomodoro)
    {
      seconds := PomodoroSeconds;
      kind := Pomodoro;
      running := true;
    }

    /** 5 minutes, break, running. */
    method StartBreak()
      modifies this
      ensures Valid() && State() == TimerState(BreakSeconds, true, Break)
    {
      seconds := BreakSeconds;
      kind := Break;
      running := true;
    }
  }

  // ---------------------------------------------------------------------
  // Subjects and topics (StudyView.tsx:38-63, 112)
  // ---------------------------------------------------------------------

  /** `addSubject`: an entered name appends one subject without topics at
      the end; otherwise the list is unchanged. */
  function AddSubject(subjects: seq<Subject>, name: Option<string>, id: string): (r: seq<Subject>)
    ensures |r| == if Entered(name) then |subjects| + 1 else |subjects|
    ensures r[..|subjects|] == subjects
    ensures Entered(name) ==> r[|subjects|] == Subject(id, name.value, [])
  {
    if Entered(name) then subjects + [Subject(id, name.value, [])] else subjects
  }

  /** The topic `addTopic` creates: medium difficulty, first term, being
      learnt, no progress. */
  function NewTopic(id: string, name: string): (t: Topic)
    ensures t.id == id && t.name == name
    ensures t.difficulty == Medium && t.term == 1 && t.status == Learning && t.progress == 0
  {
    Topic(id, name, Medium, 1, Learning, 0)
  }

  /** `addTopic`: with an entered name, every subject with the given id gets
      the new topic at the end of its list; every other subject, and the
      order and number of subjects, stay as they were. */
  function AddTopic(subjects: seq<Subject>, subjectId: string, name: Option<string>, topicId: string)
    : (r: seq<Subject>)
    ensures |r| == |subjects|
    ensures forall i :: 0 <= i < |r| ==>
      r[i].id == subjects[i].id && r[i].name == subjects[i].name
      && r[i].topics == if Entered(name) && subjects[i].id == subjectId
                        then subjects[i].topics + [NewTopic(topicId, name.value)]
                        else subjects[i].topics
  {
    if !Entered(name) then subjects
    else
      seq(|subjects|, i requires 0 <= i < |subjects| =>
        if subjects[i].id == subjectId
        then subjects[i].(topics := subjects[i].topics + [NewTopic(topicId, name.value)])
        else subjects[i])
  }

  /** `sub` keeps some of the elements of `s`, in their order. */
  ghost predicate SubsequenceOf<T>(sub: seq<T>, s: seq<T>)
    decreases |s|
  {
    if s == [] then sub == []
    else (sub != [] && sub[0] == s[0] && SubsequenceOf(sub[1..], s[1..])) || SubsequenceOf(sub, s[1..])
  }

  /** The delete button: what remains are subjects of the list whose id
      differs. */
  function DeleteSubject(subjects: seq<Subject>, id: string): (r: seq<Subject>)
    ensures |r| <= |subjects|
    ensures forall x :: x in r ==> x.id != id && x in subjects
    decreases |subjects|
  {
    if subjects == [] then []
    else
      var rest := DeleteSubject(subjects[1..], id);
      if subjects[0].id != id then [subjects[0]] + rest else rest
  }

  /** Every subject with another id stays, as many times as it occurred and
      in its original order. */
  lemma {:induction false} DeleteKeepsOthers(subjects: seq<Subject>, id: string)
    ensures var r := DeleteSubject(subjects, id);
      && (forall x: Subject :: x.id != id ==> multiset(r)[x] == multiset(subjects)[x])
      && SubsequenceOf(r, subjects)
    decreases |subjects|
  {
    if subjects != [] {
      var first, tail := subjects[0], subjects[1..];
      var rest := DeleteSubject(tail, id);
      DeleteKeepsOthers(tail, id);
      assert subjects == [first] + tail;
      assert multiset(subjects) == multiset{first} + multiset(tail);
      if first.id != id {
        var r := [first] + rest;
        assert DeleteSubject(subjects, id) == r;
        assert r[0] == first && r[1..] == rest;
        assert multiset(r) == multiset{first} + multiset(rest);
      } else {
        assert DeleteSubject(subjects, id) == rest;
      }
    }
  }

  lemma {:induction false} DeleteSubjectAppend(a: seq<Subject>, b: seq<Subject>, id: string)
    ensures DeleteSubject(a + b, id) == DeleteSubject(a, id) + DeleteSubject(b, id)
    decreases |a|
  {
    if a == [] {
      assert a + b == b;
    } else {
      assert (a + b)[0] == a[0];
      assert (a + b)[1..] == a[1..] + b;
      DeleteSubjectAppend(a[1..], b, id);
    }
  }

  lemma {:induction false} DeleteAbsent(subjects: seq<Subject>, id: string)
    requires forall i :: 0 <= i < |subjects| ==> subjects[i].id != id
    ensures DeleteSubject(subjects, id) == subjects
    decreases |subjects|
  {
    if subjects != [] {
      DeleteAbsent(subjects[1..], id);
    }
  }

  /** Deleting a subject just added under a fresh id restores the list. */
  lemma {:induction false} DeleteUndoesAdd(subjects: seq<Subject>, name: string, id: string)
    requires forall i :: 0 <= i < |subjects| ==> subjects[i].id != id
    ensures DeleteSubject(AddSubject(subjects, Some(name), id), id) == subjects
  {
    var added := Subject(id, name, []);
    DeleteAbsent(subjects, id);
    if name != "" {
      assert AddSubject(subjects, Some(name), id) == subjects + [added];
      DeleteSubjectAppend(subjects, [added], id);
      DeleteAbsent(subjects, id);
      assert DeleteSubject([added], id) == [];
    }
  }

  /** A second delete of the same id changes nothing. */
  lemma {:induction false} DeleteIdempotent(subjects: seq<Subject>, id: string)
    ensures DeleteSubject(DeleteSubject(subjects, id), id) == DeleteSubject(subjects, id)
  {
    var r := DeleteSubject(subjects, id);
    forall i | 0 <= i < |r| ensures r[i].id != id {
      assert r[i] in r;
    }
    DeleteAbsent(r, id);
  }

  /** Adding a topic touches only subjects with that id: once those are
      deleted, the lists agree. */
  lemma {:induction false} AddTopicOnlyTouchesTarget(subjects: seq<Subject>, subjectId: string,
                                                     name: Option<string>, topicId: string)
    ensures DeleteSubject(AddTopic(subjects, subjectId, name, topicId), subjectId)
      == DeleteSubject(subjects, subjectId)
    decreases |subjects|
  {
    if subjects != [] {
      var r := AddTopic(subjects, subjectId, name, topicId);
      AddTopicOnlyTouchesTarget(subjects[1..], subjectId, name, topicId);
      assert r[1..] == AddTopic(subjects[1..], subjectId, name, topicId);
      if subjects[0].id != subjectId {
        assert r[0] == subjects[0];
      }
    }
  }
}
