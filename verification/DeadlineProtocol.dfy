/** One deadline slot as a step system: the application thread reads the clock and updates the
    word in separate steps, the worker loads the word and reads the clock in separate steps, and
    time passes in between. The packed word is compared with a plain history of sessions. */
module DeadlineProtocol {
  import opened Common
  import opened DeadlineState
  import opened DeadlineMonitor

  /** Where the single producer of a slot is: between the clock read and the word update of a
      start (`Starting`) or of a stop (`Stopping`), inside a session, or outside. */
  datatype Producer = Idle | Starting(at: U32) | Started(start: U32) | Stopping(start: U32, at: U32)

  datatype Session = Session(start: nat, stop: nat)

  /** A slot together with the history of its completed sessions. */
  datatype Slot = Slot(range: TimeRange, word: Word, producer: Producer, done: seq<Session>)

  datatype State = State(slot: Slot, clock: nat)

  datatype Step = ReadStart | UpdateStart | ReadStop | UpdateStop | Pass(to: nat)

  /** What a step needs. The arithmetic conditions are the ones under which the code neither
      wraps nor panics; `StopIsSafe` shows that the one of `UpdateStop` always holds. */
  predicate Enabled(s: State, step: Step) {
    match step
    case ReadStart => s.slot.producer.Idle? && s.clock < 0x1_0000_0000
    case UpdateStart => s.slot.producer.Starting? && s.slot.producer.at + s.slot.range.max < 0x1_0000_0000
    case ReadStop => s.slot.producer.Started? && s.clock < 0x1_0000_0000
    case UpdateStop => s.slot.producer.Stopping? && s.slot.range.max <= TimestampMs(s.slot.word)
    case Pass(to) => s.clock <= to
  }

  function Next(s: State, step: Step): State
    requires Enabled(s, step)
  {
    var slot := s.slot;
    match step
    case ReadStart => s.(slot := slot.(producer := Starting(s.clock)))
    case UpdateStart =>
      var at := slot.producer.at;
      var update := StartUpdate(slot.word, at + slot.range.max);
      s.(slot := slot.(word := Apply(slot.word, update), producer := if update.Some? then Started(at) else Idle))
    case ReadStop => s.(slot := slot.(producer := Stopping(slot.producer.start, s.clock)))
    case UpdateStop =>
      var Stopping(start, at) := slot.producer;
      var update := StopUpdate(slot.word, at, slot.range).0;
      s.(slot := slot.(word := Apply(slot.word, update), producer := Idle, done := slot.done + [Session(start, at)]))
    case Pass(to) => s.(clock := to)
  }

  predicate Initial(s: State) {
    s.slot.range.Valid() && s.slot.word == DEFAULT && s.slot.producer.Idle? && s.slot.done == []
  }

  predicate Takes(s: State, step: Step, t: State) {
    Enabled(s, step) && t == Next(s, step)
  }

  ghost predicate Follows(s: State, t: State) {
    exists step :: Takes(s, step, t)
  }

  /** A run from an initial state, as the sequence of its states. */
  ghost predicate StepAt(run: seq<State>, i: nat)
    requires i + 1 < |run|
  {
    Follows(run[i], run[i + 1])
  }

  ghost predicate IsRun(run: seq<State>) {
    && run != [] && Initial(run[0])
    && forall i :: 0 <= i < |run| - 1 ==> StepAt(run, i)
  }

  // ---- The plain history and its verdict --------------------------------------------------

  /** What happened on a slot: the completed sessions, and the start of the open one. */
  datatype History = History(done: seq<Session>, open: Option<nat>)

  function HistoryOf(slot: Slot): History {
    History(slot.done,
            match slot.producer
            case Idle => None
            case Starting(_) => None
            case Started(start) => Some(start)
            case Stopping(start, _) => Some(start))
  }

  predicate StoppedEarly(range: TimeRange, s: Session) {
    s.stop < s.start + range.min
  }

  predicate StoppedLate(range: TimeRange, s: Session) {
    s.start + range.max < s.stop
  }

  predicate InTime(range: TimeRange, s: Session) {
    s.start + range.min <= s.stop <= s.start + range.max
  }

  /** A completed session that was stopped outside its range. */
  predicate Failed(range: TimeRange, h: History) {
    exists i :: 0 <= i < |h.done| && !InTime(range, h.done[i])
  }

  predicate Overdue(range: TimeRange, h: History, now: nat) {
    h.open.Some? && h.open.value + range.max < now
  }

  /** What an evaluation should say of a history at time `now`, with no packed word in sight. */
  function Verdict(range: TimeRange, h: History, now: nat): Option<EvaluationError> {
    if exists i :: 0 <= i < |h.done| && StoppedEarly(range, h.done[i]) then Some(TooEarly)
    else if (exists i :: 0 <= i < |h.done| && StoppedLate(range, h.done[i]))
            || Overdue(range, h, now) then Some(TooLate)
    else None
  }

  // ---- The invariant ----------------------------------------------------------------------

  /** All sessions but possibly the last were in time, and a last one that was not leaves its
      mark in the word. */
  ghost predicate Inv(s: State) {
    var slot := s.slot;
    var done := slot.done;
    && slot.range.Valid()
    && (forall i :: 0 <= i < |done| ==> done[i].stop <= s.clock)
    && (forall i :: 0 <= i < |done| - 1 ==> InTime(slot.range, done[i]))
    && (match slot.producer
        case Started(start) => OpenInv(s, start)
        case Stopping(start, at) => OpenInv(s, start) && at <= s.clock
        case Starting(at) => ClosedInv(slot) && at <= s.clock
        case Idle => ClosedInv(slot))
  }

  ghost predicate OpenInv(s: State, start: nat) {
    && start <= s.clock
    && start + s.slot.range.max < 0x1_0000_0000
    && s.slot.word == Running(start + s.slot.range.max)
    && forall i :: 0 <= i < |s.slot.done| ==> InTime(s.slot.range, s.slot.done[i])
  }

  ghost predicate ClosedInv(slot: Slot) {
    if slot.done == [] || InTime(slot.range, slot.done[|slot.done| - 1]) then slot.word == DEFAULT
    else
      var last := slot.done[|slot.done| - 1];
      && last.start + slot.range.max < 0x1_0000_0000
      && slot.word == (if StoppedEarly(slot.range, last)
                       then Underrun(last.start + slot.range.max) else Running(last.start + slot.range.max))
  }

  lemma InvUpdateStart(s: State)
    requires Inv(s) && Enabled(s, UpdateStart)
    ensures Inv(Next(s, UpdateStart))
  {
    MarksReadBack(s);
    RunningReadsBack(s.slot.producer.at + s.slot.range.max);
    if IsRunning(s.slot.word) || IsUnderrun(s.slot.word) {
      assert Next(s, UpdateStart).slot == s.slot.(producer := Idle);
    } else {
      assert !Failed(s.slot.range, HistoryOf(s.slot));
    }
  }

  lemma InvUpdateStop(s: State)
    requires Inv(s) && Enabled(s, UpdateStop)
    ensures Inv(Next(s, UpdateStop))
  {
    var Stopping(start, at) := s.slot.producer;
    RunningReadsBack(start + s.slot.range.max);
    var t := Next(s, UpdateStop);
    assert t.slot.done[|t.slot.done| - 1] == Session(start, at);
    assert forall i :: 0 <= i < |t.slot.done| - 1 ==> t.slot.done[i] == s.slot.done[i];
  }

  lemma InvPreserved(s: State, step: Step)
    requires Inv(s) && Enabled(s, step)
    ensures Inv(Next(s, step))
  {
    match step
    case UpdateStart => InvUpdateStart(s);
    case UpdateStop => InvUpdateStop(s);
    case _ =>
  }

  /** What the bit accessors read of an open session. */
  lemma OpenMarks(s: State)
    requires Inv(s) && HistoryOf(s.slot).open.Some?
    ensures IsStopped(s.slot.word) && s.slot.word % 16 == 3
    ensures !IsUnderrun(s.slot.word) && IsRunning(s.slot.word)
    ensures TimestampMs(s.slot.word) == HistoryOf(s.slot).open.value + s.slot.range.max
    ensures forall i :: 0 <= i < |s.slot.done| ==> InTime(s.slot.range, s.slot.done[i])
  {
    RunningReadsBack(HistoryOf(s.slot).open.value + s.slot.range.max);
  }

  /** What they read between sessions: the last session has left its mark, or none has. */
  lemma ClosedMarks(s: State)
    requires Inv(s) && HistoryOf(s.slot).open.None?
    ensures IsStopped(s.slot.word) && s.slot.word % 16 in {1, 3, 11}
    ensures IsRunning(s.slot.word) <==> s.slot.done != [] && !InTime(s.slot.range, s.slot.done[|s.slot.done| - 1])
    ensures IsUnderrun(s.slot.word) <==> s.slot.done != [] && StoppedEarly(s.slot.range, s.slot.done[|s.slot.done| - 1])
    ensures IsRunning(s.slot.word) ==>
              TimestampMs(s.slot.word) == s.slot.done[|s.slot.done| - 1].start + s.slot.range.max
  {
    assert ClosedInv(s.slot);
    if s.slot.done == [] || InTime(s.slot.range, s.slot.done[|s.slot.done| - 1]) {
      DefaultReadsBack();
    } else if StoppedEarly(s.slot.range, s.slot.done[|s.slot.done| - 1]) {
      UnderrunReadsBack(s.slot.done[|s.slot.done| - 1].start + s.slot.range.max);
    } else {
      RunningReadsBack(s.slot.done[|s.slot.done| - 1].start + s.slot.range.max);
    }
  }

  /** What the bit accessors read in a state that satisfies the invariant. */
  lemma MarksReadBack(s: State)
    requires Inv(s)
    ensures IsStopped(s.slot.word) && s.slot.word % 16 in {1, 3, 11}
    ensures IsUnderrun(s.slot.word) <==>
              exists i :: 0 <= i < |s.slot.done| && StoppedEarly(s.slot.range, s.slot.done[i])
    ensures HistoryOf(s.slot).open.Some? ==>
              IsRunning(s.slot.word) && TimestampMs(s.slot.word) == HistoryOf(s.slot).open.value + s.slot.range.max
    ensures HistoryOf(s.slot).open.None? ==> (IsRunning(s.slot.word) <==> Failed(s.slot.range, HistoryOf(s.slot)))
    ensures HistoryOf(s.slot).open.None? && IsRunning(s.slot.word) ==>
              s.slot.done != [] && TimestampMs(s.slot.word) == s.slot.done[|s.slot.done| - 1].start + s.slot.range.max
  {
    if HistoryOf(s.slot).open.Some? {
      OpenMarks(s);
    } else {
      ClosedMarks(s);
    }
  }

  lemma {:induction false} InvOnRuns(run: seq<State>, i: nat)
    requires IsRun(run) && i < |run|
    ensures Inv(run[i])
  {
    if i > 0 {
      InvOnRuns(run, i - 1);
      assert StepAt(run, i - 1);
      var step :| Takes(run[i - 1], step, run[i]);
      InvPreserved(run[i - 1], step);
    }
  }

  lemma {:induction false} ClockIsMonotone(run: seq<State>, i: nat, j: nat)
    requires IsRun(run) && i <= j < |run|
    ensures run[i].clock <= run[j].clock && run[i].slot.range == run[j].slot.range
  {
    if i < j {
      ClockIsMonotone(run, i, j - 1);
      assert StepAt(run, j - 1);
    }
  }

  // ---- Results ----------------------------------------------------------------------------

  /** An evaluation that loads the word in a state and reads the clock then or later reports
      exactly the verdict of the history at the load. */
  lemma ReportIsVerdict(s: State, now: nat)
    requires Inv(s) && s.clock <= now
    ensures Report(s.slot.word, now) == Verdict(s.slot.range, HistoryOf(s.slot), now)
  {
    MarksReadBack(s);
    var h := HistoryOf(s.slot);
    if h.open.None? && IsRunning(s.slot.word) && !IsUnderrun(s.slot.word) {
      var last := s.slot.done[|s.slot.done| - 1];
      assert StoppedLate(s.slot.range, last);
    }
  }

  /** The packed word refines the history, over every run: the word loaded in state `i` and the
      clock read in any later state `j` give the verdict of the history. Nothing recorded is
      missed, and nothing else is reported. */
  lemma WordRefinesHistory(run: seq<State>, i: nat, j: nat)
    requires IsRun(run) && i <= j < |run|
    ensures Report(run[i].slot.word, run[j].clock) == Verdict(run[i].slot.range, HistoryOf(run[i].slot), run[j].clock)
  {
    InvOnRuns(run, i);
    ClockIsMonotone(run, i, j);
    ReportIsVerdict(run[i], run[j].clock);
  }

  /** The low four bits are 1, 3 or 11 in every reachable state, so the worker's assertion that
      the stopped bit is set never fires. */
  lemma LowBits(run: seq<State>, i: nat)
    requires IsRun(run) && i < |run|
    ensures run[i].slot.word % 16 in {1, 3, 11}
    ensures IsStopped(run[i].slot.word)
  {
    InvOnRuns(run, i);
    MarksReadBack(run[i]);
  }

  /** Whenever a stop is about to update the word, the word is marked running and the 32-bit
      subtraction of the range does not wrap: the step is always possible. */
  lemma StopIsSafe(run: seq<State>, i: nat)
    requires IsRun(run) && i < |run| && run[i].slot.producer.Stopping?
    ensures IsRunning(run[i].slot.word) && Enabled(run[i], UpdateStop)
  {
    InvOnRuns(run, i);
    MarksReadBack(run[i]);
  }

  /** A start is refused exactly when some earlier session was stopped outside its range. */
  lemma StartRefusedIffFailed(run: seq<State>, i: nat)
    requires IsRun(run) && i < |run| && Enabled(run[i], UpdateStart)
    ensures Next(run[i], UpdateStart).slot.producer.Idle? <==> Failed(run[i].slot.range, HistoryOf(run[i].slot))
  {
    InvOnRuns(run, i);
    MarksReadBack(run[i]);
  }

  /** The sessions that can only end late: stopped late, or still running past their limit
      with the clock of the stop not yet read or read too late. */
  predicate LateForGood(s: State) {
    match s.slot.producer
    case Started(start) => start + s.slot.range.max < s.clock
    case Stopping(start, at) => start + s.slot.range.max < at
    case _ => s.slot.done != [] && StoppedLate(s.slot.range, s.slot.done[|s.slot.done| - 1])
  }

  predicate EarlyForGood(s: State) {
    HistoryOf(s.slot).open.None? && s.slot.done != [] && StoppedEarly(s.slot.range, s.slot.done[|s.slot.done| - 1])
  }

  lemma FailureStays(s: State, step: Step)
    requires Inv(s) && Enabled(s, step)
    ensures LateForGood(s) ==> LateForGood(Next(s, step))
    ensures EarlyForGood(s) ==> EarlyForGood(Next(s, step))
  {
    MarksReadBack(s);
  }

  /** What is late or early for good is reported by an evaluation of this very state. */
  lemma ForGoodIsReported(s: State, now: nat)
    requires Inv(s) && s.clock <= now
    ensures LateForGood(s) ==> Report(s.slot.word, now) == Some(TooLate)
    ensures EarlyForGood(s) ==> Report(s.slot.word, now) == Some(TooEarly)
    ensures (LateForGood(s) || EarlyForGood(s)) && Enabled(s, UpdateStart) ==> Next(s, UpdateStart).slot.producer.Idle?
  {
    MarksReadBack(s);
    ReportIsVerdict(s, now);
    if (LateForGood(s) || EarlyForGood(s)) && HistoryOf(s.slot).open.None? {
      assert !InTime(s.slot.range, s.slot.done[|s.slot.done| - 1]);
    }
  }

  /** A violation is reported with its kind by every later evaluation, however late the clock is
      read, and refuses every later start. */
  lemma ViolationIsPermanent(run: seq<State>, i: nat, j: nat, now: nat)
    requires IsRun(run) && i <= j < |run| && run[j].clock <= now
    ensures LateForGood(run[i]) ==> Report(run[j].slot.word, now) == Some(TooLate)
    ensures EarlyForGood(run[i]) ==> Report(run[j].slot.word, now) == Some(TooEarly)
    ensures (LateForGood(run[i]) || EarlyForGood(run[i])) && Enabled(run[j], UpdateStart) ==>
              Next(run[j], UpdateStart).slot.producer.Idle?
  {
    StaysForGood(run, i, j);
    InvOnRuns(run, j);
    ForGoodIsReported(run[j], now);
  }

  lemma {:induction false} StaysForGood(run: seq<State>, i: nat, j: nat)
    requires IsRun(run) && i <= j < |run|
    ensures LateForGood(run[i]) ==> LateForGood(run[j])
    ensures EarlyForGood(run[i]) ==> EarlyForGood(run[j])
  {
    if i < j {
      StaysForGood(run, i, j - 1);
      InvOnRuns(run, j - 1);
      assert StepAt(run, j - 1);
      var step :| Takes(run[j - 1], step, run[j]);
      FailureStays(run[j - 1], step);
    }
  }

  /** A verdict at the load that the history at the clock read does not bear out. */
  predicate FalseAlarm(load: State, read: State) {
    && Report(load.slot.word, read.clock).Some?
    && Verdict(read.slot.range, HistoryOf(read.slot), read.clock).None?
  }

  /** The session open in `before` has been stopped in time in `after`. */
  predicate StoppedBetween(range: TimeRange, before: History, after: History) {
    && before.open.Some?
    && |before.done| < |after.done|
    && after.done[|before.done|].start == before.open.value
    && InTime(range, after.done[|before.done|])
  }

  /** A history only grows, and an open session is the next one completed. */
  predicate Extends(before: History, after: History) {
    && before.done <= after.done
    && (before.open.Some? ==>
          || (after.done == before.done && after.open == before.open)
          || (|before.done| < |after.done| && after.done[|before.done|].start == before.open.value))
  }

  lemma ExtendsStep(before: History, s: State, step: Step)
    requires Extends(before, HistoryOf(s.slot)) && Enabled(s, step)
    ensures Extends(before, HistoryOf(Next(s, step).slot))
  {
  }

  lemma {:induction false} HistoryExtends(run: seq<State>, i: nat, j: nat)
    requires IsRun(run) && i <= j < |run|
    ensures Extends(HistoryOf(run[i].slot), HistoryOf(run[j].slot))
  {
    if i < j {
      HistoryExtends(run, i, j - 1);
      assert StepAt(run, j - 1);
      var step :| Takes(run[j - 1], step, run[j]);
      ExtendsStep(HistoryOf(run[i].slot), run[j - 1], step);
    }
  }

  /** A history that is in order at `now` looks wrong from an earlier load exactly when the session open at the
      load was stopped in time since, and its limit has passed. */
  lemma WrongOnlyInGap(range: TimeRange, before: History, after: History, now: nat)
    requires Extends(before, after) && !Failed(range, after) && !Overdue(range, after, now)
    ensures Failed(range, before) || Overdue(range, before, now) <==>
              StoppedBetween(range, before, after) && Overdue(range, before, now)
  {
    assert forall k :: 0 <= k < |before.done| ==> before.done[k] == after.done[k];
    if Overdue(range, before, now) {
      assert InTime(range, after.done[|before.done|]);
    }
  }

  lemma VerdictIffWrong(range: TimeRange, h: History, now: nat)
    ensures Verdict(range, h, now).Some? <==> Failed(range, h) || Overdue(range, h, now)
  {
    if i :| 0 <= i < |h.done| && !InTime(range, h.done[i]) {
      assert StoppedEarly(range, h.done[i]) || StoppedLate(range, h.done[i]);
    }
    if i :| 0 <= i < |h.done| && (StoppedEarly(range, h.done[i]) || StoppedLate(range, h.done[i])) {
      assert !InTime(range, h.done[i]);
    }
  }

  /** The load and the clock read of an evaluation are two steps. Where nothing is wrong at the clock read, the
      gap yields an alarm exactly when a stop in time lands in it and the limit passes before the read. */
  lemma FalseAlarmIffStoppedBetween(run: seq<State>, i: nat, j: nat)
    requires IsRun(run) && i <= j < |run|
    requires Verdict(run[j].slot.range, HistoryOf(run[j].slot), run[j].clock).None?
    ensures FalseAlarm(run[i], run[j]) <==>
              && StoppedBetween(run[i].slot.range, HistoryOf(run[i].slot), HistoryOf(run[j].slot))
              && Overdue(run[i].slot.range, HistoryOf(run[i].slot), run[j].clock)
  {
    WordRefinesHistory(run, i, j);
    HistoryExtends(run, i, j);
    ClockIsMonotone(run, i, j);
    var range, before, after := run[i].slot.range, HistoryOf(run[i].slot), HistoryOf(run[j].slot);
    VerdictIffWrong(range, before, run[j].clock);
    VerdictIffWrong(range, after, run[j].clock);
    WrongOnlyInGap(range, before, after, run[j].clock);
  }

  /** Such a run exists: a session of range <0; 10> started at 0 is loaded as running, stopped
      at 10, and the clock read at 11. Loading and reading in one state is never wrong. */
  lemma FalseAlarmExample() returns (run: seq<State>)
    ensures IsRun(run) && |run| == 7 && FalseAlarm(run[2], run[6])
  {
    var s0 := State(Slot(TimeRange(0, 10), DEFAULT, Idle, []), 0);
    var s1 := Next(s0, ReadStart);
    DefaultReadsBack();
    RunningReadsBack(10);
    var s2 := Next(s1, UpdateStart);
    var s3 := Next(s2, Pass(10));
    var s4 := Next(s3, ReadStop);
    var s5 := Next(s4, UpdateStop);
    var s6 := Next(s5, Pass(11));
    run := [s0, s1, s2, s3, s4, s5, s6];
    assert Takes(run[0], ReadStart, run[1]);
    assert Takes(run[1], UpdateStart, run[2]);
    assert Takes(run[2], Pass(10), run[3]);
    assert Takes(run[3], ReadStop, run[4]);
    assert Takes(run[4], UpdateStop, run[5]);
    assert Takes(run[5], Pass(11), run[6]);
    assert s6.slot.done == [Session(0, 10)];
  }
}
