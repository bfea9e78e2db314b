/** Heartbeat monitor: the packed word
    | heartbeat timestamp: 62 bits | heartbeat counter: 2 bits |,
    the object that owns it, and the history of beats and evaluations it stands for. Words are
    naturals below 2^64; masks and shifts are written as remainders and quotients. */
module HeartbeatMonitor {
  import opened Common

  type Word = w: nat | w < 0x1_0000_0000_0000_0000
  type U62 = n: nat | n < 0x4000_0000_0000_0000

  const NEW: Word := 0

  function HeartbeatTimestamp(w: Word): U62 {
    w / 4
  }

  function SetHeartbeatTimestamp(w: Word, value: U62): Word {
    value * 4 + w % 4
  }

  function Counter(w: Word): nat {
    w % 4
  }

  /** Saturates at 3. */
  function IncrementCounter(w: Word): Word {
    w / 4 * 4 + if Counter(w) + 1 < 3 then Counter(w) + 1 else 3
  }

  datatype EvaluationError = TooEarly | TooLate | MultipleHeartbeats

  /** The builder's check of the processing cycle; `None` is the error `InvalidArgument`. */
  function Build(range: TimeRange, cycle: nat): Option<TimeRange> {
    if range.min * 2 <= cycle then None else Some(range)
  }

  /** The closure of `heartbeat`. */
  function BeatUpdate(w: Word, now: U62): Word {
    IncrementCounter(SetHeartbeatTimestamp(w, now))
  }

  /** One evaluation of a word taken by the reset: the error, and the next start timestamp. */
  function EvaluateSnapshot(range: TimeRange, offset: nat, startTimestamp: nat, snapshot: Word, monitorNow: nat)
    : (Option<EvaluationError>, nat)
  {
    var start := if startTimestamp > 0 then startTimestamp else offset;
    if Counter(snapshot) > 1 then (Some(MultipleHeartbeats), startTimestamp)
    else if Counter(snapshot) == 0 then
      (if monitorNow > start + range.max then Some(TooLate) else None, startTimestamp)
    else if HeartbeatTimestamp(snapshot) < start + range.min then (Some(TooEarly), startTimestamp)
    else if HeartbeatTimestamp(snapshot) > start + range.max then (Some(TooLate), startTimestamp)
    else (None, HeartbeatTimestamp(snapshot))
  }

  class HeartbeatMonitorInner {
    const range: TimeRange
    var heartbeatState: Word
    var startTimestamp: nat

    constructor (range: TimeRange)
      ensures this.range == range && heartbeatState == NEW && startTimestamp == 0
    {
      this.range := range;
      heartbeatState := NEW;
      startTimestamp := 0;
    }

    /** `now` is the clock of the monitor, read before the atomic update. */
    method Heartbeat(now: U62)
      modifies this`heartbeatState
      ensures heartbeatState == BeatUpdate(old(heartbeatState), now)
    {
      var current := heartbeatState;
      current := SetHeartbeatTimestamp(current, now);
      current := IncrementCounter(current);
      heartbeatState := current;
    }

    /** `offset` and `monitorNow` are the two clock readings of the worker. */
    method Evaluate(offset: nat, monitorNow: nat) returns (error: Option<EvaluationError>)
      modifies this
      ensures (error, startTimestamp) ==
              EvaluateSnapshot(range, offset, old(startTimestamp), old(heartbeatState), monitorNow)
      ensures heartbeatState == NEW
    {
      var start := startTimestamp;
      var snapshot := heartbeatState;
      heartbeatState := NEW;
      if start == 0 {
        start := offset;
      }
      var heartbeatTimestamp := HeartbeatTimestamp(snapshot);
      var lower, upper := range.min + start, range.max + start;
      var counter := Counter(snapshot);
      if counter > 1 {
        return Some(MultipleHeartbeats);
      } else if counter == 0 {
        if monitorNow > upper {
          return Some(TooLate);
        }
        return None;
      }
      if heartbeatTimestamp < lower {
        error := Some(TooEarly);
      } else if heartbeatTimestamp > upper {
        error := Some(TooLate);
      } else {
        startTimestamp := heartbeatTimestamp;
        error := None;
      }
    }
  }

  // ---- Runs and their history -------------------------------------------------------------

  /** The atomic steps on a monitor, at beat-clock time `at`: the update of a beat that had read the
      clock as `read`, or the reset of an evaluation that had read `now`. Any interleaving of threads
      is a sequence of these; a beat that is delayed over a reset has an earlier `read`. */
  datatype Event = Beat(read: U62, at: nat) | Evaluate(now: nat, at: nat)

  /** The beats an evaluation found, and the clock it compared them with. */
  datatype Window = Window(beats: seq<U62>, now: nat)

  /** The two fields of the monitor, with the history of its windows, the beats since the last
      reset and the verdicts so far. */
  datatype State = State(word: Word, start: nat, windows: seq<Window>, pending: seq<U62>,
                         verdicts: seq<Option<EvaluationError>>)

  const INITIAL := State(NEW, 0, [], [], [])

  function Next(range: TimeRange, offset: nat, s: State, e: Event): State {
    match e
    case Beat(read, _) => s.(word := BeatUpdate(s.word, read), pending := s.pending + [read])
    case Evaluate(now, _) =>
      var (error, start) := EvaluateSnapshot(range, offset, s.start, s.word, now);
      State(NEW, start, s.windows + [Window(s.pending, now)], [], s.verdicts + [error])
  }

  function Exec(range: TimeRange, offset: nat, events: seq<Event>): State {
    if events == [] then INITIAL
    else Next(range, offset, Exec(range, offset, events[..|events| - 1]), events[|events| - 1])
  }

  /** All beats of a sequence of windows, in order. */
  function Beats(windows: seq<Window>): seq<U62> {
    if windows == [] then [] else Beats(windows[..|windows| - 1]) + windows[|windows| - 1].beats
  }

  /** All beats of a run, in order. */
  function BeatsOf(events: seq<Event>): seq<U62> {
    if events == [] then []
    else
      var before := BeatsOf(events[..|events| - 1]);
      match events[|events| - 1]
      case Beat(read, _) => before + [read]
      case Evaluate(_, _) => before
  }

  /** The time the next beat is measured from: the last beat, or the offset if there is none. */
  function Reference(offset: nat, beats: seq<nat>): nat {
    if beats == [] then offset else beats[|beats| - 1]
  }

  function Previous(offset: nat, beats: seq<nat>, i: nat): nat
    requires i <= |beats|
  {
    if i == 0 then offset else beats[i - 1]
  }

  /** Every beat lies in the range of the previous one, the first in the range of the offset. */
  ghost predicate InRange(range: TimeRange, offset: nat, beats: seq<nat>) {
    forall i :: 0 <= i < |beats| ==>
      Previous(offset, beats, i) + range.min <= beats[i] <= Previous(offset, beats, i) + range.max
  }

  ghost predicate SingleBeats(windows: seq<Window>) {
    forall k :: 0 <= k < |windows| ==> |windows[k].beats| <= 1
  }

  /** No evaluation that found no beat was past the limit. */
  ghost predicate NothingMissing(range: TimeRange, offset: nat, windows: seq<Window>) {
    windows == [] ||
    var before, last := windows[..|windows| - 1], windows[|windows| - 1];
    && NothingMissing(range, offset, before)
    && (last.beats == [] ==> last.now <= Reference(offset, Beats(before)) + range.max)
  }

  /** The history the monitor is meant to accept, stated on beats and windows alone. */
  ghost predicate Regular(range: TimeRange, offset: nat, windows: seq<Window>) {
    && SingleBeats(windows)
    && InRange(range, offset, Beats(windows))
    && NothingMissing(range, offset, windows)
  }

  /** What is wrong with one window, given the reference of the beats before it. */
  function WindowVerdict(range: TimeRange, reference: nat, w: Window): Option<EvaluationError> {
    if |w.beats| > 1 then Some(MultipleHeartbeats)
    else if w.beats == [] then if w.now > reference + range.max then Some(TooLate) else None
    else if w.beats[0] < reference + range.min then Some(TooEarly)
    else if w.beats[0] > reference + range.max then Some(TooLate)
    else None
  }

  predicate ErrorFree(s: State) {
    forall k :: 0 <= k < |s.verdicts| ==> s.verdicts[k].None?
  }

  // ---- The word as a summary of the pending beats -----------------------------------------

  ghost predicate Summarises(w: Word, pending: seq<U62>) {
    && Counter(w) == (if |pending| < 3 then |pending| else 3)
    && HeartbeatTimestamp(w) == Reference(0, pending)
  }

  lemma BeatSummarises(w: Word, pending: seq<U62>, at: U62)
    requires Summarises(w, pending)
    ensures Summarises(BeatUpdate(w, at), pending + [at])
  {
  }

  /** No beat is lost or counted twice: the windows and the pending beats together are the beats
      of the run, and the word holds the last pending beat and their number up to saturation. */
  lemma {:induction false} BeatsAreConserved(range: TimeRange, offset: nat, events: seq<Event>)
    ensures var s := Exec(range, offset, events);
            && Beats(s.windows) + s.pending == BeatsOf(events)
            && Summarises(s.word, s.pending)
            && |s.verdicts| == |s.windows|
  {
    if events != [] {
      var before, e := events[..|events| - 1], events[|events| - 1];
      BeatsAreConserved(range, offset, before);
      var s := Exec(range, offset, before);
      match e
      case Beat(read, _) => BeatSummarises(s.word, s.pending, read);
      case Evaluate(now, _) =>
        var windows := s.windows + [Window(s.pending, now)];
        assert windows[..|windows| - 1] == s.windows;
    }
  }

  lemma {:induction false} InRangeSnoc(range: TimeRange, offset: nat, beats: seq<nat>, at: nat)
    ensures InRange(range, offset, beats + [at]) <==>
              && InRange(range, offset, beats)
              && Reference(offset, beats) + range.min <= at <= Reference(offset, beats) + range.max
  {
    var all := beats + [at];
    assert all[|beats|] == at && Previous(offset, all, |beats|) == Reference(offset, beats);
    assert forall i :: 0 <= i < |beats| ==>
             all[i] == beats[i] && Previous(offset, all, i) == Previous(offset, beats, i);
  }

  lemma BeatsSnoc(windows: seq<Window>, w: Window)
    ensures Beats(windows + [w]) == Beats(windows) + w.beats
  {
    assert (windows + [w])[..|windows|] == windows;
  }

  /** A window extends a regular history exactly when nothing is wrong with it. */
  lemma RegularSnoc(range: TimeRange, offset: nat, windows: seq<Window>, w: Window)
    ensures Regular(range, offset, windows + [w]) <==>
              Regular(range, offset, windows) && WindowVerdict(range, Reference(offset, Beats(windows)), w).None?
  {
    BeatsSnoc(windows, w);
    assert (windows + [w])[..|windows|] == windows;
    SingleBeatsSnoc(windows, w);
    if |w.beats| == 1 {
      assert w.beats == [w.beats[0]];
      InRangeSnoc(range, offset, Beats(windows), w.beats[0]);
    } else if w.beats == [] {
      assert Beats(windows) + w.beats == Beats(windows);
    }
  }

  lemma SingleBeatsSnoc(windows: seq<Window>, w: Window)
    ensures SingleBeats(windows + [w]) <==> SingleBeats(windows) && |w.beats| <= 1
  {
    var all := windows + [w];
    assert all[|windows|] == w;
    assert forall k :: 0 <= k < |windows| ==> all[k] == windows[k];
  }

  /** With the start timestamp standing for the reference, the code's verdict on the word is the
      verdict on the beats the word summarises. */
  lemma SnapshotVerdict(range: TimeRange, offset: nat, start: nat, w: Word, pending: seq<U62>, now: nat)
    requires Summarises(w, pending)
    ensures var reference := if start > 0 then start else offset;
            var (error, next) := EvaluateSnapshot(range, offset, start, w, now);
            && error == WindowVerdict(range, reference, Window(pending, now))
            && (error.None? ==> next == if pending == [] then start else pending[0])
            && (error.None? && pending != [] ==> reference + range.min <= next)
  {
  }

  /** Until the first error, the start timestamp is the last beat (0 standing for "none"), and the monitor is
      error-free exactly when the history is regular. */
  ghost predicate Refines(range: TimeRange, offset: nat, s: State) {
    && (ErrorFree(s) <==> Regular(range, offset, s.windows))
    && (ErrorFree(s) ==> s.start == Reference(0, Beats(s.windows)) && (s.start == 0 <==> Beats(s.windows) == []))
  }

  lemma EvaluationRefines(range: TimeRange, offset: nat, s: State, now: nat, at: nat)
    requires range.min > 0 && Refines(range, offset, s) && Summarises(s.word, s.pending)
    ensures Refines(range, offset, Next(range, offset, s, Evaluate(now, at)))
  {
    var w := Window(s.pending, now);
    var error := EvaluateSnapshot(range, offset, s.start, s.word, now).0;
    RegularSnoc(range, offset, s.windows, w);
    BeatsSnoc(s.windows, w);
    SnapshotVerdict(range, offset, s.start, s.word, s.pending, now);
    ErrorFreeSnoc(s.verdicts, error);
    if ErrorFree(s) {
      assert Reference(offset, Beats(s.windows)) == if s.start > 0 then s.start else offset;
      if error.None? && s.pending != [] {
        assert s.pending == [s.pending[0]];
      }
    }
  }

  /** The verdicts refine the history, over every run. The builder's check makes 0 impossible as an accepted
      beat. */
  lemma {:induction false} VerdictsRefineHistory(range: TimeRange, cycle: nat, offset: nat, events: seq<Event>)
    requires Build(range, cycle).Some?
    ensures var s := Exec(range, offset, events);
            && (ErrorFree(s) <==> Regular(range, offset, s.windows))
            && (ErrorFree(s) ==>
                   s.start == Reference(0, Beats(s.windows)) && (s.start == 0 <==> Beats(s.windows) == []))
  {
    if events != [] {
      var before, e := events[..|events| - 1], events[|events| - 1];
      VerdictsRefineHistory(range, cycle, offset, before);
      BeatsAreConserved(range, offset, before);
      if e.Evaluate? {
        EvaluationRefines(range, offset, Exec(range, offset, before), e.now, e.at);
      }
    }
  }

  lemma ErrorFreeSnoc(verdicts: seq<Option<EvaluationError>>, v: Option<EvaluationError>)
    ensures (forall k :: 0 <= k < |verdicts + [v]| ==> (verdicts + [v])[k].None?) <==>
              v.None? && forall k :: 0 <= k < |verdicts| ==> verdicts[k].None?
  {
    var all := verdicts + [v];
    assert all[|verdicts|] == v;
    assert forall k :: 0 <= k < |verdicts| ==> all[k] == verdicts[k];
  }

  /** The first error has the kind of its window. */
  lemma FirstErrorKind(range: TimeRange, cycle: nat, offset: nat, events: seq<Event>, now: nat, at: nat)
    requires Build(range, cycle).Some?
    requires ErrorFree(Exec(range, offset, events))
    ensures var s := Exec(range, offset, events);
            Next(range, offset, s, Evaluate(now, at)).verdicts ==
            s.verdicts + [WindowVerdict(range, Reference(offset, Beats(s.windows)), Window(s.pending, now))]
  {
    var s := Exec(range, offset, events);
    VerdictsRefineHistory(range, cycle, offset, events);
    BeatsAreConserved(range, offset, events);
    SnapshotVerdict(range, offset, s.start, s.word, s.pending, now);
    assert Reference(offset, Beats(s.windows)) == if s.start > 0 then s.start else offset;
  }

  // ---- When the two-bit counter is enough ---------------------------------------------------

  /** Beat-clock time of the last evaluation; the start of the health monitor if there is none. */
  function LastEvaluation(offset: nat, events: seq<Event>): nat {
    if events == [] then offset
    else
      match events[|events| - 1]
      case Evaluate(_, at) => at
      case Beat(_, _) => LastEvaluation(offset, events[..|events| - 1])
  }

  predicate Evaluated(events: seq<Event>) {
    events != [] && (events[|events| - 1].Evaluate? || Evaluated(events[..|events| - 1]))
  }

  /** Events happen in order of time. The health monitor starts at `offset`, and each event comes at most `cycle`
      after the evaluation before it, or after that start. A beat updates the word at most `delay` after it read
      the clock, and may come before the start. */
  ghost predicate Timed(offset: nat, events: seq<Event>, cycle: nat, delay: nat) {
    events == [] ||
    var before, last := events[..|events| - 1], events[|events| - 1];
    Timed(offset, before, cycle, delay) && OnTime(offset, before, last, cycle, delay)
  }

  ghost predicate OnTime(offset: nat, before: seq<Event>, e: Event, cycle: nat, delay: nat) {
    && e.at <= LastEvaluation(offset, before) + cycle
    && (e.Evaluate? ==> LastEvaluation(offset, before) <= e.at)
    && (before != [] ==> before[|before| - 1].at <= e.at)
    && (e.Beat? ==> e.read <= e.at <= e.read + delay)
  }

  ghost predicate Spaced(range: TimeRange, beats: seq<nat>) {
    forall i :: 0 < i < |beats| ==> beats[i - 1] + range.min <= beats[i]
  }

  /** The first beat is read at most `lead` before the start of the health monitor; a negative lead says how long
      after it. */
  predicate StartsBy(offset: nat, lead: int, beats: seq<nat>) {
    beats != [] ==> offset - lead <= beats[0]
  }

  ghost predicate Within(beats: seq<nat>, lo: int, hi: nat) {
    forall i :: 0 <= i < |beats| ==> lo <= beats[i] <= hi
  }

  lemma {:induction false} LastEventSinceEvaluation(offset: nat, cycle: nat, delay: nat, events: seq<Event>)
    requires Timed(offset, events, cycle, delay) && Evaluated(events)
    ensures LastEvaluation(offset, events) <= events[|events| - 1].at
  {
    if events[|events| - 1].Beat? {
      LastEventSinceEvaluation(offset, cycle, delay, events[..|events| - 1]);
    }
  }

  /** The pending beats of a timed run were read at most a cycle after its last evaluation, or the start, and, if
      there was an evaluation, at most a delay before it. */
  lemma {:induction false} PendingBounds(range: TimeRange, offset: nat, cycle: nat, delay: nat, events: seq<Event>)
    requires Timed(offset, events, cycle, delay)
    ensures var last := LastEvaluation(offset, events);
            Within(Exec(range, offset, events).pending, if Evaluated(events) then last - delay else 0, last + cycle)
    ensures cycle == 0 ==> LastEvaluation(offset, events) == offset
    ensures !Evaluated(events) ==> LastEvaluation(offset, events) == offset && Exec(range, offset, events).windows == []
  {
    if events != [] {
      var before := events[..|events| - 1];
      PendingBounds(range, offset, cycle, delay, before);
      if Evaluated(before) {
        LastEventSinceEvaluation(offset, cycle, delay, before);
      }
    }
  }

  /** Spaced beats are that far apart for each beat in between. */
  lemma {:induction false} SpacedSpan(range: TimeRange, beats: seq<nat>, i: nat, j: nat)
    requires Spaced(range, beats) && i <= j < |beats|
    ensures beats[i] + (j - i) * range.min <= beats[j]
  {
    if i < j {
      SpacedSpan(range, beats, i, j - 1);
      assert (j - i) * range.min == (j - 1 - i) * range.min + range.min;
    }
  }

  /** Neither delayed beats nor early ones can pile up to `count` in one window. */
  predicate TooShortFor(range: TimeRange, cycle: nat, delay: nat, lead: int, count: nat)
    requires count > 0
  {
    (cycle == 0 || cycle + delay < (count - 1) * range.min) && cycle + lead < (count - 1) * range.min
  }

  lemma FewPending(range: TimeRange, offset: nat, cycle: nat, delay: nat, lead: int, events: seq<Event>, count: nat)
    requires Timed(offset, events, cycle, delay) && Spaced(range, BeatsOf(events))
             && StartsBy(offset, lead, BeatsOf(events))
    requires count > 0 && TooShortFor(range, cycle, delay, lead, count)
    ensures |Exec(range, offset, events).pending| < count
  {
    BeatsAreConserved(range, offset, events);
    PendingBounds(range, offset, cycle, delay, events);
    var s := Exec(range, offset, events);
    if |s.pending| >= count {
      SpacedTail(range, Beats(s.windows), s.pending, count);
    }
  }

  /** Spaced beats keep their distance in any tail. */
  lemma SpacedTail(range: TimeRange, early: seq<nat>, late: seq<nat>, count: nat)
    requires Spaced(range, early + late) && 0 < count <= |late|
    ensures late[0] + (count - 1) * range.min <= late[count - 1] && (early + late)[0] <= late[0]
  {
    var all, n := early + late, |early|;
    assert all[n] == late[0] && all[n + count - 1] == late[count - 1];
    SpacedSpan(range, all, n, n + count - 1);
    SpacedSpan(range, all, 0, n);
    Positive(n, range.min);
  }

  lemma Positive(a: nat, b: nat)
    ensures 0 <= a * b
  {
  }

  // ---- Runs that fill a window -----------------------------------------------------------------

  lemma RunSnoc(range: TimeRange, offset: nat, events: seq<Event>, e: Event)
    ensures Exec(range, offset, events + [e]) == Next(range, offset, Exec(range, offset, events), e)
    ensures BeatsOf(events + [e]) == BeatsOf(events) + if e.Beat? then [e.read] else []
    ensures LastEvaluation(offset, events + [e]) == if e.Evaluate? then e.at else LastEvaluation(offset, events)
    ensures forall cycle, delay :: Timed(offset, events + [e], cycle, delay) <==>
              Timed(offset, events, cycle, delay) && OnTime(offset, events, e, cycle, delay)
  {
    assert (events + [e])[..|events|] == events;
  }

  /** Evaluations alone, at most a cycle apart, from the start up to a given time. */
  lemma {:induction false} QuietUntil(range: TimeRange, offset: nat, cycle: nat, delay: nat, time: nat)
    returns (events: seq<Event>)
    requires cycle > 0 && offset <= time
    ensures Timed(offset, events, cycle, delay) && BeatsOf(events) == [] && LastEvaluation(offset, events) == time
    ensures Exec(range, offset, events).pending == []
    ensures events != [] ==> events[|events| - 1].at == time
    decreases time
  {
    if time == offset {
      events := [];
    } else {
      var before := QuietUntil(range, offset, cycle, delay, if time < offset + cycle then offset else time - cycle);
      events := before + [Evaluate(time, time)];
      RunSnoc(range, offset, before, Evaluate(time, time));
    }
  }

  /** `count` beats `min` apart from `first` on, all counted in one window, which starts at `reset` or, if that is
      before the start of the health monitor, is the first one; and nothing happened since that keeps the next beat
      from following. */
  ghost predicate Piled(range: TimeRange, offset: nat, cycle: nat, delay: nat, first: nat, reset: nat, count: nat,
                        events: seq<Event>)
  {
    && Timed(offset, events, cycle, delay)
    && LastEvaluation(offset, events) == Later(offset, reset)
    && |BeatsOf(events)| == count == |Exec(range, offset, events).pending|
    && (forall k :: 0 <= k < count ==> BeatsOf(events)[k] == first + k * range.min)
    && (events != [] ==> events[|events| - 1].at <= Later(reset, first + count * range.min))
  }

  /** The next beat is updated when it was read or at the reset, whichever is later. */
  lemma PileOne(range: TimeRange, offset: nat, cycle: nat, delay: nat, first: nat, reset: nat, count: nat,
                before: seq<Event>) returns (events: seq<Event>)
    requires Piled(range, offset, cycle, delay, first, reset, count, before)
    requires first + count * range.min < 0x4000_0000_0000_0000
    requires (first <= reset <= first + delay || reset == 0)
             && first + count * range.min <= Later(offset, reset) + cycle
    ensures Piled(range, offset, cycle, delay, first, reset, count + 1, events)
  {
    Positive(count, range.min);
    assert (count + 1) * range.min == count * range.min + range.min;
    var e := Beat(first + count * range.min, Later(reset, first + count * range.min));
    RunSnoc(range, offset, before, e);
    events := before + [e];
  }

  lemma {:induction false} PileUp(range: TimeRange, offset: nat, cycle: nat, delay: nat, first: nat, reset: nat,
                                  count: nat) returns (events: seq<Event>)
    requires first + count * range.min < 0x4000_0000_0000_0000 && (offset < reset ==> cycle > 0)
    requires first <= reset <= first + delay || reset == 0
    requires count > 0 ==> first + (count - 1) * range.min <= Later(offset, reset) + cycle
    ensures Piled(range, offset, cycle, delay, first, reset, count, events)
    decreases count
  {
    if count == 0 {
      if offset < reset {
        events := QuietUntil(range, offset, cycle, delay, reset);
      } else {
        events := [];
      }
    } else {
      assert count * range.min == (count - 1) * range.min + range.min;
      assert count > 1 ==> (count - 1) * range.min == (count - 2) * range.min + range.min;
      var before := PileUp(range, offset, cycle, delay, first, reset, count - 1);
      events := PileOne(range, offset, cycle, delay, first, reset, count - 1, before);
    }
  }

  function Later(a: nat, b: nat): nat {
    if a < b then b else a
  }

  /** `count` beats that were delayed over a reset after the start, the first a minimum after the start. */
  lemma DelayedPileUp(range: TimeRange, offset: nat, cycle: nat, delay: nat, count: nat) returns (events: seq<Event>)
    requires count > 1 && cycle > 0 && (count - 1) * range.min <= cycle + delay
    requires offset + (count + 1) * range.min < 0x4000_0000_0000_0000
    ensures Timed(offset, events, cycle, delay) && |Exec(range, offset, events).pending| == count
    ensures |BeatsOf(events)| == count
            && forall k :: 0 <= k < count ==> BeatsOf(events)[k] == offset + range.min + k * range.min
  {
    var first, span := offset + range.min, (count - 1) * range.min;
    assert first + count * range.min == offset + (count + 1) * range.min;
    events := PileUp(range, offset, cycle, delay, first, if span <= cycle then first else first + span - cycle, count);
  }

  lemma EvenlySpaced(range: TimeRange, beats: seq<nat>, first: nat)
    requires forall k :: 0 <= k < |beats| ==> beats[k] == first + k * range.min
    ensures Spaced(range, beats)
    ensures range.Valid() && first >= range.min ==> InRange(range, first - range.min, beats)
  {
    forall k | 0 < k < |beats|
      ensures beats[k - 1] + range.min == beats[k]
    {
      assert k * range.min == (k - 1) * range.min + range.min;
    }
  }

  // ---- Beats at least the minimum apart -----------------------------------------------------------

  ghost predicate SpacedRun(range: TimeRange, offset: nat, cycle: nat, delay: nat, lead: int, events: seq<Event>) {
    && Timed(offset, events, cycle, delay)
    && Spaced(range, BeatsOf(events)) && StartsBy(offset, lead, BeatsOf(events))
  }

  /** A run of spaced beats that fills one window with `count` of them. */
  lemma SpacedPileUp(range: TimeRange, offset: nat, cycle: nat, delay: nat, lead: int, count: nat)
    returns (events: seq<Event>)
    requires 0 < range.min && count > 1 && 0 - range.min <= lead <= offset
             && offset + (count + 1) * range.min < 0x4000_0000_0000_0000
    requires !TooShortFor(range, cycle, delay, lead, count)
    ensures SpacedRun(range, offset, cycle, delay, lead, events) && |Exec(range, offset, events).pending| == count
  {
    if cycle > 0 && (count - 1) * range.min <= cycle + delay {
      events := DelayedPileUp(range, offset, cycle, delay, count);
      EvenlySpaced(range, BeatsOf(events), offset + range.min);
    } else {
      assert (count + 1) * range.min == count * range.min + range.min;
      events := PileUp(range, offset, cycle, delay, offset - lead, 0, count);
      EvenlySpaced(range, BeatsOf(events), offset - lead);
    }
  }

  /** The counter stays below saturation, so that it is exact, on all runs of beats at least the minimum apart that
      start by a given time, exactly when neither early nor delayed beats can pile up to three in a window. */
  lemma CounterIsExactIff(range: TimeRange, offset: nat, cycle: nat, delay: nat, lead: int)
    requires 0 < range.min && 0 - range.min <= lead <= offset && offset + 4 * range.min < 0x4000_0000_0000_0000
    ensures (forall events :: SpacedRun(range, offset, cycle, delay, lead, events) ==>
               Counter(Exec(range, offset, events).word) == |Exec(range, offset, events).pending| < 3) <==>
            TooShortFor(range, cycle, delay, lead, 3)
  {
    if TooShortFor(range, cycle, delay, lead, 3) {
      forall events | SpacedRun(range, offset, cycle, delay, lead, events)
        ensures Counter(Exec(range, offset, events).word) == |Exec(range, offset, events).pending| < 3
      {
        FewPending(range, offset, cycle, delay, lead, events, 3);
        BeatsAreConserved(range, offset, events);
      }
    } else {
      var events := SpacedPileUp(range, offset, cycle, delay, lead, 3);
    }
  }

  /** An evaluation that finds two or more beats raises the error, whatever came before. */
  lemma MultipleOnTwoPending(range: TimeRange, offset: nat, events: seq<Event>, now: nat, at: nat)
    ensures |Exec(range, offset, events).pending| >= 2 ==>
              Some(MultipleHeartbeats) in Exec(range, offset, events + [Evaluate(now, at)]).verdicts
  {
    var all := events + [Evaluate(now, at)];
    assert all[..|events|] == events;
    BeatsAreConserved(range, offset, events);
    var s, t := Exec(range, offset, events), Exec(range, offset, all);
    assert t.verdicts[|s.verdicts|] == EvaluateSnapshot(range, offset, s.start, s.word, now).0;
  }

  /** A timed run can be continued by an evaluation at once. */
  lemma EvaluateNow(range: TimeRange, offset: nat, cycle: nat, delay: nat, events: seq<Event>)
    returns (more: seq<Event>)
    requires Timed(offset, events, cycle, delay) && |Exec(range, offset, events).pending| >= 2
    ensures Timed(offset, more, cycle, delay) && BeatsOf(more) == BeatsOf(events)
    ensures Some(MultipleHeartbeats) in Exec(range, offset, more).verdicts
  {
    assert events != [];
    var at := Later(LastEvaluation(offset, events), events[|events| - 1].at);
    RunSnoc(range, offset, events, Evaluate(at, at));
    MultipleOnTwoPending(range, offset, events, at, at);
    more := events + [Evaluate(at, at)];
  }

  lemma {:induction false} NoMultipleIfShort(range: TimeRange, offset: nat, cycle: nat, delay: nat, lead: int,
                                             events: seq<Event>)
    requires SpacedRun(range, offset, cycle, delay, lead, events) && TooShortFor(range, cycle, delay, lead, 2)
    ensures Some(MultipleHeartbeats) !in Exec(range, offset, events).verdicts
  {
    if events != [] {
      var before := events[..|events| - 1];
      assert BeatsOf(before) <= BeatsOf(events);
      assert forall i :: 0 <= i < |BeatsOf(before)| ==> BeatsOf(before)[i] == BeatsOf(events)[i];
      NoMultipleIfShort(range, offset, cycle, delay, lead, before);
      FewPending(range, offset, cycle, delay, lead, before, 2);
      BeatsAreConserved(range, offset, before);
      NoMultipleOnOnePending(range, offset, Exec(range, offset, before), events[|events| - 1]);
    }
  }

  lemma NoMultipleOnOnePending(range: TimeRange, offset: nat, s: State, e: Event)
    requires Summarises(s.word, s.pending) && |s.pending| < 2 && Some(MultipleHeartbeats) !in s.verdicts
    ensures Some(MultipleHeartbeats) !in Next(range, offset, s, e).verdicts
  {
  }

  /** `MultipleHeartbeats` is never raised on such runs exactly when no two of their beats can share a window. */
  lemma NoMultipleOnSpacedIff(range: TimeRange, offset: nat, cycle: nat, delay: nat, lead: int)
    requires 0 < range.min && 0 - range.min <= lead <= offset && offset + 3 * range.min < 0x4000_0000_0000_0000
    ensures (forall events :: SpacedRun(range, offset, cycle, delay, lead, events) ==>
               Some(MultipleHeartbeats) !in Exec(range, offset, events).verdicts) <==>
            TooShortFor(range, cycle, delay, lead, 2)
  {
    if TooShortFor(range, cycle, delay, lead, 2) {
      forall events | SpacedRun(range, offset, cycle, delay, lead, events)
        ensures Some(MultipleHeartbeats) !in Exec(range, offset, events).verdicts
      {
        NoMultipleIfShort(range, offset, cycle, delay, lead, events);
      }
    } else {
      var before := SpacedPileUp(range, offset, cycle, delay, lead, 2);
      var events := EvaluateNow(range, offset, cycle, delay, before);
      assert SpacedRun(range, offset, cycle, delay, lead, events);
    }
  }

  /** Beats sent before the health monitor starts pile up in the first window, however short the cycle. */
  lemma EarlyBeatsExample()
    ensures var events := EarlyBeats() + [Evaluate(105, 105)];
            && SpacedRun(TimeRange(10, 20), 100, 5, 0, 90, events)
            && Some(MultipleHeartbeats) in Exec(TimeRange(10, 20), 100, events).verdicts
  {
    var range := TimeRange(10, 20);
    EarlyBeatsArePending();
    RunSnoc(range, 100, EarlyBeats(), Evaluate(105, 105));
    MultipleOnTwoPending(range, 100, EarlyBeats(), 105, 105);
  }

  function EarlyBeats(): seq<Event> {
    [Beat(10, 10), Beat(20, 20), Beat(30, 30)]
  }

  lemma EarlyBeatsArePending()
    ensures Timed(100, EarlyBeats(), 5, 0) && LastEvaluation(100, EarlyBeats()) == 100
    ensures BeatsOf(EarlyBeats()) == [10, 20, 30] && |Exec(TimeRange(10, 20), 100, EarlyBeats()).pending| == 3
  {
    var range := TimeRange(10, 20);
    var r1 := [Beat(10, 10)];
    var r2 := r1 + [Beat(20, 20)];
    RunSnoc(range, 100, [], Beat(10, 10));
    assert [] + r1 == r1;
    RunSnoc(range, 100, r1, Beat(20, 20));
    RunSnoc(range, 100, r2, Beat(30, 30));
    assert r2 + [Beat(30, 30)] == EarlyBeats();
  }

  // ---- Beats in range --------------------------------------------------------------------------------

  /** A run of beats in range and evaluations at most a cycle apart. */
  ghost predicate GoodRun(range: TimeRange, offset: nat, cycle: nat, delay: nat, events: seq<Event>) {
    Timed(offset, events, cycle, delay) && InRange(range, offset, BeatsOf(events))
  }

  /** No good run raises `MultipleHeartbeats`. */
  ghost predicate NeverSpuriouslyMultiple(range: TimeRange, offset: nat, cycle: nat, delay: nat) {
    forall events: seq<Event> :: GoodRun(range, offset, cycle, delay, events) ==>
      Some(MultipleHeartbeats) !in Exec(range, offset, events).verdicts
  }

  /** In no good run the counter saturates. */
  ghost predicate NeverSaturates(range: TimeRange, offset: nat, cycle: nat, delay: nat) {
    forall events: seq<Event> :: GoodRun(range, offset, cycle, delay, events) ==>
      Counter(Exec(range, offset, events).word) < 3
  }

  /** The first beat of a good run comes a minimum after the start. */
  lemma GoodRunIsSpaced(range: TimeRange, offset: nat, cycle: nat, delay: nat, events: seq<Event>)
    requires GoodRun(range, offset, cycle, delay, events)
    ensures SpacedRun(range, offset, cycle, delay, 0 - range.min, events)
  {
    var beats := BeatsOf(events);
    assert forall i :: 0 < i < |beats| ==> Previous(offset, beats, i) == beats[i - 1];
    assert beats != [] ==> Previous(offset, beats, 0) == offset;
  }

  /** Two beats in range in one window: flagged by the monitor. */
  lemma MultipleIfLong(range: TimeRange, offset: nat, cycle: nat, delay: nat) returns (events: seq<Event>)
    requires range.Valid() && cycle > 0 && range.min <= cycle + delay && offset + 3 * range.min < 0x4000_0000_0000_0000
    ensures GoodRun(range, offset, cycle, delay, events)
    ensures Some(MultipleHeartbeats) in Exec(range, offset, events).verdicts
  {
    var before := DelayedPileUp(range, offset, cycle, delay, 2);
    EvenlySpaced(range, BeatsOf(before), offset + range.min);
    events := EvaluateNow(range, offset, cycle, delay, before);
  }

  /** `MultipleHeartbeats` is never raised on beats in range exactly when cycle and delay together are shorter than
      the minimum (or no time passes between evaluations at all), whenever the health monitor starts. */
  lemma NeverSpuriouslyMultipleIff(range: TimeRange, offset: nat, cycle: nat, delay: nat)
    requires range.Valid() && 0 < range.min && offset + 3 * range.min < 0x4000_0000_0000_0000
    ensures NeverSpuriouslyMultiple(range, offset, cycle, delay) <==> cycle == 0 || cycle + delay < range.min
  {
    if cycle == 0 || cycle + delay < range.min {
      forall events: seq<Event> | GoodRun(range, offset, cycle, delay, events)
        ensures Some(MultipleHeartbeats) !in Exec(range, offset, events).verdicts
      {
        GoodRunIsSpaced(range, offset, cycle, delay, events);
        NoMultipleIfShort(range, offset, cycle, delay, 0 - range.min, events);
      }
    } else {
      var events := MultipleIfLong(range, offset, cycle, delay);
    }
  }

  /** The counter stays below saturation on beats in range exactly when cycle and delay together are shorter than
      twice the minimum. The builder's check is this condition for beats without delay. */
  lemma NeverSaturatesIff(range: TimeRange, offset: nat, cycle: nat, delay: nat)
    requires range.Valid() && 0 < range.min && offset + 4 * range.min < 0x4000_0000_0000_0000
    ensures NeverSaturates(range, offset, cycle, delay) <==> cycle == 0 || cycle + delay < 2 * range.min
    ensures Build(range, cycle).Some? <==> cycle == 0 || cycle + 0 < 2 * range.min
  {
    if cycle == 0 || cycle + delay < 2 * range.min {
      forall events: seq<Event> | GoodRun(range, offset, cycle, delay, events)
        ensures Counter(Exec(range, offset, events).word) < 3
      {
        GoodRunIsSpaced(range, offset, cycle, delay, events);
        FewPending(range, offset, cycle, delay, 0 - range.min, events, 3);
        BeatsAreConserved(range, offset, events);
      }
    } else {
      var events := DelayedPileUp(range, offset, cycle, delay, 3);
      EvenlySpaced(range, BeatsOf(events), offset + range.min);
      BeatsAreConserved(range, offset, events);
    }
  }

  // ---- The worker's clock -------------------------------------------------------------------

  /** A missing beat is never reported while a beat at that instant would still be in range, and
      is reported by any evaluation at least 2 ms past the limit. */
  lemma MissingBeatIsReportedInTime(range: TimeRange, cycle: nat, events: seq<Event>,
                                    monitorStart: nat, hmonStart: nat, instant: nat, at: nat)
    requires Build(range, cycle).Some? && monitorStart <= hmonStart <= instant
    requires var s := Exec(range, Millis(hmonStart - monitorStart), events); ErrorFree(s) && s.pending == []
    ensures var offset := Millis(hmonStart - monitorStart);
            var s := Exec(range, offset, events);
            var reference := Reference(offset, Beats(s.windows));
            var now := TwoPartMillis(monitorStart, hmonStart, instant);
            var late := !ErrorFree(Next(range, offset, s, Evaluate(now, at)));
            && (late ==> ElapsedMillis(monitorStart, instant) > reference + range.max)
            && (ElapsedMillis(monitorStart, instant) >= reference + range.max + 2 ==> late)
  {
    var offset := Millis(hmonStart - monitorStart);
    var s := Exec(range, offset, events);
    var now := TwoPartMillis(monitorStart, hmonStart, instant);
    TwoPartClockWithinOneMilli(monitorStart, hmonStart, instant);
    FirstErrorKind(range, cycle, offset, events, now, at);
    var t := Next(range, offset, s, Evaluate(now, at));
    assert t.verdicts[|s.verdicts|] == WindowVerdict(range, Reference(offset, Beats(s.windows)), Window([], now));
    assert forall k :: 0 <= k < |s.verdicts| ==> t.verdicts[k] == s.verdicts[k];
  }
}
