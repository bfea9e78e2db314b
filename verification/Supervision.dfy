/** The whole supervision protocol: application threads, the clock and the worker interleave in
    atomic steps over deadline slots, heartbeat monitors and logic monitors. The worker sees only
    packed words; every claim is about the plain event histories. */
module Supervision {
  import opened Common
  import D = DeadlineProtocol
  import DM = DeadlineMonitor
  import H = HeartbeatMonitor
  import L = LogicMonitor

  /** One thing the worker evaluates: a deadline slot, a heartbeat monitor or a logic monitor, each
      with its starting point or graph, its packed state and its history. */
  datatype Unit =
    | DeadlineUnit(start: nat, slot: D.Slot)
    | HeartbeatUnit(start: nat, range: TimeRange, cycle: nat, beats: H.State, events: seq<H.Event>)
    | LogicUnit(graph: L.Graph, order: seq<L.Tag>, nodes: seq<L.StateNode>, initial: L.Tag, index: L.U56,
                word: L.Word, requests: seq<L.Tag>)

  /** What an evaluation of a unit had to judge: the sessions at the load of the word, the sessions at
      the clock read after it, and that clock; the windows up to and including the one just closed; or
      the requests. */
  datatype Evidence =
    | DeadlineEvidence(range: TimeRange, loaded: D.History, atRead: D.History, now: nat)
    | HeartbeatEvidence(range: TimeRange, offset: nat, windows: seq<H.Window>)
    | LogicEvidence(graph: L.Graph, initial: L.Tag, requests: seq<L.Tag>)

  /** A violation when the evaluation took place, stated on the history alone. */
  ghost predicate Violation(e: Evidence) {
    match e
    case DeadlineEvidence(range, _, atRead, now) => D.Failed(range, atRead) || D.Overdue(range, atRead, now)
    case HeartbeatEvidence(range, offset, windows) => !H.Regular(range, offset, windows)
    case LogicEvidence(graph, initial, requests) => !L.IsPath(graph, initial, requests)
  }

  /** What the evaluation can see: the history of a deadline as it was at the load. */
  ghost predicate Apparent(e: Evidence) {
    match e
    case DeadlineEvidence(range, loaded, _, now) => D.Failed(range, loaded) || D.Overdue(range, loaded, now)
    case _ => Violation(e)
  }

  /** A stop in time landed between the load and the clock read of a deadline, and the limit passed. */
  predicate StoppedInGap(e: Evidence) {
    e.DeadlineEvidence? && D.StoppedBetween(e.range, e.loaded, e.atRead) && D.Overdue(e.range, e.loaded, e.now)
  }

  /** No session was started or stopped between the load and the clock read. */
  predicate Undisturbed(e: Evidence) {
    e.DeadlineEvidence? ==> e.loaded == e.atRead
  }

  predicate Recorded(e: Evidence) {
    e.DeadlineEvidence? ==> D.Extends(e.loaded, e.atRead)
  }

  /** What is apparent is a violation or a stop in the gap, and without a violation exactly the latter. */
  lemma ApparentIff(e: Evidence)
    requires Recorded(e)
    ensures !Violation(e) ==> (Apparent(e) <==> StoppedInGap(e))
    ensures Undisturbed(e) ==> (Apparent(e) <==> Violation(e))
  {
    if e.DeadlineEvidence? && !Violation(e) {
      D.WrongOnlyInGap(e.range, e.loaded, e.atRead, e.now);
    }
  }

  /** Between the two steps of one evaluation: the slot as it was when its word was loaded, or the
      clock a heartbeat evaluation read before its reset. */
  datatype Probe = Fresh | Loaded(at: D.State) | Clocked(now: nat)

  datatype Phase =
    | Asleep
    | Evaluating(next: nat, probe: Probe, evidence: seq<Evidence>, hasAnyError: bool)
    | Notifying(evidence: seq<Evidence>)
    | Calling(evidence: seq<Evidence>)
    | Ended(evidence: seq<Evidence>)

  /** A notification: when it was recorded, and when the supervisor was then called. */
  datatype Notification = Notification(recorded: nat, at: nat, evidence: seq<Evidence>)

  datatype State = State(clock: nat, hmonStart: nat, supervisorCycle: nat, units: seq<Unit>,
                         phase: Phase, lastNotification: nat, log: seq<Notification>)

  datatype Action = DeadlineAction(step: D.Step) | BeatAction(at: H.U62) | TransitionAction(target: L.Tag)

  datatype Step =
    | Pass(to: nat)
    | Act(unit: nat, action: Action)
    | Wake
    | StopThread
    | BeginProbe
    | FinishProbe
    | Decide
    | Record
    | Call

  // ---- Steps ------------------------------------------------------------------------------

  function SlotState(u: Unit, clock: nat): D.State
    requires u.DeadlineUnit? && u.start <= clock
  {
    D.State(u.slot, ElapsedMillis(u.start, clock))
  }

  function Offset(u: Unit, hmonStart: nat): nat
    requires u.HeartbeatUnit? && u.start <= hmonStart
  {
    Millis(hmonStart - u.start)
  }

  predicate ActionEnabled(u: Unit, clock: nat, hmonStart: nat, action: Action) {
    match (u, action)
    case (DeadlineUnit(start, slot), DeadlineAction(step)) =>
      start <= clock && !step.Pass? && D.Enabled(SlotState(u, clock), step)
    case (HeartbeatUnit(start, range, _, beats, _), BeatAction(at)) =>
      start <= clock && start <= hmonStart && at <= ElapsedMillis(start, clock)
    case (LogicUnit(_, _, nodes, _, _, _, _), TransitionAction(_)) => |nodes| <= 0x100_0000_0000_0000
    case _ => false
  }

  /** An application step on one unit. */
  function Acted(u: Unit, clock: nat, hmonStart: nat, action: Action): Unit
    requires ActionEnabled(u, clock, hmonStart, action)
  {
    match action
    case DeadlineAction(step) => u.(slot := D.Next(SlotState(u, clock), step).slot)
    case BeatAction(at) =>
      u.(beats := H.Next(u.range, Offset(u, hmonStart), u.beats, H.Beat(at, ElapsedMillis(u.start, clock))),
         events := u.events + [H.Beat(at, ElapsedMillis(u.start, clock))])
    case TransitionAction(target) =>
      u.(word := L.TransitionOf(u.nodes, u.word, target).0, requests := u.requests + [target])
  }

  /** The first step of an evaluation: load the word, or read the clock before the reset. */
  function Begun(u: Unit, clock: nat, hmonStart: nat): Probe
    requires !u.LogicUnit? ==> u.start <= hmonStart <= clock
  {
    match u
    case DeadlineUnit(_, _) => Loaded(SlotState(u, clock))
    case HeartbeatUnit(start, _, _, _, _) => Clocked(TwoPartMillis(start, hmonStart, clock))
    case LogicUnit(_, _, _, _, _, _, _) => Fresh
  }

  /** The unit after its evaluation: only a heartbeat evaluation writes. */
  function Evaluated(u: Unit, probe: Probe, clock: nat, hmonStart: nat): Unit
    requires Matches(u, probe) && (!u.LogicUnit? ==> u.start <= hmonStart <= clock)
  {
    if u.HeartbeatUnit? then
      var e := H.Evaluate(probe.now, ElapsedMillis(u.start, clock));
      u.(beats := H.Next(u.range, Offset(u, hmonStart), u.beats, e), events := u.events + [e])
    else u
  }

  predicate Matches(u: Unit, probe: Probe) {
    match u
    case DeadlineUnit(_, _) => probe.Loaded?
    case HeartbeatUnit(_, _, _, _, _) => probe.Clocked?
    case LogicUnit(_, _, _, _, _, _, _) => probe.Fresh?
  }

  /** Whether the evaluation reports an error; computed from packed words only. */
  predicate Reports(u: Unit, probe: Probe, clock: nat, hmonStart: nat)
    requires Matches(u, probe) && (!u.LogicUnit? ==> u.start <= hmonStart <= clock)
  {
    match u
    case DeadlineUnit(start, _) => DM.Report(probe.at.slot.word, ElapsedMillis(start, clock)).Some?
    case HeartbeatUnit(_, range, _, beats, _) =>
      H.EvaluateSnapshot(range, Offset(u, hmonStart), beats.start, beats.word, probe.now).0.Some?
    case LogicUnit(_, _, _, _, _, word, _) => L.MonitorStatus(word).Some?
  }

  /** The history the evaluation had to judge. */
  function EvidenceOf(u: Unit, probe: Probe, clock: nat, hmonStart: nat): Evidence
    requires Matches(u, probe) && (!u.LogicUnit? ==> u.start <= hmonStart <= clock)
  {
    match u
    case DeadlineUnit(start, _) =>
      DeadlineEvidence(probe.at.slot.range, D.HistoryOf(probe.at.slot), D.HistoryOf(u.slot),
                       ElapsedMillis(start, clock))
    case HeartbeatUnit(_, range, _, beats, _) =>
      HeartbeatEvidence(range, Offset(u, hmonStart), beats.windows + [H.Window(beats.pending, probe.now)])
    case LogicUnit(graph, _, _, initial, _, _, requests) => LogicEvidence(graph, initial, requests)
  }

  predicate ReadyToProbe(s: State) {
    && s.phase.Evaluating? && s.phase.next < |s.units| && s.hmonStart <= s.clock
    && (!s.units[s.phase.next].LogicUnit? ==> s.units[s.phase.next].start <= s.hmonStart)
  }

  predicate Enabled(s: State, step: Step) {
    match step
    case Pass(to) => s.clock <= to
    case Act(i, action) => i < |s.units| && ActionEnabled(s.units[i], s.clock, s.hmonStart, action)
    case Wake => s.phase.Asleep? && s.hmonStart <= s.clock
    case StopThread => s.phase.Asleep?
    case BeginProbe => ReadyToProbe(s) && s.phase.probe.Fresh? && !s.units[s.phase.next].LogicUnit?
    case FinishProbe => ReadyToProbe(s) && Matches(s.units[s.phase.next], s.phase.probe)
    case Decide => s.phase.Evaluating? && s.phase.next == |s.units|
    case Record => s.phase.Notifying?
    case Call => s.phase.Calling?
  }

  function Next(s: State, step: Step): State
    requires Enabled(s, step)
  {
    match step
    case Pass(to) => s.(clock := to)
    case Act(i, action) => s.(units := s.units[i := Acted(s.units[i], s.clock, s.hmonStart, action)])
    case Wake => s.(phase := Evaluating(0, Fresh, [], false))
    case StopThread => s.(phase := Ended([]))
    case BeginProbe => s.(phase := s.phase.(probe := Begun(s.units[s.phase.next], s.clock, s.hmonStart)))
    case FinishProbe =>
      var Evaluating(i, probe, evidence, hasAnyError) := s.phase;
      s.(units := s.units[i := Evaluated(s.units[i], probe, s.clock, s.hmonStart)],
         phase := Evaluating(i + 1, Fresh, evidence + [EvidenceOf(s.units[i], probe, s.clock, s.hmonStart)],
                             hasAnyError || Reports(s.units[i], probe, s.clock, s.hmonStart)))
    case Decide =>
      if s.phase.hasAnyError then s.(phase := Ended(s.phase.evidence))
      else if s.clock > s.lastNotification + s.supervisorCycle then s.(phase := Notifying(s.phase.evidence))
      else s.(phase := Asleep)
    case Record => s.(phase := Calling(s.phase.evidence), lastNotification := s.clock)
    case Call =>
      s.(phase := Asleep, log := s.log + [Notification(s.lastNotification, s.clock, s.phase.evidence)])
  }

  // ---- The invariant ----------------------------------------------------------------------

  ghost predicate UnitInitial(u: Unit, clock: nat, hmonStart: nat) {
    match u
    case DeadlineUnit(start, slot) => start <= clock && start <= hmonStart && D.Initial(D.State(slot, 0))
    case HeartbeatUnit(start, range, cycle, beats, events) =>
      start <= clock && start <= hmonStart && H.Build(range, cycle).Some? && events == [] && beats == H.INITIAL
    case LogicUnit(graph, order, nodes, initial, index, word, requests) =>
      && LogicBuilt(u) && requests == [] && word == L.SetCurrentStateIndex(0, index)
  }

  /** What the logic monitor's builder establishes. */
  ghost predicate LogicBuilt(u: Unit)
    requires u.LogicUnit?
  {
    && IterationOrder(u.order, u.graph) && L.Closed(u.graph) && L.Represents(u.nodes, u.order, u.graph)
    && |u.nodes| <= 0x100_0000_0000_0000 && u.index < |u.nodes| && u.nodes[u.index].tag == u.initial
  }

  ghost predicate Initial(s: State) {
    && s.phase.Asleep? && s.log == [] && s.lastNotification <= s.clock
    && forall i :: 0 <= i < |s.units| ==> UnitInitial(s.units[i], s.clock, s.hmonStart)
  }

  ghost predicate UnitInv(u: Unit, clock: nat, hmonStart: nat) {
    match u
    case DeadlineUnit(start, slot) => start <= clock && start <= hmonStart && D.Inv(SlotState(u, clock))
    case HeartbeatUnit(start, range, cycle, beats, events) =>
      && start <= clock && start <= hmonStart && H.Build(range, cycle).Some?
      && beats == H.Exec(range, Offset(u, hmonStart), events)
    case LogicUnit(graph, order, nodes, initial, index, word, requests) =>
      LogicBuilt(u) && word == L.Exec(nodes, index, requests)
  }

  /** No earlier evaluation of the unit reported an error. */
  ghost predicate CleanSoFar(u: Unit) {
    u.HeartbeatUnit? ==> H.ErrorFree(u.beats)
  }

  ghost predicate ProbeInv(u: Unit, probe: Probe, clock: nat) {
    u.DeadlineUnit? && probe.Loaded? ==>
      && u.start <= clock && D.Inv(probe.at) && probe.at.clock <= ElapsedMillis(u.start, clock)
      && probe.at.slot.range == u.slot.range && D.Extends(D.HistoryOf(probe.at.slot), D.HistoryOf(u.slot))
  }

  ghost predicate NothingApparent(evidence: seq<Evidence>) {
    forall k :: 0 <= k < |evidence| ==> !Apparent(evidence[k])
  }

  predicate AllRecorded(evidence: seq<Evidence>) {
    forall k :: 0 <= k < |evidence| ==> Recorded(evidence[k])
  }

  ghost predicate PhaseInv(s: State) {
    match s.phase
    case Asleep => forall k :: 0 <= k < |s.units| ==> CleanSoFar(s.units[k])
    case Evaluating(next, probe, evidence, hasAnyError) =>
      && next == |evidence| <= |s.units| && AllRecorded(evidence)
      && (hasAnyError <==> !NothingApparent(evidence))
      && (forall k :: 0 <= k < |s.units| && (k >= next || !hasAnyError) ==> CleanSoFar(s.units[k]))
      && (next < |s.units| ==> ProbeInv(s.units[next], probe, s.clock))
    case Notifying(evidence) =>
      && |evidence| == |s.units| && NothingApparent(evidence)
      && s.clock > s.lastNotification + s.supervisorCycle
      && forall k :: 0 <= k < |s.units| ==> CleanSoFar(s.units[k])
    case Calling(evidence) =>
      && |evidence| == |s.units| && NothingApparent(evidence)
      && (s.log != [] ==> Later(s.log[|s.log| - 1], s.lastNotification, s.supervisorCycle))
      && forall k :: 0 <= k < |s.units| ==> CleanSoFar(s.units[k])
    case Ended(evidence) => evidence == [] || (!NothingApparent(evidence) && AllRecorded(evidence))
  }

  ghost predicate LogInv(s: State) {
    && s.lastNotification <= s.clock
    && (s.log != [] && !s.phase.Calling? ==> s.lastNotification == s.log[|s.log| - 1].recorded)
    && (forall k :: 0 <= k < |s.log| ==> |s.log[k].evidence| == |s.units| && NothingApparent(s.log[k].evidence))
    && (forall k :: 0 <= k < |s.log| ==> s.log[k].recorded <= s.log[k].at <= s.clock)
    && (forall k :: 0 < k < |s.log| ==> Later(s.log[k - 1], s.log[k].recorded, s.supervisorCycle))
  }

  /** A record made more than the supervisor cycle after that of an earlier notification, and after its call. */
  predicate Later(n: Notification, recorded: nat, supervisorCycle: nat) {
    n.recorded + supervisorCycle < recorded && n.at <= recorded
  }

  ghost predicate Inv(s: State) {
    && (forall k :: 0 <= k < |s.units| ==> UnitInv(s.units[k], s.clock, s.hmonStart))
    && PhaseInv(s) && LogInv(s)
  }

  // ---- Each unit keeps its invariant -------------------------------------------------------

  lemma UnitInvInitially(u: Unit, clock: nat, hmonStart: nat)
    requires UnitInitial(u, clock, hmonStart)
    ensures UnitInv(u, clock, hmonStart) && CleanSoFar(u)
  {
  }

  lemma UnitInvPass(u: Unit, clock: nat, to: nat, hmonStart: nat)
    requires UnitInv(u, clock, hmonStart) && clock <= to
    ensures UnitInv(u, to, hmonStart)
  {
    if u.DeadlineUnit? {
      ElapsedMillisMonotone(u.start, clock, to);
      D.InvPreserved(SlotState(u, clock), D.Pass(ElapsedMillis(u.start, to)));
    }
  }

  lemma DeadlineInvAct(u: Unit, clock: nat, hmonStart: nat, action: Action)
    requires u.DeadlineUnit? && UnitInv(u, clock, hmonStart) && ActionEnabled(u, clock, hmonStart, action)
    ensures UnitInv(Acted(u, clock, hmonStart, action), clock, hmonStart)
  {
    D.InvPreserved(SlotState(u, clock), action.step);
    assert SlotState(Acted(u, clock, hmonStart, action), clock) == D.Next(SlotState(u, clock), action.step);
  }

  lemma BeatInvAct(u: Unit, clock: nat, hmonStart: nat, action: Action)
    requires u.HeartbeatUnit? && UnitInv(u, clock, hmonStart) && ActionEnabled(u, clock, hmonStart, action)
    ensures UnitInv(Acted(u, clock, hmonStart, action), clock, hmonStart)
    ensures CleanSoFar(u) ==> CleanSoFar(Acted(u, clock, hmonStart, action))
  {
    H.RunSnoc(u.range, Offset(u, hmonStart), u.events, H.Beat(action.at, ElapsedMillis(u.start, clock)));
  }

  lemma TransitionInvAct(u: Unit, clock: nat, hmonStart: nat, action: Action)
    requires u.LogicUnit? && UnitInv(u, clock, hmonStart) && ActionEnabled(u, clock, hmonStart, action)
    ensures UnitInv(Acted(u, clock, hmonStart, action), clock, hmonStart)
  {
    assert (u.requests + [action.target])[..|u.requests|] == u.requests;
  }

  lemma UnitInvAct(u: Unit, clock: nat, hmonStart: nat, action: Action)
    requires UnitInv(u, clock, hmonStart) && ActionEnabled(u, clock, hmonStart, action)
    ensures UnitInv(Acted(u, clock, hmonStart, action), clock, hmonStart)
    ensures CleanSoFar(u) ==> CleanSoFar(Acted(u, clock, hmonStart, action))
  {
    match u
    case DeadlineUnit(_, _) => DeadlineInvAct(u, clock, hmonStart, action);
    case HeartbeatUnit(_, _, _, _, _) => BeatInvAct(u, clock, hmonStart, action);
    case LogicUnit(_, _, _, _, _, _, _) => TransitionInvAct(u, clock, hmonStart, action);
  }

  lemma UnitInvEvaluated(u: Unit, probe: Probe, clock: nat, hmonStart: nat)
    requires UnitInv(u, clock, hmonStart) && Matches(u, probe) && hmonStart <= clock
    ensures UnitInv(Evaluated(u, probe, clock, hmonStart), clock, hmonStart)
  {
    if u.HeartbeatUnit? {
      H.RunSnoc(u.range, Offset(u, hmonStart), u.events, H.Evaluate(probe.now, ElapsedMillis(u.start, clock)));
    }
  }

  /** The heart of the protocol: what the worker computes from packed words is a verdict on the
      history it could see, for all three kinds of monitor. */
  lemma ReportsIffApparent(u: Unit, probe: Probe, clock: nat, hmonStart: nat)
    requires UnitInv(u, clock, hmonStart) && Matches(u, probe) && ProbeInv(u, probe, clock) && CleanSoFar(u)
    requires hmonStart <= clock
    ensures Reports(u, probe, clock, hmonStart) <==> Apparent(EvidenceOf(u, probe, clock, hmonStart))
    ensures Recorded(EvidenceOf(u, probe, clock, hmonStart))
    ensures CleanSoFar(Evaluated(u, probe, clock, hmonStart)) || Reports(u, probe, clock, hmonStart)
  {
    match u
    case DeadlineUnit(start, slot) =>
      D.ReportIsVerdict(probe.at, ElapsedMillis(start, clock));
      D.VerdictIffWrong(probe.at.slot.range, D.HistoryOf(probe.at.slot), ElapsedMillis(start, clock));
    case HeartbeatUnit(start, range, cycle, beats, events) =>
      var offset := Offset(u, hmonStart);
      var e := H.Evaluate(probe.now, ElapsedMillis(start, clock));
      H.RunSnoc(range, offset, events, e);
      H.VerdictsRefineHistory(range, cycle, offset, events + [e]);
      H.ErrorFreeSnoc(beats.verdicts, H.EvaluateSnapshot(range, offset, beats.start, beats.word, probe.now).0);
    case LogicUnit(graph, order, nodes, initial, index, _, requests) =>
      L.WordFollowsWalk(graph, order, nodes, initial, index, requests);
  }

  lemma NothingApparentSnoc(evidence: seq<Evidence>, e: Evidence)
    ensures NothingApparent(evidence + [e]) <==> NothingApparent(evidence) && !Apparent(e)
    ensures AllRecorded(evidence + [e]) <==> AllRecorded(evidence) && Recorded(e)
  {
    var all := evidence + [e];
    assert all[|evidence|] == e;
    assert forall k :: 0 <= k < |evidence| ==> all[k] == evidence[k];
  }

  // ---- Every step keeps the invariant --------------------------------------------------------

  lemma InvPass(s: State, to: nat)
    requires Inv(s) && s.clock <= to
    ensures Inv(Next(s, Pass(to)))
  {
    forall k | 0 <= k < |s.units|
      ensures UnitInv(s.units[k], to, s.hmonStart)
    {
      UnitInvPass(s.units[k], s.clock, to, s.hmonStart);
    }
    if ReadyToProbe(s) && s.units[s.phase.next].DeadlineUnit? {
      assert UnitInv(s.units[s.phase.next], s.clock, s.hmonStart);
      ElapsedMillisMonotone(s.units[s.phase.next].start, s.clock, to);
    }
  }

  lemma InvAct(s: State, i: nat, action: Action)
    requires Inv(s) && Enabled(s, Act(i, action))
    ensures Inv(Next(s, Act(i, action)))
  {
    UnitInvAct(s.units[i], s.clock, s.hmonStart, action);
    if s.phase.Evaluating? && s.phase.next == i && s.phase.probe.Loaded? && s.units[i].DeadlineUnit? {
      D.ExtendsStep(D.HistoryOf(s.phase.probe.at.slot), SlotState(s.units[i], s.clock), action.step);
    }
    var t := Next(s, Act(i, action));
    forall k | 0 <= k < |t.units|
      ensures UnitInv(t.units[k], t.clock, t.hmonStart)
      ensures CleanSoFar(s.units[k]) ==> CleanSoFar(t.units[k])
    {
    }
  }

  lemma InvFinishProbe(s: State)
    requires Inv(s) && Enabled(s, FinishProbe)
    ensures Inv(Next(s, FinishProbe))
  {
    var i := s.phase.next;
    var t := Next(s, FinishProbe);
    UnitInvEvaluated(s.units[i], s.phase.probe, s.clock, s.hmonStart);
    assert forall k :: 0 <= k < |t.units| && k != i ==> t.units[k] == s.units[k];
    assert t.units[i] == Evaluated(s.units[i], s.phase.probe, s.clock, s.hmonStart);
    FinishedPhase(s);
  }

  lemma FinishedPhase(s: State)
    requires Inv(s) && Enabled(s, FinishProbe)
    ensures PhaseInv(Next(s, FinishProbe))
  {
    var Evaluating(i, probe, evidence, hasAnyError) := s.phase;
    var u := s.units[i];
    assert UnitInv(u, s.clock, s.hmonStart) && CleanSoFar(u);
    ReportsIffApparent(u, probe, s.clock, s.hmonStart);
    NothingApparentSnoc(evidence, EvidenceOf(u, probe, s.clock, s.hmonStart));
    var t := Next(s, FinishProbe);
    assert forall k :: 0 <= k < |t.units| && k != i ==> t.units[k] == s.units[k];
    assert t.units[i] == Evaluated(u, probe, s.clock, s.hmonStart);
  }

  lemma InvWork(s: State, step: Step)
    requires Inv(s) && Enabled(s, step) && (step.Wake? || step.StopThread? || step.BeginProbe? || step.Decide?)
    ensures Inv(Next(s, step))
  {
    if step.BeginProbe? {
      assert UnitInv(s.units[s.phase.next], s.clock, s.hmonStart);
    }
  }

  lemma InvNotify(s: State, step: Step)
    requires Inv(s) && Enabled(s, step) && (step.Record? || step.Call?)
    ensures Inv(Next(s, step))
  {
  }

  lemma InvPreserved(s: State, step: Step)
    requires Inv(s) && Enabled(s, step)
    ensures Inv(Next(s, step))
  {
    match step
    case Pass(to) => InvPass(s, to);
    case Act(i, action) => InvAct(s, i, action);
    case FinishProbe => InvFinishProbe(s);
    case Record => InvNotify(s, step);
    case Call => InvNotify(s, step);
    case _ => InvWork(s, step);
  }

  // ---- Runs -----------------------------------------------------------------------------------

  predicate Takes(s: State, step: Step, t: State) {
    Enabled(s, step) && t == Next(s, step)
  }

  ghost predicate Follows(s: State, t: State) {
    exists step :: Takes(s, step, t)
  }

  ghost predicate StepAt(run: seq<State>, i: nat)
    requires i + 1 < |run|
  {
    Follows(run[i], run[i + 1])
  }

  ghost predicate IsRun(run: seq<State>) {
    && run != [] && Initial(run[0])
    && forall i :: 0 <= i < |run| - 1 ==> StepAt(run, i)
  }

  lemma StepInto(run: seq<State>, i: nat)
    requires IsRun(run) && 0 < i < |run|
    ensures Follows(run[i - 1], run[i])
  {
    assert StepAt(run, i - 1);
  }

  lemma {:induction false} InvOnRuns(run: seq<State>, i: nat)
    requires IsRun(run) && i < |run|
    ensures Inv(run[i])
  {
    if i == 0 {
      forall k | 0 <= k < |run[0].units|
        ensures UnitInv(run[0].units[k], run[0].clock, run[0].hmonStart) && CleanSoFar(run[0].units[k])
      {
        UnitInvInitially(run[0].units[k], run[0].clock, run[0].hmonStart);
      }
    } else {
      InvOnRuns(run, i - 1);
      StepInto(run, i);
      var step :| Takes(run[i - 1], step, run[i]);
      InvPreserved(run[i - 1], step);
    }
  }

  /** Alive safety: over every interleaving, each notification was sent by an iteration in which no
      monitor's history held a violation when its word was loaded, nor any the clock read after it
      could show. Consecutive notifications are recorded more than the supervisor cycle apart, each is sent after it
      is recorded, and the next is recorded after that. */
  lemma AliveSafety(run: seq<State>, i: nat, k: nat)
    requires IsRun(run) && i < |run| && k < |run[i].log|
    ensures |run[i].log[k].evidence| == |run[i].units|
    ensures forall u :: 0 <= u < |run[i].units| ==> !Apparent(run[i].log[k].evidence[u])
    ensures run[i].log[k].recorded <= run[i].log[k].at
    ensures k > 0 ==> run[i].log[k - 1].recorded + run[i].supervisorCycle < run[i].log[k].recorded
    ensures k > 0 ==> run[i].log[k - 1].at <= run[i].log[k].recorded
  {
    InvOnRuns(run, i);
  }

  /** The thread ends by itself only on a violation or on a stop in the gap of a deadline, and after it
      has ended no notification is ever sent again. */
  lemma {:induction false} EndedIsSilent(run: seq<State>, i: nat, j: nat)
    requires IsRun(run) && i <= j < |run| && run[i].phase.Ended?
    ensures run[j].phase == run[i].phase && run[j].log == run[i].log
    ensures run[i].phase.evidence != [] ==>
              exists k ::
                0 <= k < |run[i].phase.evidence|
                && (Violation(run[i].phase.evidence[k]) || StoppedInGap(run[i].phase.evidence[k]))
  {
    InvOnRuns(run, i);
    if run[i].phase.evidence != [] {
      var k :| 0 <= k < |run[i].phase.evidence| && Apparent(run[i].phase.evidence[k]);
      ApparentIff(run[i].phase.evidence[k]);
    }
    if i < j {
      EndedIsSilent(run, i, j - 1);
      StepInto(run, j);
    }
  }

  /** An iteration in which no unit was in violation at its own clock read ends the thread exactly when a
      stop in time landed in the gap of some deadline and its limit passed. */
  lemma EndsWithoutViolationIff(run: seq<State>, i: nat)
    requires IsRun(run) && i < |run| && Enabled(run[i], Decide)
    requires forall k :: 0 <= k < |run[i].phase.evidence| ==> !Violation(run[i].phase.evidence[k])
    ensures Next(run[i], Decide).phase.Ended? <==>
              exists k :: 0 <= k < |run[i].phase.evidence| && StoppedInGap(run[i].phase.evidence[k])
  {
    InvOnRuns(run, i);
    forall k | 0 <= k < |run[i].phase.evidence|
      ensures Apparent(run[i].phase.evidence[k]) <==> StoppedInGap(run[i].phase.evidence[k])
    {
      ApparentIff(run[i].phase.evidence[k]);
    }
  }

  /** Where no deadline is touched between its load and its clock read, an iteration ends the thread exactly
      when some unit was in violation. */
  lemma UndisturbedEndIffViolation(run: seq<State>, i: nat)
    requires IsRun(run) && i < |run| && Enabled(run[i], Decide)
    requires forall k :: 0 <= k < |run[i].phase.evidence| ==> Undisturbed(run[i].phase.evidence[k])
    ensures Next(run[i], Decide).phase.Ended? <==>
              exists k :: 0 <= k < |run[i].phase.evidence| && Violation(run[i].phase.evidence[k])
  {
    InvOnRuns(run, i);
    forall k | 0 <= k < |run[i].phase.evidence|
      ensures Apparent(run[i].phase.evidence[k]) <==> Violation(run[i].phase.evidence[k])
    {
      ApparentIff(run[i].phase.evidence[k]);
    }
  }

  // ---- Violations silence the supervisor ------------------------------------------------------

  /** The unit will fail its next evaluation whatever happens before it: a deadline that is late or
      early for good, a second beat or a beat out of range waiting in the window, or a request that
      left the graph. */
  ghost predicate Doomed(u: Unit, clock: nat, hmonStart: nat) {
    match u
    case DeadlineUnit(start, _) =>
      start <= clock && (D.LateForGood(SlotState(u, clock)) || D.EarlyForGood(SlotState(u, clock)))
    case HeartbeatUnit(start, range, _, beats, _) =>
      && start <= hmonStart
      && beats.pending != []
      && (|beats.pending| == 1 ==>
            var reference := H.Reference(Offset(u, hmonStart), H.Beats(beats.windows));
            !(reference + range.min <= beats.pending[0] <= reference + range.max))
    case LogicUnit(graph, _, _, initial, _, _, requests) => !L.IsPath(graph, initial, requests)
  }

  lemma DoomedPass(u: Unit, clock: nat, to: nat, hmonStart: nat)
    requires UnitInv(u, clock, hmonStart) && clock <= to && Doomed(u, clock, hmonStart)
    ensures UnitInv(u, to, hmonStart) && Doomed(u, to, hmonStart)
  {
    UnitInvPass(u, clock, to, hmonStart);
    if u.DeadlineUnit? {
      ElapsedMillisMonotone(u.start, clock, to);
      D.FailureStays(SlotState(u, clock), D.Pass(ElapsedMillis(u.start, to)));
    }
  }

  lemma DoomedAct(u: Unit, clock: nat, hmonStart: nat, action: Action)
    requires UnitInv(u, clock, hmonStart) && ActionEnabled(u, clock, hmonStart, action) && Doomed(u, clock, hmonStart)
    ensures UnitInv(Acted(u, clock, hmonStart, action), clock, hmonStart)
    ensures Doomed(Acted(u, clock, hmonStart, action), clock, hmonStart)
  {
    UnitInvAct(u, clock, hmonStart, action);
    match u
    case DeadlineUnit(_, _) => D.FailureStays(SlotState(u, clock), action.step);
    case HeartbeatUnit(_, _, _, _, _) =>
    case LogicUnit(graph, _, _, initial, _, _, requests) => L.PathSnoc(graph, initial, requests, action.target);
  }

  /** The loaded slot was already beyond repair. */
  ghost predicate ProbeDoomed(probe: Probe) {
    probe.Loaded? ==> D.LateForGood(probe.at) || D.EarlyForGood(probe.at)
  }

  lemma DoomedReports(u: Unit, probe: Probe, clock: nat, hmonStart: nat)
    requires UnitInv(u, clock, hmonStart) && Matches(u, probe) && ProbeInv(u, probe, clock) && CleanSoFar(u)
    requires hmonStart <= clock && Doomed(u, clock, hmonStart) && ProbeDoomed(probe)
    ensures Reports(u, probe, clock, hmonStart)
  {
    match u
    case DeadlineUnit(start, _) => D.ForGoodIsReported(probe.at, ElapsedMillis(start, clock));
    case HeartbeatUnit(_, range, cycle, beats, events) =>
      var offset := Offset(u, hmonStart);
      H.FirstErrorKind(range, cycle, offset, events, probe.now, 0);
      assert H.Next(range, offset, beats, H.Evaluate(probe.now, 0)).verdicts[|beats.verdicts|].Some?;
    case LogicUnit(graph, order, nodes, initial, index, _, requests) =>
      L.WordFollowsWalk(graph, order, nodes, initial, index, requests);
  }

  /** No notification can come: a doomed unit is still to be evaluated, or has been. */
  ghost predicate Silenced(s: State, d: nat) {
    && Inv(s) && d < |s.units|
    && match s.phase
       case Asleep => Doomed(s.units[d], s.clock, s.hmonStart)
       case Evaluating(next, probe, _, hasAnyError) =>
         || hasAnyError
         || (next <= d && Doomed(s.units[d], s.clock, s.hmonStart) && (next == d ==> ProbeDoomed(probe)))
       case Notifying(_) => false
       case Calling(_) => false
       case Ended(_) => true
  }

  lemma SilencedStays(s: State, step: Step, d: nat)
    requires Silenced(s, d) && Enabled(s, step)
    ensures Silenced(Next(s, step), d) && Next(s, step).log == s.log
  {
    InvPreserved(s, step);
    match step
    case Pass(to) =>
      if Doomed(s.units[d], s.clock, s.hmonStart) {
        DoomedPass(s.units[d], s.clock, to, s.hmonStart);
      }
    case Act(i, action) =>
      if i == d && Doomed(s.units[d], s.clock, s.hmonStart) {
        DoomedAct(s.units[d], s.clock, s.hmonStart, action);
      }
    case FinishProbe =>
      if s.phase.next == d && !s.phase.hasAnyError {
        DoomedReports(s.units[d], s.phase.probe, s.clock, s.hmonStart);
      }
    case _ =>
  }

  lemma SilencedFollows(s: State, t: State, d: nat)
    requires Silenced(s, d) && Follows(s, t)
    ensures Silenced(t, d) && t.log == s.log
  {
    var step :| Takes(s, step, t);
    SilencedStays(s, step, d);
  }

  lemma {:induction false} SilencedForGood(run: seq<State>, i: nat, j: nat, d: nat)
    requires IsRun(run) && i <= j < |run| && Silenced(run[i], d)
    ensures run[j].log == run[i].log && Silenced(run[j], d)
  {
    if i < j {
      SilencedForGood(run, i, j - 1, d);
      StepInto(run, j);
      SilencedFollows(run[j - 1], run[j], d);
    }
  }

  /** Once a unit is beyond repair at a moment when the worker is asleep, no notification is ever
      sent again, whatever the threads do. */
  lemma ViolationSilences(run: seq<State>, i: nat, j: nat, d: nat)
    requires IsRun(run) && i <= j < |run| && run[i].phase.Asleep?
    requires d < |run[i].units| && Doomed(run[i].units[d], run[i].clock, run[i].hmonStart)
    ensures run[j].log == run[i].log
  {
    InvOnRuns(run, i);
    SilencedForGood(run, i, j, d);
  }

  /** A doomed unit that the iteration under way may have passed over. */
  ghost predicate Overlooked(s: State, d: nat) {
    && Inv(s) && d < |s.units| && (s.phase.Evaluating? || s.phase.Notifying? || s.phase.Calling?)
    && Doomed(s.units[d], s.clock, s.hmonStart)
  }

  /** Nothing sent yet, or at most one and no more to come. */
  ghost predicate OneMore(log: seq<Notification>, t: State, d: nat) {
    || (Overlooked(t, d) && t.log == log)
    || (Silenced(t, d) && |t.log| <= |log| + 1)
  }

  lemma OverlookedStep(s: State, step: Step, d: nat)
    requires Overlooked(s, d) && Enabled(s, step)
    ensures OneMore(s.log, Next(s, step), d)
  {
    InvPreserved(s, step);
    match step
    case Pass(to) => DoomedPass(s.units[d], s.clock, to, s.hmonStart);
    case Act(i, action) =>
      if i == d {
        DoomedAct(s.units[d], s.clock, s.hmonStart, action);
      }
    case FinishProbe =>
      if s.phase.next == d && s.units[d].HeartbeatUnit? && !s.phase.hasAnyError {
        DoomedReports(s.units[d], s.phase.probe, s.clock, s.hmonStart);
      }
    case _ =>
  }

  lemma {:induction false} AtMostOneMore(run: seq<State>, i: nat, j: nat, d: nat)
    requires IsRun(run) && i <= j < |run| && (Silenced(run[i], d) || Overlooked(run[i], d))
    ensures OneMore(run[i].log, run[j], d)
  {
    if i < j {
      AtMostOneMore(run, i, j - 1, d);
      StepInto(run, j);
      OneMoreFollows(run[i].log, run[j - 1], run[j], d);
    }
  }

  lemma OneMoreFollows(log: seq<Notification>, s: State, t: State, d: nat)
    requires OneMore(log, s, d) && Follows(s, t)
    ensures OneMore(log, t, d)
  {
    var step :| Takes(s, step, t);
    if Silenced(s, d) && |s.log| <= |log| + 1 {
      SilencedStays(s, step, d);
    } else {
      OverlookedStep(s, step, d);
    }
  }

  /** Whatever the worker is doing when a unit gets beyond repair, at most one more notification is sent. */
  lemma ViolationAllowsOneMore(run: seq<State>, i: nat, j: nat, d: nat)
    requires IsRun(run) && i <= j < |run|
    requires d < |run[i].units| && Doomed(run[i].units[d], run[i].clock, run[i].hmonStart)
    ensures |run[j].log| <= |run[i].log| + 1
  {
    InvOnRuns(run, i);
    AtMostOneMore(run, i, j, d);
  }
}
