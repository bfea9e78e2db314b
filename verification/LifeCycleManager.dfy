/** The life cycle manager of an application: a main thread that constructs the manager, runs applications
    and destroys it, and the signal thread that turns SIGTERM into a stop request. Every step of the two
    threads and of the outside world is one atomic step; any interleaving is a run. */
module LifeCycleManager {
  import opened Common

  // ---- Events ---------------------------------------------------------------------------------------

  /** What the threads do that can be observed; `run` numbers the calls of `run`. */
  datatype Event =
    | Stored(run: nat)
    | InitReturned(run: nat, status: int)
    | ReportedRunning(run: nat)
    | RunEntered(run: nat)
    | RunReturned(run: nat, status: int)
    | Returned(run: nat, status: int)
    | DestroyCalled
    | Destroyed
    | SelfSigterm(sent: bool)
    | OutsideSigterm
    | WaitFailed
    | StopRequested
    | QuickExit
    | ExitFailure

  function Seen(log: seq<Event>): set<Event> {
    set e | e in log
  }

  predicate Signalled(seen: set<Event>) {
    OutsideSigterm in seen || SelfSigterm(true) in seen
  }

  predicate SelfSignalled(seen: set<Event>) {
    SelfSigterm(true) in seen || SelfSigterm(false) in seen
  }

  ghost predicate SomeStored(seen: set<Event>) {
    exists r :: Stored(r) in seen
  }

  /** The work of a call of `run` is over: `Initialize` has failed or `Run` has returned. */
  predicate WorkDone(seen: set<Event>, run: nat, status: int) {
    (status != 0 && InitReturned(run, status) in seen) || RunReturned(run, status) in seen
  }

  ghost predicate SomeWorkDone(seen: set<Event>) {
    exists r, status :: WorkDone(seen, r, status)
  }

  /** What must have happened, and what must not, before an event: the protocol without its program. */
  ghost predicate Justified(e: Event, before: set<Event>) {
    match e
    case Stored(r) => Stored(r) !in before
    case InitReturned(r, _) => Stored(r) in before && forall status :: InitReturned(r, status) !in before
    case ReportedRunning(r) => InitReturned(r, 0) in before && ReportedRunning(r) !in before
    case RunEntered(r) => ReportedRunning(r) in before && RunEntered(r) !in before
    case RunReturned(r, _) => RunEntered(r) in before && forall status :: RunReturned(r, status) !in before
    case Returned(r, status) =>
      WorkDone(before, r, status) && StopRequested in before && SelfSignalled(before)
      && forall st :: Returned(r, st) !in before
    case DestroyCalled => DestroyCalled !in before
    case Destroyed =>
      DestroyCalled in before && StopRequested in before && SelfSignalled(before) && Destroyed !in before
    case SelfSigterm(_) => !SelfSignalled(before) && (SomeWorkDone(before) || DestroyCalled in before)
    case OutsideSigterm => true
    case WaitFailed => WaitFailed !in before && StopRequested !in before
    case StopRequested => StopRequested !in before && SomeStored(before) && Signalled(before)
    case QuickExit => StopRequested !in before && QuickExit !in before && (WaitFailed in before || !SomeStored(before))
    case ExitFailure => before == {}
  }

  ghost predicate AllJustified(log: seq<Event>)
    decreases log
  {
    log != [] ==> AllJustified(log[..|log| - 1]) && Justified(log[|log| - 1], Seen(log[..|log| - 1]))
  }

  // ---- State ------------------------------------------------------------------------------------------

  datatype After = Return(status: int) | Destroy

  /** Where the main thread is: in the three signal calls of the constructor, before it starts the signal
      thread, between calls, inside `run`, or inside `at_exit`. */
  datatype Main =
    | Setup(stage: nat) | Spawning
    | Idle
    | Storing | Initializing | Reporting | Entering | InRun
    | AtExit(after: After) | Joining(after: After)
    | Gone

  datatype Handler = NotStarted | Waiting | Woken(ok: bool) | Requesting | Finished

  datatype State = State(main: Main, run: nat, app: Option<nat>, joinable: bool, handler: Handler,
                         pending: bool, stopRequested: bool, exited: bool, log: seq<Event>)

  const INITIAL := State(Setup(0), 0, None, false, NotStarted, false, false, false, [])

  // ---- Steps --------------------------------------------------------------------------------------------

  datatype Step =
    | SetupCall(ok: bool)
    | Spawn
    | CallRun
    | StoreApp
    | InitReturns(status: int)
    | Report
    | Enter
    | RunReturns(status: int)
    | CallDestructor
    | BeginExit(sent: bool)
    | Join
    | Sigterm
    | SigWaitReturns(ok: bool)
    | LoadApp
    | RequestStop

  predicate Enabled(s: State, step: Step) {
    && !s.exited
    && match step
       case SetupCall(_) => s.main.Setup?
       case Spawn => s.main.Spawning?
       case CallRun => s.main.Idle?
       case StoreApp => s.main.Storing?
       case InitReturns(_) => s.main.Initializing?
       case Report => s.main.Reporting?
       case Enter => s.main.Entering?
       case RunReturns(_) => s.main.InRun?
       case CallDestructor => s.main.Idle?
       case BeginExit(_) => s.main.AtExit?
       case Join => s.main.Joining? && s.handler.Finished?
       case Sigterm => true
       case SigWaitReturns(ok) => s.handler.Waiting? && (ok ==> s.pending)
       case LoadApp => s.handler.Woken?
       case RequestStop => s.handler.Requesting?
  }

  /** The events of a step: one or none. */
  function Emits(s: State, step: Step): seq<Event>
    requires Enabled(s, step)
  {
    match step
    case SetupCall(ok) => if ok then [] else [ExitFailure]
    case StoreApp => [Stored(s.run)]
    case InitReturns(status) => [InitReturned(s.run, status)]
    case Report => [ReportedRunning(s.run)]
    case Enter => [RunEntered(s.run)]
    case RunReturns(status) => [RunReturned(s.run, status)]
    case CallDestructor => [DestroyCalled]
    case BeginExit(sent) => if s.joinable then [SelfSigterm(sent)] else [LeaveEvent(s)]
    case Join => [LeaveEvent(s)]
    case Sigterm => if s.main.Setup? then [] else [OutsideSigterm]
    case SigWaitReturns(ok) => if ok then [] else [WaitFailed]
    case LoadApp => if s.app.Some? && s.handler.ok then [] else [QuickExit]
    case RequestStop => [StopRequested]
    case _ => []
  }

  /** `at_exit` is over: `run` returns or the manager is gone. */
  function LeaveEvent(s: State): Event
    requires Exiting(s.main)
  {
    if s.main.after.Return? then Returned(s.run, s.main.after.status) else Destroyed
  }

  function Left(main: Main): Main
    requires Exiting(main)
  {
    if main.after.Return? then Idle else Gone
  }

  /** Where the main thread is afterwards. */
  function MainNext(s: State, step: Step): Main
    requires Enabled(s, step)
  {
    match step
    case SetupCall(ok) => if !ok then s.main else if s.main.stage < 2 then Setup(s.main.stage + 1) else Spawning
    case Spawn => Idle
    case CallRun => Storing
    case StoreApp => Initializing
    case InitReturns(status) => if status != 0 then AtExit(Return(status)) else Reporting
    case Report => Entering
    case Enter => InRun
    case RunReturns(status) => AtExit(Return(status))
    case CallDestructor => AtExit(Destroy)
    case BeginExit(_) => if s.joinable then Joining(s.main.after) else Left(s.main)
    case Join => Left(s.main)
    case _ => s.main
  }

  /** Before the mask is set, the default action of SIGTERM ends the process. */
  function Next(s: State, step: Step): State
    requires Enabled(s, step)
  {
    var t := s.(main := MainNext(s, step), log := s.log + Emits(s, step));
    match step
    case SetupCall(ok) => t.(exited := !ok)
    case Spawn => t.(joinable := true, handler := Waiting)
    case CallRun => t.(run := s.run + 1)
    case StoreApp => t.(app := Some(s.run))
    case BeginExit(sent) => t.(pending := s.pending || (s.joinable && sent))
    case Join => t.(joinable := false)
    case Sigterm => if s.main.Setup? then t.(exited := true) else t.(pending := true)
    case SigWaitReturns(ok) => t.(handler := Woken(ok), pending := s.pending && !ok)
    case LoadApp => if s.app.Some? && s.handler.ok then t.(handler := Requesting) else t.(exited := true)
    case RequestStop => t.(handler := Finished, stopRequested := true)
    case _ => t
  }

  // ---- The invariant ------------------------------------------------------------------------------------

  /** What has been seen of the calls of `run`, given where the main thread is. */
  ghost predicate RunsInv(main: Main, run: nat, seen: set<Event>) {
    && (forall e :: e in seen && Numbered(e) ==> e.run <= run)
    && (main.Storing? ==> forall e :: e in seen && Numbered(e) ==> e.run < run)
    && (main.Initializing? ==> Stored(run) in seen && forall status :: InitReturned(run, status) !in seen)
    && (main.Initializing? || main.Reporting? ==> ReportedRunning(run) !in seen)
    && (main.Initializing? || main.Reporting? || main.Entering? ==> RunEntered(run) !in seen)
    && (main.Initializing? || main.Reporting? || main.Entering? || main.InRun? ==>
          forall status :: RunReturned(run, status) !in seen)
    && (main.Reporting? ==> InitReturned(run, 0) in seen)
    && (main.Entering? ==> ReportedRunning(run) in seen)
    && (main.InRun? ==> RunEntered(run) in seen)
    && (Exiting(main) && main.after.Return? ==> WorkDone(seen, run, main.after.status))
    && (Working(main) || (Exiting(main) && main.after.Return?) ==> forall status :: Returned(run, status) !in seen)
  }

  predicate Numbered(e: Event) {
    e.Stored? || e.InitReturned? || e.ReportedRunning? || e.RunEntered? || e.RunReturned? || e.Returned?
  }

  predicate Exiting(main: Main) {
    main.AtExit? || main.Joining?
  }

  /** Inside `run`, before its work is done. */
  predicate Working(main: Main) {
    main.Storing? || main.Initializing? || main.Reporting? || main.Entering? || main.InRun?
  }

  predicate Young(main: Main) {
    main.Setup? || main.Spawning?
  }

  /** The signal thread, its signal and the joining of it. */
  ghost predicate HandlerInv(s: State, seen: set<Event>) {
    && (Young(s.main) ==> s.handler.NotStarted? && !s.joinable && s.run == 0 && s.app.None?)
    && (!Young(s.main) ==> !s.handler.NotStarted?)
    && (!Young(s.main) && !s.joinable ==> s.handler.Finished?)
    && (SelfSignalled(seen) <==> s.main.Joining? || (!Young(s.main) && !s.joinable))
    && (s.main.Joining? ==> s.joinable)
    && (s.handler.Finished? <==> StopRequested in seen)
    && (s.stopRequested <==> StopRequested in seen)
    && (s.pending || s.handler == Woken(true) || s.handler.Requesting? || s.handler.Finished? ==> Signalled(seen))
    && !(SelfSigterm(true) in seen && SelfSigterm(false) in seen)
    && (s.handler.Requesting? || s.handler.Finished? ==> s.app.Some?)
    && (forall e :: e in seen && (e.Returned? || e.Destroyed?) ==> s.handler.Finished?)
    && (s.app.Some? ==> Stored(s.app.value) in seen)
    && (s.app.None? ==> forall r :: Stored(r) !in seen)
    && (WaitFailed in seen <==> s.handler == Woken(false))
  }

  predicate DestroyInv(s: State, seen: set<Event>) {
    && (s.main.Setup? && !s.exited ==> seen == {})
    && (DestroyCalled in seen <==> s.main.Gone? || (Exiting(s.main) && s.main.after.Destroy?))
    && (Destroyed in seen <==> s.main.Gone?)
    && (s.run > 1 || (s.run == 1 && s.main.Idle?) ==> !s.joinable && !Young(s.main))
    && ((s.run == 0 && s.main.Idle?) || (s.run == 1 && Working(s.main)) ==> s.joinable)
    && (Working(s.main) || (Exiting(s.main) && s.main.after.Return?) ==> s.run >= 1)
    && (QuickExit in seen ==> s.exited)
  }

  ghost predicate Inv(s: State) {
    && RunsInv(s.main, s.run, Seen(s.log))
    && HandlerInv(s, Seen(s.log))
    && DestroyInv(s, Seen(s.log))
    && AllJustified(s.log)
  }

  lemma EventIsJustified(s: State, step: Step, e: Event)
    requires Inv(s) && Enabled(s, step) && e in Emits(s, step)
    ensures Justified(e, Seen(s.log))
  {
    if step.BeginExit? && s.joinable && s.main.after.Return? {
      assert WorkDone(Seen(s.log), s.run, s.main.after.status);
    } else if step.RequestStop? {
      assert Stored(s.app.value) in Seen(s.log);
    }
  }

  lemma JustifiedSnoc(log: seq<Event>, e: Event)
    requires AllJustified(log) && Justified(e, Seen(log))
    ensures AllJustified(log + [e])
  {
    assert (log + [e])[..|log|] == log;
  }

  /** The steps inside `run` up to its work being done. */
  predicate Works(step: Step) {
    step.StoreApp? || step.InitReturns? || step.Report? || step.Enter? || step.RunReturns?
  }

  lemma WorkPreserved(s: State, step: Step, seen: set<Event>)
    requires RunsInv(s.main, s.run, seen) && Enabled(s, step) && Works(step)
    ensures RunsInv(MainNext(s, step), s.run, seen + {Emits(s, step)[0]})
  {
  }

  /** The other steps add nothing about the work of a run. */
  lemma RestPreserved(s: State, step: Step, seen: set<Event>)
    requires RunsInv(s.main, s.run, seen) && Enabled(s, step) && !Works(step)
    ensures RunsInv(MainNext(s, step), Next(s, step).run, seen + Seen(Emits(s, step)))
  {
    assert forall e :: e in Emits(s, step) && Numbered(e) ==> e.Returned? && e.run == s.run;
  }

  /** The steps of the signal thread and of the outside world. */
  predicate Signals(step: Step) {
    step.Sigterm? || step.SigWaitReturns? || step.LoadApp? || step.RequestStop?
  }

  lemma HandlerBySignals(s: State, step: Step, seen: set<Event>)
    requires HandlerInv(s, seen) && Enabled(s, step) && Signals(step)
    ensures HandlerInv(Next(s, step), seen + Seen(Emits(s, step)))
  {
  }

  lemma HandlerByWork(s: State, step: Step, seen: set<Event>)
    requires HandlerInv(s, seen) && Enabled(s, step) && (Works(step) || step.CallRun? || step.CallDestructor?)
    ensures HandlerInv(Next(s, step), seen + Seen(Emits(s, step)))
  {
  }

  lemma HandlerByExit(s: State, step: Step, seen: set<Event>)
    requires HandlerInv(s, seen) && Enabled(s, step)
             && (step.BeginExit? || step.Join? || step.SetupCall? || step.Spawn?)
    ensures HandlerInv(Next(s, step), seen + Seen(Emits(s, step)))
  {
  }

  lemma HandlerPreserved(s: State, step: Step, seen: set<Event>)
    requires HandlerInv(s, seen) && Enabled(s, step)
    ensures HandlerInv(Next(s, step), seen + Seen(Emits(s, step)))
  {
    if Signals(step) {
      HandlerBySignals(s, step, seen);
    } else if Works(step) || step.CallRun? || step.CallDestructor? {
      HandlerByWork(s, step, seen);
    } else {
      HandlerByExit(s, step, seen);
    }
  }

  lemma DestroyBySignals(s: State, step: Step, seen: set<Event>)
    requires DestroyInv(s, seen) && HandlerInv(s, seen) && Enabled(s, step) && Signals(step)
    ensures DestroyInv(Next(s, step), seen + Seen(Emits(s, step)))
  {
  }

  lemma DestroyByMain(s: State, step: Step, seen: set<Event>)
    requires DestroyInv(s, seen) && HandlerInv(s, seen) && Enabled(s, step) && !Signals(step)
    ensures DestroyInv(Next(s, step), seen + Seen(Emits(s, step)))
  {
  }

  lemma DestroyPreserved(s: State, step: Step, seen: set<Event>)
    requires DestroyInv(s, seen) && HandlerInv(s, seen) && Enabled(s, step)
    ensures DestroyInv(Next(s, step), seen + Seen(Emits(s, step)))
  {
    if Signals(step) {
      DestroyBySignals(s, step, seen);
    } else {
      DestroyByMain(s, step, seen);
    }
  }

  lemma RunsPreserved(s: State, step: Step, seen: set<Event>)
    requires RunsInv(s.main, s.run, seen) && Enabled(s, step)
    ensures RunsInv(Next(s, step).main, Next(s, step).run, seen + Seen(Emits(s, step)))
  {
    if Works(step) {
      WorkPreserved(s, step, seen);
      assert Seen(Emits(s, step)) == {Emits(s, step)[0]};
    } else {
      RestPreserved(s, step, seen);
    }
  }

  lemma LogStaysJustified(s: State, step: Step)
    requires Inv(s) && Enabled(s, step)
    ensures AllJustified(s.log + Emits(s, step))
  {
    if Emits(s, step) == [] {
      assert s.log + [] == s.log;
    } else {
      EventIsJustified(s, step, Emits(s, step)[0]);
      JustifiedSnoc(s.log, Emits(s, step)[0]);
      assert Emits(s, step) == [Emits(s, step)[0]];
    }
  }

  lemma SeenAppends(s: State, step: Step)
    requires Enabled(s, step)
    ensures Next(s, step).log == s.log + Emits(s, step)
    ensures Seen(Next(s, step).log) == Seen(s.log) + Seen(Emits(s, step))
  {
  }

  lemma PartsPreserved(s: State, step: Step, seen: set<Event>)
    requires RunsInv(s.main, s.run, seen) && HandlerInv(s, seen) && DestroyInv(s, seen) && Enabled(s, step)
    ensures var t, now := Next(s, step), seen + Seen(Emits(s, step));
            RunsInv(t.main, t.run, now) && HandlerInv(t, now) && DestroyInv(t, now)
  {
    RunsPreserved(s, step, seen);
    HandlerPreserved(s, step, seen);
    DestroyPreserved(s, step, seen);
  }

  lemma InvPreserved(s: State, step: Step)
    requires Inv(s) && Enabled(s, step)
    ensures Inv(Next(s, step))
  {
    SeenAppends(s, step);
    LogStaysJustified(s, step);
    PartsPreserved(s, step, Seen(s.log));
  }

  // ---- Runs -----------------------------------------------------------------------------------------------

  /** The steps lead from `s` to `t`. */
  predicate Leads(s: State, steps: seq<Step>, t: State)
    decreases steps
  {
    if steps == [] then t == s else Enabled(s, steps[0]) && Leads(Next(s, steps[0]), steps[1..], t)
  }

  lemma {:induction false} InvOnRuns(s: State, steps: seq<Step>, t: State)
    requires Inv(s) && Leads(s, steps, t)
    ensures Inv(t)
    decreases steps
  {
    if steps != [] {
      InvPreserved(s, steps[0]);
      InvOnRuns(Next(s, steps[0]), steps[1..], t);
    }
  }

  /** Every run follows the protocol: each event has the events before it that it needs, and none that rule it
      out. Running is reported and `Run` entered once per call and only after `Initialize` returned 0, stop is
      requested once and only after an application is stored and a signal was sent, SIGTERM is sent to the
      process itself at most once, and `run` and the destructor return only after the handler has finished. */
  lemma ProtocolIsFollowed(steps: seq<Step>, s: State, i: nat)
    requires Leads(INITIAL, steps, s) && i < |s.log|
    ensures Justified(s.log[i], Seen(s.log[..i]))
    ensures s.log[i].Returned? || s.log[i].Destroyed? ==> s.handler.Finished?
  {
    InvOnRuns(INITIAL, steps, s);
    JustifiedAt(s.log, i);
    assert s.log[i] in Seen(s.log);
  }

  lemma {:induction false} JustifiedAt(log: seq<Event>, i: nat)
    requires AllJustified(log) && i < |log|
    ensures Justified(log[i], Seen(log[..i]))
    decreases log
  {
    if i < |log| - 1 {
      JustifiedAt(log[..|log| - 1], i);
      assert log[..|log| - 1][..i] == log[..i];
    }
  }

  /** What happens at most once in the life of a manager, or once per call of `run`. */
  lemma AtMostOnce(steps: seq<Step>, s: State, i: nat, j: nat)
    requires Leads(INITIAL, steps, s) && i < j < |s.log|
    ensures !(s.log[i].SelfSigterm? && s.log[j].SelfSigterm?)
    ensures s.log[i] == s.log[j] ==> s.log[i].OutsideSigterm?
  {
    ProtocolIsFollowed(steps, s, j);
    assert s.log[..j][i] == s.log[i] && s.log[i] in Seen(s.log[..j]);
  }

  // ---- The destructor ----------------------------------------------------------------------------------------

  /** The main thread is inside the destructor. */
  predicate Destructing(s: State) {
    Exiting(s.main) && s.main.after.Destroy?
  }

  /** No application was ever stored, or the wait for the signal has failed. */
  predicate Hopeless(s: State) {
    s.app.None? || s.handler == Woken(false)
  }

  lemma HopelessStep(s: State, step: Step)
    requires Inv(s) && Destructing(s) && Hopeless(s) && Enabled(s, step)
    ensures Destructing(Next(s, step)) && Hopeless(Next(s, step))
  {
  }

  lemma {:induction false} HopelessStays(s: State, steps: seq<Step>, t: State)
    requires Inv(s) && Destructing(s) && Hopeless(s) && Leads(s, steps, t)
    ensures Destroyed !in t.log
    decreases steps
  {
    if steps == [] {
      assert Destroyed !in Seen(s.log);
    } else {
      HopelessStep(s, steps[0]);
      InvPreserved(s, steps[0]);
      HopelessStays(Next(s, steps[0]), steps[1..], t);
    }
  }

  ghost predicate CanBeDestroyed(s: State) {
    exists steps, t :: Leads(s, steps, t) && Destroyed in t.log
  }

  lemma StepFirst(s: State, step: Step)
    requires Enabled(s, step) && CanBeDestroyed(Next(s, step))
    ensures CanBeDestroyed(s)
  {
    var steps, t :| Leads(Next(s, step), steps, t) && Destroyed in t.log;
    assert ([step] + steps)[1..] == steps && Leads(s, [step] + steps, t);
  }

  lemma DestroyedByJoin(s: State)
    requires Enabled(s, Join) && s.main.after.Destroy?
    ensures CanBeDestroyed(s)
  {
    var t := Next(s, Join);
    assert Leads(t, [], t) && t.log[|t.log| - 1] == Destroyed;
    StepFirst(s, Join);
  }

  /** In the join, the handler can still be brought to its end. */
  lemma JoinCanFinish(s: State)
    requires Inv(s) && !s.exited && s.main == Joining(Destroy) && !Hopeless(s)
    ensures CanBeDestroyed(s)
    decreases match s.handler
              case Waiting => if s.pending then 3 else 4
              case Woken(_) => 2
              case Requesting => 1
              case _ => 0
  {
    match s.handler
    case Finished => DestroyedByJoin(s);
    case Requesting =>
      InvPreserved(s, RequestStop);
      JoinCanFinish(Next(s, RequestStop));
      StepFirst(s, RequestStop);
    case Woken(_) =>
      InvPreserved(s, LoadApp);
      JoinCanFinish(Next(s, LoadApp));
      StepFirst(s, LoadApp);
    case Waiting =>
      var step := if s.pending then SigWaitReturns(true) else Sigterm;
      InvPreserved(s, step);
      JoinCanFinish(Next(s, step));
      StepFirst(s, step);
    case NotStarted =>
  }

  lemma ExitCanFinish(s: State)
    requires Inv(s) && !s.exited && s.main == AtExit(Destroy) && !Hopeless(s)
    ensures CanBeDestroyed(s)
  {
    var t := Next(s, BeginExit(true));
    if s.joinable {
      InvPreserved(s, BeginExit(true));
      JoinCanFinish(t);
    } else {
      assert Leads(t, [], t) && t.log[|t.log| - 1] == Destroyed;
    }
    StepFirst(s, BeginExit(true));
  }

  /** A destructor that has begun can finish if and only if an application was stored and the wait for the signal has
      not failed. Otherwise the handler ends the process, or the join waits for ever. */
  lemma DestructorFinishesIff(steps: seq<Step>, s: State)
    requires Leads(INITIAL, steps, s) && !s.exited && Destructing(s)
    ensures CanBeDestroyed(s) <==> s.app.Some? && s.handler != Woken(false)
  {
    InvOnRuns(INITIAL, steps, s);
    if Hopeless(s) {
      forall more, t | Leads(s, more, t)
        ensures Destroyed !in t.log
      {
        HopelessStays(s, more, t);
      }
    } else if s.main.AtExit? {
      ExitCanFinish(s);
    } else {
      JoinCanFinish(s);
    }
  }

  /** When the signal to the process itself cannot be sent and none comes from outside, neither `run` nor the
      destructor ever returns. */
  lemma FailedSelfSigtermBlocks(steps: seq<Step>, s: State)
    requires Leads(INITIAL, steps, s) && SelfSigterm(false) in s.log && OutsideSigterm !in s.log
    ensures forall e :: e in s.log ==> !e.Returned? && !e.Destroyed?
    ensures !s.stopRequested && !Enabled(s, Join)
  {
    InvOnRuns(INITIAL, steps, s);
    assert SelfSigterm(false) in Seen(s.log) && forall e :: e in s.log <==> e in Seen(s.log);
  }

  /** During the first call of `run` a stop request comes from outside; every later call finds the stop already
      requested, because leaving the first one requested it. */
  lemma StopRequestsSeenByApplications(steps: seq<Step>, s: State)
    requires Leads(INITIAL, steps, s) && Working(s.main)
    ensures s.run == 1 && s.stopRequested ==> OutsideSigterm in s.log
    ensures s.run > 1 ==> s.stopRequested
  {
    InvOnRuns(INITIAL, steps, s);
    assert forall e :: e in s.log <==> e in Seen(s.log);
  }
}
