/** The C++ handle layer over the Rust deadlines: a `Deadline` object owns the foreign handle, a
    `DeadlineHandle` object guards a started deadline and stops it once. The Rust side trusts this
    layer: a deadline is started only while it is not running, and stopped only while it is. Behind
    every tag is a slot of `DeadlineProtocol`, and each call into Rust takes its steps. */
module DeadlineHandles {
  import opened Common
  import DeadlineState
  import D = DeadlineProtocol

  type Tag = string
  type Id = nat

  /** The slot of a tag, with the successful starts and the stops that reached it. */
  datatype Slot = Slot(protocol: D.Slot, starts: nat, stops: nat)

  datatype DeadlineObject = DeadlineObject(handle: Option<Tag>, hasHandle: bool)
  datatype GuardObject = GuardObject(wasStopped: bool, deadline: Option<Id>)

  /** All live objects of both languages. `fault` records a call that breaks the Rust contract. */
  datatype World = World(clock: nat, inUse: set<Tag>, slots: map<Tag, Slot>, deadlines: map<Id, DeadlineObject>,
                         guards: map<Id, GuardObject>, fault: bool)

  // ---- Calls into Rust ----------------------------------------------------------------------------

  predicate CanStart(s: D.State, until: nat) {
    s.slot.producer.Idle? && s.clock <= until && s.clock + s.slot.range.max < 0x1_0000_0000
  }

  /** `deadline_start`: reads the clock, and updates the word at time `until`. */
  function StartCall(s: D.State, until: nat): D.State
    requires CanStart(s, until)
  {
    D.Next(D.Next(D.Next(s, D.ReadStart), D.Pass(until)), D.UpdateStart)
  }

  /** A session is open and the word is marked running, as `stop_internal` asserts; the subtraction of the
      range from its timestamp does not wrap. */
  predicate CanStop(s: D.State, until: nat) {
    && s.slot.producer.Started? && s.clock <= until && s.clock < 0x1_0000_0000
    && DeadlineState.IsRunning(s.slot.word) && s.slot.range.max <= DeadlineState.TimestampMs(s.slot.word)
  }

  /** `deadline_stop`: reads the clock, and updates the word at time `until`. */
  function StopCall(s: D.State, until: nat): D.State
    requires CanStop(s, until)
  {
    D.Next(D.Next(D.Next(s, D.ReadStop), D.Pass(until)), D.UpdateStop)
  }

  function At(w: World, tag: Tag): D.State
    requires tag in w.slots
  {
    D.State(w.slots[tag].protocol, w.clock)
  }

  /** The world after `deadline_start`, and whether it succeeded. */
  function RustStart(w: World, tag: Tag, until: nat): (World, bool)
    requires tag in w.slots
  {
    if !CanStart(At(w, tag), until) then (w.(fault := true), false)
    else
      var after, slot := StartCall(At(w, tag), until), w.slots[tag];
      var ok := after.slot.producer.Started?;
      var starts := if ok then slot.starts + 1 else slot.starts;
      (w.(clock := until, slots := w.slots[tag := Slot(after.slot, starts, slot.stops)]), ok)
  }

  function RustStop(w: World, tag: Tag, until: nat): World
    requires tag in w.slots
  {
    if !CanStop(At(w, tag), until) then w.(fault := true)
    else
      var after, slot := StopCall(At(w, tag), until), w.slots[tag];
      w.(clock := until, slots := w.slots[tag := Slot(after.slot, slot.starts, slot.stops + 1)])
  }

  /** A world without the C++ objects. */
  function RustPart(w: World): World {
    w.(deadlines := map[], guards := map[])
  }

  /** Calls into Rust do not depend on the C++ objects, and leave them alone. */
  lemma CallsIgnoreObjects(w: World, tag: Tag, until: nat)
    requires tag in w.slots
    ensures RustStop(w, tag, until) == RustStop(RustPart(w), tag, until).(deadlines := w.deadlines, guards := w.guards)
    ensures RustStart(w, tag, until).0 ==
            RustStart(RustPart(w), tag, until).0.(deadlines := w.deadlines, guards := w.guards)
    ensures RustStart(w, tag, until).1 == RustStart(RustPart(w), tag, until).1
  {
    assert At(RustPart(w), tag) == At(w, tag);
  }

  // ---- Steps of a client -----------------------------------------------------------------------------

  /** `until` is the time at which a call into Rust updates the word. */
  datatype Step =
    | Wait(until: nat)
    | GetDeadline(tag: Tag, fresh_: Id)
    | Start(deadline: Id, until: nat, fresh_: Id)
    | Stop(guard: Id, until: nat)
    | MoveGuard(guard: Id, fresh_: Id)
    | DestroyGuard(guard: Id, until: nat)
    | MoveDeadline(deadline: Id, fresh_: Id)
    | DestroyDeadline(deadline: Id)

  /** The foreign handle behind a guard. */
  function TagOf(w: World, guard: Id): Option<Tag> {
    if guard in w.guards && w.guards[guard].deadline.Some? && w.guards[guard].deadline.value in w.deadlines
    then w.deadlines[w.guards[guard].deadline.value].handle else None
  }

  /** The step passes the preconditions the C++ code checks (a failed one terminates the process),
      names live and fresh objects, and its clock readings fit in 32 bits. */
  predicate Enabled(w: World, step: Step) {
    match step
    case Wait(until) => w.clock <= until
    case GetDeadline(_, id) => id !in w.deadlines
    case Start(d, until, id) =>
      && d in w.deadlines && id !in w.guards && w.clock <= until
      && (w.deadlines[d].hasHandle || w.deadlines[d].handle.Some?)
      && (w.deadlines[d].handle.Some? ==>
            && w.deadlines[d].handle.value in w.slots
            && w.clock + w.slots[w.deadlines[d].handle.value].protocol.range.max < 0x1_0000_0000)
    case Stop(g, until) =>
      GuardUsable(w, g) && w.guards[g].deadline.Some? && w.clock <= until && w.clock < 0x1_0000_0000
    case MoveGuard(g, id) => g in w.guards && id !in w.guards
    case DestroyGuard(g, until) => GuardUsable(w, g) && w.clock <= until && w.clock < 0x1_0000_0000
    case MoveDeadline(d, id) => d in w.deadlines && id !in w.deadlines
    case DestroyDeadline(d) => d in w.deadlines && !w.deadlines[d].hasHandle
  }

  /** A guard that would call into Rust finds its deadline alive and its foreign handle present. */
  predicate GuardUsable(w: World, g: Id) {
    && g in w.guards
    && (w.guards[g].deadline.Some? ==>
          && w.guards[g].deadline.value in w.deadlines
          && (!w.guards[g].wasStopped ==> TagOf(w, g).Some? && TagOf(w, g).value in w.slots))
  }

  /** `DeadlineHandle::Stop`. */
  function Stopped(w: World, g: Id, until: nat): World
    requires GuardUsable(w, g) && w.guards[g].deadline.Some?
  {
    if w.guards[g].wasStopped then w
    else RustStop(w.(guards := w.guards[g := w.guards[g].(wasStopped := true)]), TagOf(w, g).value, until)
  }

  /** The end of a successful start. */
  function Guarded(w: World, d: Id, id: Id): World
    requires d in w.deadlines
  {
    w.(deadlines := w.deadlines[d := w.deadlines[d].(hasHandle := true)],
       guards := w.guards[id := GuardObject(false, Some(d))])
  }

  /** The end of a guard's destructor. */
  function Released(w: World, g: Id, d: Id): World
    requires d in w.deadlines
  {
    w.(guards := w.guards - {g}, deadlines := w.deadlines[d := w.deadlines[d].(hasHandle := false)])
  }

  /** The moved-from guard forgets its deadline and will not stop it. */
  function MovedGuard(guards: map<Id, GuardObject>, g: Id, id: Id): map<Id, GuardObject>
    requires g in guards
  {
    guards[id := guards[g]][g := GuardObject(true, None)]
  }

  /** The moved-from deadline loses its foreign handle, but keeps its flag. */
  function MovedDeadline(deadlines: map<Id, DeadlineObject>, d: Id, id: Id): map<Id, DeadlineObject>
    requires d in deadlines
  {
    deadlines[id := deadlines[d]][d := deadlines[d].(handle := None)]
  }

  function Next(w: World, step: Step): World
    requires Enabled(w, step)
  {
    match step
    case Wait(until) => w.(clock := until)
    case GetDeadline(tag, id) =>
      if tag !in w.slots || tag in w.inUse then w  // DeadlineNotFound, DeadlineInUse
      else w.(inUse := w.inUse + {tag}, deadlines := w.deadlines[id := DeadlineObject(Some(tag), false)])
    case Start(d, until, id) =>
      if w.deadlines[d].hasHandle then w  // WrongState
      else
        var (after, ok) := RustStart(w, w.deadlines[d].handle.value, until);
        if ok then Guarded(after, d, id) else after
    case Stop(g, until) => Stopped(w, g, until)
    case MoveGuard(g, id) => w.(guards := MovedGuard(w.guards, g, id))
    case DestroyGuard(g, until) =>
      if w.guards[g].deadline.None? then w.(guards := w.guards - {g})
      else Released(Stopped(w, g, until), g, w.guards[g].deadline.value)
    case MoveDeadline(d, id) => w.(deadlines := MovedDeadline(w.deadlines, d, id))
    case DestroyDeadline(d) =>
      var handle := w.deadlines[d].handle;
      w.(deadlines := w.deadlines - {d}, inUse := if handle.Some? then w.inUse - {handle.value} else w.inUse)
  }

  // ---- The invariant -------------------------------------------------------------------------------------

  /** A tag is in use exactly while one live deadline object owns its foreign handle. */
  ghost predicate OwnersInv(w: World) {
    && w.inUse <= w.slots.Keys
    && (forall d :: d in w.deadlines && w.deadlines[d].handle.Some? ==> w.deadlines[d].handle.value in w.inUse)
    && (forall t :: t in w.inUse ==> exists d :: Owns(w, d, t))
    && (forall d, e, t :: Owns(w, d, t) && Owns(w, e, t) ==> d == e)
  }

  ghost predicate Owns(w: World, d: Id, t: Tag) {
    d in w.deadlines && w.deadlines[d].handle == Some(t)
  }

  ghost predicate Guards(w: World, g: Id, d: Id) {
    g in w.guards && w.guards[g].deadline == Some(d)
  }

  /** A deadline object knows of a handle exactly while one guard refers to it. */
  ghost predicate GuardsInv(w: World) {
    && (forall g, d :: Guards(w, g, d) ==> d in w.deadlines && w.deadlines[d].hasHandle && w.deadlines[d].handle.Some?)
    && (forall d :: d in w.deadlines && w.deadlines[d].hasHandle ==> exists g :: Guards(w, g, d))
    && (forall g, h, d :: Guards(w, g, d) && Guards(w, h, d) ==> g == h)
  }

  /** An active guard of a tag: one that has not stopped its deadline yet. */
  ghost predicate Active(w: World, g: Id, t: Tag) {
    g in w.guards && !w.guards[g].wasStopped && TagOf(w, g) == Some(t)
  }

  predicate Open(w: World, t: Tag) {
    t in w.slots && w.slots[t].protocol.producer.Started?
  }

  /** A session of a tag is open exactly while an active guard exists. */
  ghost predicate SessionsInv(w: World) {
    forall t :: t in w.slots ==> (Open(w, t) <==> exists g :: Active(w, g, t))
  }

  /** What the objects of both languages know of each other. */
  ghost predicate ObjectsInv(w: World) {
    OwnersInv(w) && GuardsInv(w) && SessionsInv(w)
  }

  /** No call into Rust is under way, every start but the current one has had its stop, and each stop has
      completed one session. */
  predicate SlotInv(slot: Slot) {
    && (slot.protocol.producer.Started? || slot.protocol.producer.Idle?)
    && slot.starts == slot.stops + (if slot.protocol.producer.Started? then 1 else 0)
    && slot.stops == |slot.protocol.done|
  }

  ghost predicate SlotsInv(w: World) {
    forall t :: t in w.slots ==> SlotInv(w.slots[t]) && D.Inv(At(w, t))
  }

  ghost predicate Inv(w: World) {
    ObjectsInv(w) && SlotsInv(w) && !w.fault
  }

  // ---- Slots keep their invariant ------------------------------------------------------------------------

  lemma StartCallKeeps(s: D.State, until: nat)
    requires D.Inv(s) && CanStart(s, until)
    ensures var t := StartCall(s, until);
            && D.Inv(t) && t.clock == until && t.slot.done == s.slot.done
            && (t.slot.producer.Started? || t.slot.producer.Idle?)
  {
    var s1 := D.Next(s, D.ReadStart);
    var s2 := D.Next(s1, D.Pass(until));
    D.InvPreserved(s, D.ReadStart);
    D.InvPreserved(s1, D.Pass(until));
    D.InvPreserved(s2, D.UpdateStart);
  }

  lemma StopCallKeeps(s: D.State, until: nat)
    requires D.Inv(s) && CanStop(s, until)
    ensures var t := StopCall(s, until);
            && D.Inv(t) && t.clock == until && t.slot.producer.Idle? && |t.slot.done| == |s.slot.done| + 1
  {
    var s1 := D.Next(s, D.ReadStop);
    var s2 := D.Next(s1, D.Pass(until));
    D.InvPreserved(s, D.ReadStop);
    D.InvPreserved(s1, D.Pass(until));
    D.InvPreserved(s2, D.UpdateStop);
  }

  /** An open session has a word marked running, and its timestamp is not below the range. */
  lemma OpenSessionCanStop(s: D.State, until: nat)
    requires D.Inv(s) && s.slot.producer.Started? && s.clock <= until && s.clock < 0x1_0000_0000
    ensures CanStop(s, until)
  {
    D.MarksReadBack(s);
  }

  /** Time passes for every slot, and one of them may take its steps. */
  lemma SlotsMove(w: World, v: World, tag: Tag)
    requires SlotsInv(w) && w.clock <= v.clock && v.slots.Keys == w.slots.Keys
    requires forall t :: t in w.slots && t != tag ==> v.slots[t] == w.slots[t]
    requires tag in w.slots ==> SlotInv(v.slots[tag]) && D.Inv(At(v, tag))
    ensures SlotsInv(v)
  {
    forall t | t in v.slots && t != tag
      ensures D.Inv(At(v, t))
    {
      D.InvPreserved(At(w, t), D.Pass(v.clock));
    }
  }

  /** Only the slot of one tag has changed between two worlds, and time has passed. */
  predicate OnlySlot(w: World, v: World, tag: Tag) {
    && tag in w.slots && v.slots.Keys == w.slots.Keys && w.clock <= v.clock
    && forall t :: t in w.slots && t != tag ==> v.slots[t] == w.slots[t]
  }

  predicate SameObjects(w: World, v: World) {
    v.inUse == w.inUse && v.deadlines == w.deadlines && v.guards == w.guards
  }

  lemma RustStartKeeps(w: World, tag: Tag, until: nat)
    requires SlotsInv(w) && tag in w.slots && CanStart(At(w, tag), until)
    ensures var (v, ok) := RustStart(w, tag, until);
            && SlotsInv(v) && v.fault == w.fault && OnlySlot(w, v, tag) && SameObjects(w, v) && (Open(v, tag) <==> ok)
  {
    StartCallKeeps(At(w, tag), until);
    SlotsMove(w, RustStart(w, tag, until).0, tag);
  }

  lemma RustStopKeeps(w: World, tag: Tag, until: nat)
    requires SlotsInv(w) && tag in w.slots && CanStop(At(w, tag), until)
    ensures var v := RustStop(w, tag, until);
            && SlotsInv(v) && v.fault == w.fault && OnlySlot(w, v, tag) && SameObjects(w, v) && !Open(v, tag)
  {
    StopCallKeeps(At(w, tag), until);
    SlotsMove(w, RustStop(w, tag, until), tag);
  }

  // ---- Objects keep their invariant ---------------------------------------------------------------------------

  /** Two active guards of one tag are the same guard. */
  lemma OneActiveGuard(w: World, g: Id, h: Id, t: Tag)
    requires ObjectsInv(w) && Active(w, g, t) && Active(w, h, t)
    ensures g == h
  {
    var d, e := w.guards[g].deadline.value, w.guards[h].deadline.value;
    assert Guards(w, g, d) && Guards(w, h, e) && Owns(w, d, t) && Owns(w, e, t);
  }

  /** Every live guard finds its deadline and its foreign handle: the preconditions checked by `Stop`
      and the destructor always hold. */
  lemma GuardsAreUsable(w: World, g: Id)
    requires ObjectsInv(w) && g in w.guards
    ensures GuardUsable(w, g)
  {
    if w.guards[g].deadline.Some? {
      assert Guards(w, g, w.guards[g].deadline.value);
    }
  }

  lemma GetKeeps(w: World, tag: Tag, id: Id)
    requires ObjectsInv(w) && Enabled(w, GetDeadline(tag, id))
    ensures ObjectsInv(Next(w, GetDeadline(tag, id)))
  {
    var v := Next(w, GetDeadline(tag, id));
    if v != w {
      assert forall d, t :: Owns(w, d, t) ==> Owns(v, d, t);
      assert Owns(v, id, tag);
      assert forall d, t :: Owns(v, d, t) ==> Owns(w, d, t) || (d == id && t == tag);
      SameGuards(w, v);
    }
  }

  /** A step that leaves guards, slots and the guarded deadlines alone keeps what is said of them. */
  lemma SameGuards(w: World, v: World)
    requires GuardsInv(w) && SessionsInv(w) && v.guards == w.guards && v.slots == w.slots
    requires forall d :: d in w.deadlines && w.deadlines[d].hasHandle ==>
               d in v.deadlines && v.deadlines[d] == w.deadlines[d]
    requires forall d :: d in v.deadlines && v.deadlines[d].hasHandle ==>
               d in w.deadlines && w.deadlines[d] == v.deadlines[d]
    ensures GuardsInv(v) && SessionsInv(v)
  {
    assert forall g, d :: Guards(w, g, d) <==> Guards(v, g, d);
    forall g | g in w.guards
      ensures TagOf(v, g) == TagOf(w, g)
    {
      if w.guards[g].deadline.Some? {
        assert Guards(w, g, w.guards[g].deadline.value);
      }
    }
    assert forall g, t :: Active(w, g, t) <==> Active(v, g, t);
    assert forall t :: Open(w, t) <==> Open(v, t);
  }

  /** A deadline without a guard has no session open on its tag. */
  lemma UnguardedIsClosed(w: World, d: Id, tag: Tag)
    requires ObjectsInv(w) && Owns(w, d, tag) && !w.deadlines[d].hasHandle
    ensures tag in w.slots && !Open(w, tag) && forall g :: !Guards(w, g, d)
  {
    if Open(w, tag) {
      var g :| Active(w, g, tag);
      var e := w.guards[g].deadline.value;
      assert Guards(w, g, e) && Owns(w, e, tag);
      assert false;
    }
  }

  /** A call into Rust that opens and closes no session. */
  lemma RefusedKeeps(w: World, v: World, tag: Tag)
    requires ObjectsInv(w) && SameObjects(w, v) && OnlySlot(w, v, tag) && !Open(w, tag) && !Open(v, tag)
    ensures ObjectsInv(v)
  {
    assert forall e, t :: Owns(w, e, t) <==> Owns(v, e, t);
    assert forall g, e :: Guards(w, g, e) <==> Guards(v, g, e);
    assert forall g, t :: Active(w, g, t) <==> Active(v, g, t);
    assert forall t :: Open(w, t) <==> Open(v, t);
  }

  lemma GuardedKeeps(w: World, after: World, d: Id, id: Id, tag: Tag)
    requires ObjectsInv(w) && Owns(w, d, tag) && id !in w.guards && (forall g :: !Guards(w, g, d))
    requires SameObjects(w, after) && OnlySlot(w, after, tag) && Open(after, tag)
    ensures ObjectsInv(Guarded(after, d, id))
  {
    assert forall e, t :: Owns(w, e, t) <==> Owns(Guarded(after, d, id), e, t);
    assert OwnersInv(Guarded(after, d, id));
    GuardedGuards(w, Guarded(after, d, id), d, id);
    GuardedSessions(w, Guarded(after, d, id), d, id, tag);
  }

  lemma GuardedGuards(w: World, v: World, d: Id, id: Id)
    requires GuardsInv(w) && d in w.deadlines && w.deadlines[d].handle.Some? && id !in w.guards
             && (forall g :: !Guards(w, g, d))
    requires v.deadlines == w.deadlines[d := w.deadlines[d].(hasHandle := true)]
             && v.guards == w.guards[id := GuardObject(false, Some(d))]
    ensures GuardsInv(v)
  {
    assert forall g, e :: Guards(v, g, e) <==> Guards(w, g, e) || (g == id && e == d);
    assert Guards(v, id, d);
  }

  lemma GuardedSessions(w: World, v: World, d: Id, id: Id, tag: Tag)
    requires SessionsInv(w) && Owns(w, d, tag) && id !in w.guards && OnlySlot(w, v, tag) && Open(v, tag)
    requires v.deadlines == w.deadlines[d := w.deadlines[d].(hasHandle := true)]
             && v.guards == w.guards[id := GuardObject(false, Some(d))]
    ensures SessionsInv(v)
  {
    assert forall g :: g in w.guards ==> TagOf(v, g) == TagOf(w, g);
    assert Active(v, id, tag);
    assert forall g, t :: Active(v, g, t) <==> Active(w, g, t) || (g == id && t == tag);
    assert forall t :: t in w.slots && t != tag ==> (Open(v, t) <==> Open(w, t));
  }

  lemma StoppedKeeps(w: World, v: World, g: Id, tag: Tag)
    requires ObjectsInv(w) && Active(w, g, tag) && OnlySlot(w, v, tag) && !Open(v, tag)
    requires v.deadlines == w.deadlines && v.inUse == w.inUse
             && v.guards == w.guards[g := w.guards[g].(wasStopped := true)]
    ensures ObjectsInv(v)
  {
    assert forall e, t :: Owns(w, e, t) <==> Owns(v, e, t);
    assert forall h, e :: Guards(v, h, e) <==> Guards(w, h, e);
    assert SessionsInv(v) by {
      assert forall h :: TagOf(v, h) == TagOf(w, h);
      forall h, t
        ensures Active(v, h, t) <==> Active(w, h, t) && t != tag
      {
        if Active(w, h, tag) {
          OneActiveGuard(w, g, h, tag);
        }
      }
      assert forall t :: t in w.slots && t != tag ==> (Open(v, t) <==> Open(w, t));
    }
  }

  lemma MoveGuardKeeps(w: World, g: Id, id: Id)
    requires ObjectsInv(w) && Enabled(w, MoveGuard(g, id))
    ensures ObjectsInv(Next(w, MoveGuard(g, id)))
  {
    var v := Next(w, MoveGuard(g, id));
    assert forall e, t :: Owns(w, e, t) <==> Owns(v, e, t);
    assert forall t :: Open(w, t) <==> Open(v, t);
    assert forall h, e :: Guards(v, h, e) <==> (h != g && h != id && Guards(w, h, e)) || (h == id && Guards(w, g, e));
    forall d | d in v.deadlines && v.deadlines[d].hasHandle
      ensures exists h :: Guards(v, h, d)
    {
      var h :| Guards(w, h, d);
      assert Guards(v, if h == g then id else h, d);
    }
    forall t | t in w.slots
      ensures (exists h :: Active(w, h, t)) <==> (exists h :: Active(v, h, t))
    {
      if h :| Active(w, h, t) {
        assert Active(v, if h == g then id else h, t);
      }
      if h :| Active(v, h, t) {
        assert Active(w, if h == id then g else h, t);
      }
    }
  }

  /** Destroying a guard that has stopped its deadline frees the deadline. */
  lemma ReleaseKeeps(w: World, g: Id)
    requires ObjectsInv(w) && g in w.guards && w.guards[g].deadline.Some? && w.guards[g].wasStopped
    requires w.guards[g].deadline.value in w.deadlines
    ensures ObjectsInv(Released(w, g, w.guards[g].deadline.value))
  {
    var d := w.guards[g].deadline.value;
    var v := Released(w, g, d);
    assert Guards(w, g, d);
    assert forall e, t :: Owns(w, e, t) <==> Owns(v, e, t);
    assert forall h, e :: Guards(v, h, e) <==> Guards(w, h, e) && h != g;
    assert forall h, e :: Guards(v, h, e) ==> e != d;
    assert forall h, t :: Active(v, h, t) <==> Active(w, h, t);
    assert forall t :: Open(w, t) <==> Open(v, t);
  }

  /** Destroying a guard that was moved from changes nothing else. */
  lemma DropEmptyKeeps(w: World, g: Id)
    requires ObjectsInv(w) && g in w.guards && w.guards[g].deadline.None?
    ensures ObjectsInv(w.(guards := w.guards - {g}))
  {
    var v := w.(guards := w.guards - {g});
    assert forall e, t :: Owns(w, e, t) <==> Owns(v, e, t);
    assert forall h, e :: Guards(v, h, e) <==> Guards(w, h, e);
    assert forall h, t :: Active(v, h, t) <==> Active(w, h, t);
    assert forall t :: Open(w, t) <==> Open(v, t);
  }

  lemma MoveDeadlineKeeps(w: World, d: Id, id: Id)
    requires ObjectsInv(w) && Enabled(w, MoveDeadline(d, id)) && !w.deadlines[d].hasHandle
    ensures ObjectsInv(Next(w, MoveDeadline(d, id)))
  {
    var v := Next(w, MoveDeadline(d, id));
    assert OwnersInv(v) by {
      assert forall e, t :: Owns(v, e, t) <==> (e != d && e != id && Owns(w, e, t)) || (e == id && Owns(w, d, t));
      forall t | t in v.inUse
        ensures exists e :: Owns(v, e, t)
      {
        var e :| Owns(w, e, t);
        assert Owns(v, if e == d then id else e, t);
      }
    }
    SameGuards(w, v);
  }

  lemma DestroyDeadlineKeeps(w: World, d: Id)
    requires ObjectsInv(w) && Enabled(w, DestroyDeadline(d))
    ensures ObjectsInv(Next(w, DestroyDeadline(d)))
  {
    var v := Next(w, DestroyDeadline(d));
    assert forall e, t :: Owns(v, e, t) <==> Owns(w, e, t) && e != d;
    forall e | e in v.deadlines && v.deadlines[e].handle.Some?
      ensures v.deadlines[e].handle.value in v.inUse
    {
      assert Owns(w, e, v.deadlines[e].handle.value);
      assert w.deadlines[d].handle.Some? ==> Owns(w, d, w.deadlines[d].handle.value);
    }
    SameGuards(w, v);
  }

  // ---- Every step keeps the invariant ----------------------------------------------------------------------------

  /** Slots and clock untouched. */
  lemma SameSlots(w: World, v: World)
    requires SlotsInv(w) && v.slots == w.slots && v.clock == w.clock
    ensures SlotsInv(v)
  {
    assert forall t :: t in v.slots ==> At(v, t) == At(w, t);
  }

  /** A start that is enabled and finds no handle meets an idle slot. */
  lemma StartMeetsIdleSlot(w: World, d: Id, until: nat, id: Id)
    requires Inv(w) && Enabled(w, Start(d, until, id)) && !w.deadlines[d].hasHandle
    ensures CanStart(At(w, w.deadlines[d].handle.value), until)
  {
    var tag := w.deadlines[d].handle.value;
    UnguardedIsClosed(w, d, tag);
    assert SlotInv(w.slots[tag]);
  }

  lemma StartKeepsInv(w: World, d: Id, until: nat, id: Id)
    requires Inv(w) && Enabled(w, Start(d, until, id))
    ensures Inv(Next(w, Start(d, until, id)))
  {
    if !w.deadlines[d].hasHandle {
      var tag := w.deadlines[d].handle.value;
      StartMeetsIdleSlot(w, d, until, id);
      RustStartKeeps(w, tag, until);
      UnguardedIsClosed(w, d, tag);
      var (after, ok) := RustStart(w, tag, until);
      if ok {
        GuardedKeeps(w, after, d, id, tag);
        SameSlots(after, Guarded(after, d, id));
      } else {
        RefusedKeeps(w, after, tag);
      }
    }
  }

  /** A guard that has not stopped yet can: the session of its tag is open, the word is marked running and the
      32-bit subtraction does not wrap. */
  lemma ActiveGuardCanStop(w: World, g: Id, until: nat)
    requires Inv(w) && Enabled(w, Stop(g, until)) && !w.guards[g].wasStopped
    ensures CanStop(At(w, TagOf(w, g).value), until)
  {
    var tag := TagOf(w, g).value;
    assert Active(w, g, tag) && Open(w, tag);
    OpenSessionCanStop(At(w, tag), until);
  }

  function Marked(w: World, g: Id): World
    requires g in w.guards
  {
    w.(guards := w.guards[g := w.guards[g].(wasStopped := true)])
  }

  lemma StopKeepsInv(w: World, g: Id, until: nat)
    requires Inv(w) && Enabled(w, Stop(g, until))
    ensures Inv(Stopped(w, g, until))
    ensures Stopped(w, g, until).deadlines == w.deadlines && Stopped(w, g, until).guards == Marked(w, g).guards
  {
    if !w.guards[g].wasStopped {
      var tag := TagOf(w, g).value;
      ActiveGuardCanStop(w, g, until);
      SameSlots(w, Marked(w, g));
      RustStopKeeps(Marked(w, g), tag, until);
      StoppedKeeps(w, RustStop(Marked(w, g), tag, until), g, tag);
    } else {
      assert Stopped(w, g, until).guards == w.guards;
    }
  }

  lemma DestroyGuardKeepsInv(w: World, g: Id, until: nat)
    requires Inv(w) && Enabled(w, DestroyGuard(g, until))
    ensures Inv(Next(w, DestroyGuard(g, until)))
  {
    if w.guards[g].deadline.None? {
      DropEmptyKeeps(w, g);
      SameSlots(w, Next(w, DestroyGuard(g, until)));
    } else {
      StopKeepsInv(w, g, until);
      ReleaseKeeps(Stopped(w, g, until), g);
      SameSlots(Stopped(w, g, until), Next(w, DestroyGuard(g, until)));
    }
  }

  lemma WaitKeepsInv(w: World, until: nat)
    requires Inv(w) && w.clock <= until
    ensures Inv(w.(clock := until))
  {
    var v := w.(clock := until);
    forall t | t in v.slots
      ensures SlotInv(v.slots[t]) && D.Inv(At(v, t))
    {
      D.InvPreserved(At(w, t), D.Pass(until));
    }
    assert forall e, t :: Owns(w, e, t) <==> Owns(v, e, t);
    SameGuards(w, v);
  }

  /** A step that does not move a started deadline. */
  predicate LeavesStartedInPlace(w: World, step: Step) {
    step.MoveDeadline? && step.deadline in w.deadlines ==> !w.deadlines[step.deadline].hasHandle
  }

  lemma InvPreserved(w: World, step: Step)
    requires Inv(w) && Enabled(w, step) && LeavesStartedInPlace(w, step)
    ensures Inv(Next(w, step))
  {
    match step
    case Wait(until) => WaitKeepsInv(w, until);
    case GetDeadline(tag, id) =>
      SameSlots(w, Next(w, step));
      GetKeeps(w, tag, id);
    case Start(d, until, id) => StartKeepsInv(w, d, until, id);
    case Stop(g, until) => StopKeepsInv(w, g, until);
    case MoveGuard(g, id) =>
      SameSlots(w, Next(w, step));
      MoveGuardKeeps(w, g, id);
    case DestroyGuard(g, until) => DestroyGuardKeepsInv(w, g, until);
    case MoveDeadline(d, id) =>
      SameSlots(w, Next(w, step));
      MoveDeadlineKeeps(w, d, id);
    case DestroyDeadline(d) =>
      SameSlots(w, Next(w, step));
      DestroyDeadlineKeeps(w, d);
  }

  // ---- Runs -------------------------------------------------------------------------------------------------

  function Initial(ranges: map<Tag, TimeRange>): World {
    World(0, {}, map t | t in ranges :: Slot(D.Slot(ranges[t], DeadlineState.DEFAULT, D.Idle, []), 0, 0),
          map[], map[], false)
  }

  ghost predicate ValidRanges(ranges: map<Tag, TimeRange>) {
    forall t :: t in ranges ==> ranges[t].Valid()
  }

  /** The steps can be taken one after the other and lead from `w` to `v`. */
  predicate Runs(w: World, steps: seq<Step>, v: World)
    decreases steps
  {
    if steps == [] then v == w else Enabled(w, steps[0]) && Runs(Next(w, steps[0]), steps[1..], v)
  }

  /** No step of the run moves a started deadline. */
  predicate InPlace(w: World, steps: seq<Step>)
    decreases steps
  {
    steps != [] && Enabled(w, steps[0]) ==> LeavesStartedInPlace(w, steps[0]) && InPlace(Next(w, steps[0]), steps[1..])
  }

  lemma {:induction false} InvOnRuns(w: World, steps: seq<Step>, v: World)
    requires Inv(w) && Runs(w, steps, v) && InPlace(w, steps)
    ensures Inv(v)
    decreases steps
  {
    if steps != [] {
      InvPreserved(w, steps[0]);
      InvOnRuns(Next(w, steps[0]), steps[1..], v);
    }
  }

  lemma InitialInv(ranges: map<Tag, TimeRange>)
    requires ValidRanges(ranges)
    ensures Inv(Initial(ranges))
  {
    var w := Initial(ranges);
    forall t | t in w.slots
      ensures SlotInv(w.slots[t]) && D.Inv(At(w, t))
    {
    }
  }

  /** However a client gets, starts, stops, moves and destroys the objects, as long as it does not move a
      started deadline, no start meets an open session, and every stop meets an open session, a word marked
      running and a timestamp that does not wrap. Every successful start but the current one has had exactly
      one stop. A tag is in use exactly while one live deadline object owns it. Every live guard can still
      reach its deadline. */
  lemma GuardDiscipline(ranges: map<Tag, TimeRange>, steps: seq<Step>, w: World)
    requires ValidRanges(ranges) && Runs(Initial(ranges), steps, w) && InPlace(Initial(ranges), steps)
    ensures !w.fault
    ensures forall t :: t in w.slots ==>
              w.slots[t].stops == |w.slots[t].protocol.done|
                && w.slots[t].stops <= w.slots[t].starts <= w.slots[t].stops + 1
              && (w.slots[t].starts == w.slots[t].stops + 1 <==> exists g :: Active(w, g, t))
    ensures forall t :: t in w.inUse <==> exists d :: Owns(w, d, t)
    ensures forall d, e, t :: Owns(w, d, t) && Owns(w, e, t) ==> d == e
    ensures forall g :: g in w.guards ==> GuardUsable(w, g)
  {
    InitialInv(ranges);
    InvOnRuns(Initial(ranges), steps, w);
    forall g | g in w.guards
      ensures GuardUsable(w, g)
    {
      GuardsAreUsable(w, g);
    }
  }

  /** The assertion of `stop_internal` holds whenever the C++ layer stops a deadline: the word is marked running
      when the stop updates it. */
  lemma StopFindsRunningWord(ranges: map<Tag, TimeRange>, steps: seq<Step>, w: World, g: Id, until: nat)
    requires ValidRanges(ranges) && Runs(Initial(ranges), steps, w) && InPlace(Initial(ranges), steps)
    requires Enabled(w, Stop(g, until)) && !w.guards[g].wasStopped
    ensures var s := At(w, TagOf(w, g).value);
            && D.Enabled(s, D.ReadStop)
            && var read := D.Next(D.Next(s, D.ReadStop), D.Pass(until));
               DeadlineState.IsRunning(read.slot.word) && D.Enabled(read, D.UpdateStop)
  {
    InitialInv(ranges);
    InvOnRuns(Initial(ranges), steps, w);
    ActiveGuardCanStop(w, g, until);
  }

  /** Once all objects are gone, every start has had its stop and every tag is free again. */
  lemma AllReleased(ranges: map<Tag, TimeRange>, steps: seq<Step>, w: World)
    requires ValidRanges(ranges) && Runs(Initial(ranges), steps, w) && InPlace(Initial(ranges), steps)
    requires w.guards == map[] && w.deadlines == map[]
    ensures w.inUse == {} && forall t :: t in w.slots ==> w.slots[t].starts == w.slots[t].stops
  {
    GuardDiscipline(ranges, steps, w);
    assert forall d, t :: !Owns(w, d, t);
    assert forall g, t :: !Active(w, g, t);
  }

  // ---- Each tag takes a run of the deadline protocol -----------------------------------------------------------

  lemma RunGrows(run: seq<D.State>, step: D.Step)
    requires D.IsRun(run) && D.Enabled(run[|run| - 1], step)
    ensures D.IsRun(run + [D.Next(run[|run| - 1], step)])
  {
    var all := run + [D.Next(run[|run| - 1], step)];
    forall i | 0 <= i < |all| - 1
      ensures D.StepAt(all, i)
    {
      if i == |run| - 1 {
        assert D.Takes(all[i], step, all[i + 1]);
      } else {
        assert D.StepAt(run, i);
      }
    }
  }

  /** What a client step does to one slot: letting time pass, or one call into Rust. */
  predicate Effect(s: D.State, t: D.State) {
    && s.clock <= t.clock
    && (|| t == D.Next(s, D.Pass(t.clock))
        || (CanStart(s, t.clock) && t == StartCall(s, t.clock))
        || (CanStop(s, t.clock) && t == StopCall(s, t.clock)))
  }

  lemma OnlySlotEffect(w: World, v: World, tag: Tag, t: Tag)
    requires OnlySlot(w, v, tag) && t in w.slots && (t == tag ==> Effect(At(w, t), At(v, t)))
    ensures Effect(At(w, t), At(v, t))
  {
  }

  lemma StartEffect(w: World, d: Id, until: nat, id: Id, t: Tag)
    requires Inv(w) && Enabled(w, Start(d, until, id)) && t in w.slots
    ensures t in Next(w, Start(d, until, id)).slots && Effect(At(w, t), At(Next(w, Start(d, until, id)), t))
  {
    if !w.deadlines[d].hasHandle {
      var tag := w.deadlines[d].handle.value;
      StartMeetsIdleSlot(w, d, until, id);
      StartCallKeeps(At(w, tag), until);
      RustStartKeeps(w, tag, until);
      var v := RustStart(w, tag, until).0;
      assert At(v, tag) == StartCall(At(w, tag), until);
      OnlySlotEffect(w, v, tag, t);
    }
  }

  lemma StopEffect(w: World, g: Id, until: nat, t: Tag)
    requires Inv(w) && Enabled(w, Stop(g, until)) && t in w.slots
    ensures t in Stopped(w, g, until).slots && Effect(At(w, t), At(Stopped(w, g, until), t))
  {
    if !w.guards[g].wasStopped {
      var tag := TagOf(w, g).value;
      ActiveGuardCanStop(w, g, until);
      SameSlots(w, Marked(w, g));
      StopCallKeeps(At(w, tag), until);
      RustStopKeeps(Marked(w, g), tag, until);
      var v := RustStop(Marked(w, g), tag, until);
      assert At(v, tag) == StopCall(At(w, tag), until);
      OnlySlotEffect(w, v, tag, t);
    }
  }

  lemma StepEffect(w: World, step: Step, t: Tag)
    requires Inv(w) && Enabled(w, step) && t in w.slots
    ensures t in Next(w, step).slots && Effect(At(w, t), At(Next(w, step), t))
  {
    match step
    case Start(d, until, id) => StartEffect(w, d, until, id, t);
    case Stop(g, until) => StopEffect(w, g, until, t);
    case DestroyGuard(g, until) =>
      if w.guards[g].deadline.Some? {
        StopEffect(w, g, until, t);
      }
    case _ =>
  }

  /** A run that goes on from another one and ends in `t`. */
  ghost predicate Extends(run: seq<D.State>, longer: seq<D.State>, t: D.State) {
    D.IsRun(longer) && run <= longer && longer[|longer| - 1] == t
  }

  /** The run of a slot continued over a client step. */
  lemma EffectProjects(s: D.State, t: D.State, run: seq<D.State>) returns (longer: seq<D.State>)
    requires Effect(s, t) && D.IsRun(run) && run[|run| - 1] == s
    ensures Extends(run, longer, t)
  {
    if t == D.Next(s, D.Pass(t.clock)) {
      RunGrows(run, D.Pass(t.clock));
      longer := run + [t];
    } else if CanStart(s, t.clock) && t == StartCall(s, t.clock) {
      longer := ThreeSteps(run, D.ReadStart, t.clock, D.UpdateStart);
    } else {
      longer := ThreeSteps(run, D.ReadStop, t.clock, D.UpdateStop);
    }
  }

  lemma ThreeSteps(run: seq<D.State>, read: D.Step, until: nat, update: D.Step) returns (longer: seq<D.State>)
    requires D.IsRun(run) && D.Enabled(run[|run| - 1], read) && D.Enabled(D.Next(run[|run| - 1], read), D.Pass(until))
    requires D.Enabled(D.Next(D.Next(run[|run| - 1], read), D.Pass(until)), update)
    ensures Extends(run, longer, D.Next(D.Next(D.Next(run[|run| - 1], read), D.Pass(until)), update))
  {
    RunGrows(run, read);
    var one := run + [D.Next(run[|run| - 1], read)];
    RunGrows(one, D.Pass(until));
    var two := one + [D.Next(one[|one| - 1], D.Pass(until))];
    RunGrows(two, update);
    longer := two + [D.Next(two[|two| - 1], update)];
  }

  lemma StepProjects(w: World, step: Step, t: Tag, run: seq<D.State>) returns (more: seq<D.State>)
    requires Inv(w) && Enabled(w, step) && t in w.slots
    requires D.IsRun(run) && run[|run| - 1] == At(w, t)
    ensures t in Next(w, step).slots && Extends(run, more, At(Next(w, step), t))
  {
    StepEffect(w, step, t);
    more := EffectProjects(At(w, t), At(Next(w, step), t), run);
  }

  lemma {:induction false} RunsProject(w: World, steps: seq<Step>, v: World, t: Tag, run: seq<D.State>)
    returns (longer: seq<D.State>)
    requires Inv(w) && Runs(w, steps, v) && InPlace(w, steps) && t in w.slots && D.IsRun(run)
             && run[|run| - 1] == At(w, t)
    ensures t in v.slots && Extends(run, longer, At(v, t))
    decreases steps
  {
    if steps == [] {
      longer := run;
    } else {
      InvPreserved(w, steps[0]);
      var more := StepProjects(w, steps[0], t, run);
      longer := RunsProject(Next(w, steps[0]), steps[1..], v, t, more);
    }
  }

  /** Single producer through both languages: whatever a client does with the C++ objects short of moving a
      started deadline, what happens to the word of each tag is a run of the deadline protocol, so everything
      proved of those runs holds of it. */
  lemma EveryTagRunsTheProtocol(ranges: map<Tag, TimeRange>, steps: seq<Step>, w: World, t: Tag)
    returns (run: seq<D.State>)
    requires ValidRanges(ranges) && Runs(Initial(ranges), steps, w) && InPlace(Initial(ranges), steps) && t in ranges
    ensures t in w.slots && D.IsRun(run) && run[|run| - 1] == At(w, t)
    ensures w.slots[t].protocol.range == ranges[t]
    ensures w.slots[t].protocol.word % 16 in {1, 3, 11}
  {
    InitialInv(ranges);
    run := RunsProject(Initial(ranges), steps, w, t, [At(Initial(ranges), t)]);
    D.ClockIsMonotone(run, 0, |run| - 1);
    D.LowBits(run, |run| - 1);
  }

  /** The C++ layer hands out a guard exactly when no earlier session of the tag was stopped outside its range. */
  lemma StartSucceedsIffNeverFailed(ranges: map<Tag, TimeRange>, steps: seq<Step>, w: World, d: Id, until: nat, id: Id)
    requires ValidRanges(ranges) && Runs(Initial(ranges), steps, w) && InPlace(Initial(ranges), steps)
    requires Enabled(w, Start(d, until, id)) && !w.deadlines[d].hasHandle
    ensures id in Next(w, Start(d, until, id)).guards <==>
              !D.Failed(w.slots[w.deadlines[d].handle.value].protocol.range,
                        D.HistoryOf(w.slots[w.deadlines[d].handle.value].protocol))
  {
    InitialInv(ranges);
    InvOnRuns(Initial(ranges), steps, w);
    var tag := w.deadlines[d].handle.value;
    StartMeetsIdleSlot(w, d, until, id);
    AcceptedIffNeverFailed(At(w, tag), until);
  }

  lemma AcceptedIffNeverFailed(s: D.State, until: nat)
    requires D.Inv(s) && CanStart(s, until)
    ensures StartCall(s, until).slot.producer.Started? <==> !D.Failed(s.slot.range, D.HistoryOf(s.slot))
  {
    D.MarksReadBack(s);
  }

  // ---- Moving a started deadline -----------------------------------------------------------------------------

  /** A deadline object that believes it has a handle, but that no guard will ever release. */
  ghost predicate Orphan(w: World, d: Id) {
    d in w.deadlines && w.deadlines[d].hasHandle && forall g :: !Guards(w, g, d)
  }

  lemma OrphanStep(w: World, step: Step, d: Id)
    requires Orphan(w, d) && Enabled(w, step)
    ensures Orphan(Next(w, step), d)
  {
    var v := Next(w, step);
    forall g
      ensures !Guards(v, g, d)
    {
      assert !Guards(w, if step.MoveGuard? && g == step.fresh_ then step.guard else g, d);
    }
    if step.DestroyGuard? {
      assert !Guards(w, step.guard, d);
    }
  }

  /** An orphan stays one, and its destructor can never run to its end. */
  lemma {:induction false} OrphanStays(w: World, steps: seq<Step>, v: World, d: Id)
    requires Orphan(w, d) && Runs(w, steps, v)
    ensures Orphan(v, d) && !Enabled(v, DestroyDeadline(d))
    decreases steps
  {
    if steps != [] {
      OrphanStep(w, steps[0], d);
      OrphanStays(Next(w, steps[0]), steps[1..], v, d);
    }
  }

  /** In a reachable world a step keeps the discipline if and only if it does not move a started deadline:
      the move constructor copies the flag of the moved-from object, which leaves an orphan, and takes
      away the foreign handle under a guard that still has to stop. */
  lemma DisciplineIffInPlace(w: World, step: Step)
    requires Inv(w) && Enabled(w, step)
    ensures Inv(Next(w, step)) <==> LeavesStartedInPlace(w, step)
    ensures !LeavesStartedInPlace(w, step) ==>
              && Orphan(Next(w, step), step.fresh_)
              && forall g, until :: Guards(w, g, step.deadline) && !w.guards[g].wasStopped ==>
                   !Enabled(Next(w, step), Stop(g, until)) && !Enabled(Next(w, step), DestroyGuard(g, until))
  {
    if LeavesStartedInPlace(w, step) {
      InvPreserved(w, step);
    } else {
      var v := Next(w, step);
      assert forall g :: Guards(v, g, step.fresh_) <==> Guards(w, g, step.fresh_);
      assert v.deadlines[step.fresh_].hasHandle;
    }
  }
}
