/** The C++ classes `Deadline` and `DeadlineHandle`, and the calls they make into Rust. Every method takes
    the live objects as a ghost argument, and is proved to be one step of the client steps in
    `DeadlineHandles`, whose runs are what the discipline is proved about. */
module DeadlineObjects {
  import opened Common
  import opened DeadlineHandles
  import DeadlineMonitor
  import DeadlineState
  import D = DeadlineProtocol

  datatype Error = NotFound | InUse | WrongState | Failed

  /** The foreign functions and the state behind them. */
  class RustSide {
    var clock: nat
    var inUse: set<Tag>
    var slots: map<Tag, Slot>
    var fault: bool

    /** This side alone. */
    ghost function Rust(): World
      reads this
    {
      World(clock, inUse, slots, map[], map[], fault)  // no C++ objects
    }

    constructor (ranges: map<Tag, TimeRange>)
      ensures Rust() == Initial(ranges)
    {
      clock, inUse, fault := 0, {}, false;
      slots := map t | t in ranges :: Slot(D.Slot(ranges[t], DeadlineState.DEFAULT, D.Idle, []), 0, 0);
    }

    /** `deadline_start`: the clock is read now, the word updated at time `until`. */
    method DeadlineStart(tag: Tag, until: nat) returns (ok: bool)
      requires tag in slots
      modifies this
      ensures (Rust(), ok) == RustStart(old(Rust()), tag, until)
    {
      var slot := slots[tag];
      if !CanStart(D.State(slot.protocol, clock), until) {
        fault := true;
        return false;
      }
      var now := clock;
      clock := until;
      var update := DeadlineMonitor.StartUpdate(slot.protocol.word, now + slot.protocol.range.max);
      ok := update.Some?;
      if ok {
        var started := slot.protocol.(word := update.value, producer := D.Started(now));
        slots := slots[tag := Slot(started, slot.starts + 1, slot.stops)];
      } else {
        assert slots == slots[tag := slot];
      }
    }

    /** `deadline_stop`: the clock is read now, the word updated at time `until`. */
    method DeadlineStop(tag: Tag, until: nat)
      requires tag in slots
      modifies this
      ensures Rust() == RustStop(old(Rust()), tag, until)
    {
      var slot := slots[tag];
      if !CanStop(D.State(slot.protocol, clock), until) {
        fault := true;
        return;
      }
      var now := clock;
      clock := until;
      var update := DeadlineMonitor.StopUpdate(slot.protocol.word, now, slot.protocol.range).0;
      var word := DeadlineMonitor.Apply(slot.protocol.word, update);
      var done := slot.protocol.done + [D.Session(slot.protocol.producer.start, now)];
      var stopped := slot.protocol.(word := word, producer := D.Idle, done := done);
      slots := slots[tag := Slot(stopped, slot.starts, slot.stops + 1)];
    }

    /** `deadline_destroy`, the deleter of the foreign handle. */
    method DeadlineDestroy(tag: Tag)
      modifies this`inUse
      ensures inUse == old(inUse) - {tag}
    {
      inUse := inUse - {tag};
    }
  }

  /** `DeadlineMonitor::GetDeadline`. */
  method GetDeadline(rust: RustSide, tag: Tag, address: Id, ghost live: Objects) returns (r: Result<Deadline, Error>)
    requires address !in live.deadlines
    modifies rust
    ensures r.Ok? <==> tag in old(rust.slots) && tag !in old(rust.inUse)
    ensures r.Err? ==> r.error == if tag in old(rust.slots) then InUse else NotFound
    ensures r.Ok? ==> fresh(r.value) && r.value.address == address
    ensures Abstract(rust, if r.Ok? then live.(deadlines := live.deadlines[address := r.value]) else live)
         == Next(old(Abstract(rust, live)), Step.GetDeadline(tag, address))
  {
    if tag !in rust.slots {
      return Err(NotFound);
    }
    if tag in rust.inUse {
      return Err(InUse);
    }
    rust.inUse := rust.inUse + {tag};
    var deadline := new Deadline(address, tag);
    return Ok(deadline);
  }

  /** The live objects by their addresses. */
  datatype Objects = Objects(deadlines: map<Id, Deadline>, guards: map<Id, DeadlineHandle>)

  /** Objects are where their addresses say, and references of guards lead to live objects. */
  ghost predicate Placed(live: Objects)
    reads live.guards.Values
  {
    && (forall i :: i in live.deadlines ==> live.deadlines[i].address == i)
    && (forall i :: i in live.guards ==> live.guards[i].address == i && live.guards[i] in live.guards.Values)
    && (forall i :: i in live.guards && live.guards[i].deadline != null ==>
          Holds(live, live.guards[i].deadline))
  }

  ghost predicate Holds(live: Objects, deadline: Deadline) {
    deadline.address in live.deadlines && live.deadlines[deadline.address] == deadline
  }

  ghost function Abstract(rust: RustSide, live: Objects): World
    reads rust, live.deadlines.Values, live.guards.Values
  {
    World(rust.clock, rust.inUse, rust.slots, DeadlineValues(live.deadlines), GuardValues(live.guards), rust.fault)
  }

  ghost function DeadlineValues(deadlines: map<Id, Deadline>): map<Id, DeadlineObject>
    reads deadlines.Values
  {
    map i | i in deadlines :: deadlines[i].Value()
  }

  ghost function GuardValues(guards: map<Id, DeadlineHandle>): map<Id, GuardObject>
    reads guards.Values
  {
    map i | i in guards :: guards[i].Value()
  }

  class Deadline {
    const address: Id
    var handle: Option<Tag>
    var hasHandle: bool

    ghost function Value(): DeadlineObject
      reads this
    {
      DeadlineObject(handle, hasHandle)
    }

    constructor (address: Id, tag: Tag)
      ensures this.address == address && Value() == DeadlineObject(Some(tag), false)
    {
      this.address, handle, hasHandle := address, Some(tag), false;
    }

    /** The default move constructor: it takes the foreign handle and copies the flag. */
    constructor Move(address: Id, other: Deadline, ghost rust: RustSide, ghost live: Objects)
      requires Holds(live, other) && address !in live.deadlines && Placed(live)
      modifies other
      ensures this.address == address
      ensures Abstract(rust, live.(deadlines := live.deadlines[address := this]))
           == Next(old(Abstract(rust, live)), MoveDeadline(other.address, address))
    {
      this.address, handle, hasHandle := address, other.handle, other.hasHandle;
      new;
      other.handle := None;
      assert GuardValues(live.guards) == old(GuardValues(live.guards));
      assert DeadlineValues(live.deadlines[address := this]) ==
             MovedDeadline(old(DeadlineValues(live.deadlines)), other.address, address);
    }

    /** `Start`: refuses a second handle, asks Rust, and on success hands out a guard. */
    method Start(rust: RustSide, until: nat, address: Id, ghost live: Objects)
      returns (r: Result<DeadlineHandle, Error>)
      requires Placed(live) && Holds(live, this)
               && Enabled(Abstract(rust, live), Step.Start(this.address, until, address))
      modifies this, rust
      ensures r.Ok? <==> !old(hasHandle) && RustStart(old(rust.Rust()), old(handle).value, until).1
      ensures old(hasHandle) ==> r == Err(WrongState)
      ensures r.Ok? ==> fresh(r.value) && r.value.address == address && r.value.deadline == this
      ensures Abstract(rust, if r.Ok? then live.(guards := live.guards[address := r.value]) else live)
           == Next(old(Abstract(rust, live)), Step.Start(this.address, until, address))
    {
      assert Abstract(rust, live).deadlines[this.address] == Value();
      if hasHandle {
        return Err(WrongState);
      }
      CallsIgnoreObjects(Abstract(rust, live), handle.value, until);
      var ok := rust.DeadlineStart(handle.value, until);
      if !ok {
        return Err(Failed);
      }
      var guard := HandOut(address, rust, live);
      return Ok(guard);
    }

    /** The end of a successful start: the object remembers that it has handed out a guard. */
    method HandOut(address: Id, ghost rust: RustSide, ghost live: Objects) returns (guard: DeadlineHandle)
      requires Placed(live) && Holds(live, this)
      modifies this
      ensures fresh(guard) && guard.address == address && guard.deadline == this
      ensures Abstract(rust, live.(guards := live.guards[address := guard])) ==
              Guarded(old(Abstract(rust, live)), this.address, address)
    {
      hasHandle := true;
      assert DeadlineValues(live.deadlines) == old(DeadlineValues(live.deadlines))[this.address := Value()];
      guard := new DeadlineHandle(address, this);
      assert GuardValues(live.guards[address := guard]) == old(GuardValues(live.guards))[address := guard.Value()];
    }

    /** The destructor; it must not run while a handle exists. */
    method Destroy(rust: RustSide, ghost live: Objects)
      requires Placed(live) && Holds(live, this) && Enabled(Abstract(rust, live), DestroyDeadline(address))
      modifies rust
      ensures Abstract(rust, live.(deadlines := live.deadlines - {address}))
           == Next(old(Abstract(rust, live)), DestroyDeadline(address))
    {
      assert Abstract(rust, live).deadlines[address] == Value();
      if handle.Some? {
        rust.DeadlineDestroy(handle.value);
      }
    }
  }

  class DeadlineHandle {
    const address: Id
    var wasStopped: bool
    var deadline: Deadline?

    ghost function Value(): GuardObject
      reads this
    {
      GuardObject(wasStopped, if deadline == null then None else Some(deadline.address))
    }

    constructor (address: Id, deadline: Deadline)
      ensures this.address == address && this.deadline == deadline && !wasStopped
    {
      this.address, this.deadline, wasStopped := address, deadline, false;
    }

    /** The move constructor. */
    constructor Move(address: Id, other: DeadlineHandle, ghost rust: RustSide, ghost live: Objects)
      requires Placed(live) && other.address in live.guards && live.guards[other.address] == other
      requires address !in live.guards
      modifies other
      ensures this.address == address && deadline == old(other.deadline)
      ensures Abstract(rust, live.(guards := live.guards[address := this]))
           == Next(old(Abstract(rust, live)), MoveGuard(other.address, address))
    {
      this.address, wasStopped, deadline := address, other.wasStopped, other.deadline;
      new;
      other.wasStopped, other.deadline := true, null;
      assert DeadlineValues(live.deadlines) == old(DeadlineValues(live.deadlines));
      assert GuardValues(live.guards[address := this]) ==
             MovedGuard(old(GuardValues(live.guards)), other.address, address);
    }

    /** `Stop`: stops the deadline the first time, and does nothing after that. */
    method Stop(rust: RustSide, until: nat, ghost live: Objects)
      requires Placed(live) && address in live.guards && live.guards[address] == this
      requires Enabled(Abstract(rust, live), Step.Stop(address, until))
      modifies this`wasStopped, rust
      ensures wasStopped
      ensures Abstract(rust, live) == Next(old(Abstract(rust, live)), Step.Stop(address, until))
    {
      assert Abstract(rust, live).guards[address] == Value() && Holds(live, deadline);
      assert Abstract(rust, live).deadlines[deadline.address] == deadline.Value();
      if !wasStopped {
        wasStopped := true;
        assert GuardValues(live.guards) == Marked(old(Abstract(rust, live)), address).guards;
        CallsIgnoreObjects(Marked(old(Abstract(rust, live)), address), deadline.handle.value, until);
        rust.DeadlineStop(deadline.handle.value, until);
      }
    }

    /** The last act of the destructor: the deadline can be started again. */
    method Release(rust: RustSide, ghost live: Objects)
      requires Placed(live) && address in live.guards && live.guards[address] == this
      requires deadline != null && Holds(live, deadline)
      modifies deadline`hasHandle
      ensures Abstract(rust, live.(guards := live.guards - {address})) ==
              Released(old(Abstract(rust, live)), address, deadline.address)
    {
      deadline.hasHandle := false;
    }

    /** The destructor: stops the deadline if need be and releases it. */
    method Destroy(rust: RustSide, until: nat, ghost live: Objects)
      requires Placed(live) && address in live.guards && live.guards[address] == this
      requires Enabled(Abstract(rust, live), DestroyGuard(address, until))
      modifies this`wasStopped, deadline, rust
      ensures Abstract(rust, live.(guards := live.guards - {address})) ==
              Next(old(Abstract(rust, live)), DestroyGuard(address, until))
    {
      assert Abstract(rust, live).guards[address] == Value();
      if deadline == null {
        return;
      }
      Stop(rust, until, live);
      Release(rust, live);
    }
  }
}
