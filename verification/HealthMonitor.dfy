/** Ownership of monitors in the health monitor: each is handed out to the application at most once,
    and starting hands every evaluation handle to the worker. The three hash maps of monitors are
    one map here, keyed by kind and tag. */
module HealthMonitor {
  import opened Common

  datatype Kind = Deadline | Heartbeat | Logic
  datatype Key = Key(kind: Kind, tag: string)

  /** A monitor that is still here, a handle whose monitor was handed out, or an empty container. */
  datatype Container = Available | Taken | Gone

  type Monitors = map<Key, Container>

  datatype BuildError = InvalidArgument | WrongState

  /** The checks of `build`: cycles in whole milliseconds, and at least one monitor. */
  function BuildChecks(supervisorCycle: nat, internalCycle: nat, monitors: nat): Option<BuildError> {
    if !IsMultipleOf(supervisorCycle, internalCycle) then Some(InvalidArgument)
    else if monitors == 0 then Some(WrongState)
    else None
  }

  ghost predicate NoDuplicates(order: seq<Key>) {
    forall i, j :: 0 <= i < j < |order| ==> order[i] != order[j]
  }

  /** The order of the maps in `start_internal`. */
  function Rank(kind: Kind): nat {
    match kind
    case Deadline => 0
    case Heartbeat => 1
    case Logic => 2
  }

  ghost predicate MapByMap(order: seq<Key>) {
    forall i, j :: 0 <= i < j < |order| ==> Rank(order[i].kind) <= Rank(order[j].kind)
  }

  /** An order in which `start` can meet the containers: map by map, each in any order. */
  ghost predicate StartOrder(order: seq<Key>, m: Monitors) {
    KeysOf(order) == m.Keys && NoDuplicates(order) && MapByMap(order)
  }

  function GetStep(m: Monitors, key: Key): (Monitors, Option<Key>) {
    if key in m && m[key].Available? then (m[key := Taken], Some(key)) else (m, None)
  }

  /** Number of leading keys whose handle can be collected. */
  function Collectable(m: Monitors, order: seq<Key>, from: nat): nat
    requires from <= |order|
    decreases |order| - from
  {
    if from < |order| && order[from] in m && m[order[from]].Taken? then Collectable(m, order, from + 1) else from
  }

  /** The containers after the handles of some keys were taken out. */
  function Emptied(m: Monitors, keys: seq<Key>): Monitors {
    map key | key in m :: if key in keys then Gone else m[key]
  }

  lemma LeftIsEmptied(m: Monitors, keys: seq<Key>, left: Monitors)
    requires left.Keys == m.Keys && forall key :: key in m ==> left[key] == if key in keys then Gone else m[key]
    ensures left == Emptied(m, keys)
  {
  }

  function KeysOf(order: seq<Key>): set<Key> {
    set key | key in order
  }

  /** `start_internal`: the containers afterwards, and the handles given to the worker. */
  function StartStep(m: Monitors, order: seq<Key>): (Monitors, Option<seq<Key>>) {
    var n := Collectable(m, order, 0);
    CollectableBound(m, order, 0);
    (Emptied(m, order[..n]), if n == |order| then Some(order) else None)
  }

  class HealthMonitor {
    var monitors: Monitors
    var worker: Option<seq<Key>>

    constructor (keys: set<Key>)
      ensures monitors == (map key | key in keys :: Available) && worker == None
    {
      monitors := map key | key in keys :: Available;
      worker := None;
    }

    method GetMonitor(key: Key) returns (monitor: Option<Key>)
      modifies this`monitors
      ensures (monitors, monitor) == GetStep(old(monitors), key)
    {
      if key !in monitors {
        return None;
      }
      var state := monitors[key];
      monitors := monitors[key := Gone];
      match state
      case Available =>
        monitors := monitors[key := Taken];
        monitor := Some(key);
        assert monitors == old(monitors)[key := Taken];
      case Taken =>
        monitors := monitors[key := Taken];
        monitor := None;
        assert monitors == old(monitors);
      case Gone =>
        monitor := None;
        assert monitors == old(monitors);
    }

    /** Takes the containers in turn and pushes their handles into a vector with a capacity of the
        number of monitors; the push never fails. */
    method StartInternal(order: seq<Key>) returns (started: bool)
      requires StartOrder(order, monitors)
      modifies this
      ensures var (after, handles) := StartStep(old(monitors), order);
              && monitors == after
              && started == handles.Some?
              && worker == if handles.Some? then handles else old(worker)
    {
      OrderHasEveryMonitor(order, monitors);
      var left, collected := CollectMonitors(monitors, order, |monitors|);
      monitors := left;
      if collected.None? {
        return false;
      }
      worker := collected;
      started := true;
    }
  }

  /** `collect_given_monitors` over all three maps: takes each container, keeps its handle, puts back a
      monitor that was not handed out. A full vector would be an error too, and is not met. */
  method CollectMonitors(m: Monitors, order: seq<Key>, capacity: nat)
    returns (left: Monitors, collected: Option<seq<Key>>)
    requires StartOrder(order, m) && |order| <= capacity
    ensures (left, collected) == StartStep(m, order)
  {
    left := m;
    var handles: seq<Key> := [];
    LeftIsEmptied(m, [], left);
    for i := 0 to |order|
      invariant CollectedUpTo(m, order, i, left, handles)
    {
      var key := order[i];
      CollectOne(m, order, i, left, handles);
      var state := left[key];
      left := left[key := Gone];
      match state
      case Taken =>
        if |handles| >= capacity {
          return left, None;
        }
        handles := handles + [key];
      case Available =>
        left := left[key := Available];
        return left, None;
      case Gone =>
        return left, None;
    }
    assert order[..|order|] == order;
    collected := Some(handles);
  }

  /** The handles of the first `i` keys are collected, and nothing else has changed. */
  ghost predicate CollectedUpTo(m: Monitors, order: seq<Key>, i: nat, left: Monitors, handles: seq<Key>) {
    && i <= |order| && handles == order[..i] && left == Emptied(m, order[..i])
    && Collectable(m, order, 0) == Collectable(m, order, i)
  }

  /** What meeting the next container amounts to. */
  lemma CollectOne(m: Monitors, order: seq<Key>, i: nat, left: Monitors, handles: seq<Key>)
    requires StartOrder(order, m) && i < |order| && CollectedUpTo(m, order, i, left, handles)
    ensures order[i] in left && left[order[i]] == m[order[i]]
    ensures m[order[i]].Taken? ==> CollectedUpTo(m, order, i + 1, left[order[i] := Gone], handles + [order[i]])
    ensures !m[order[i]].Taken? ==>
              left[order[i] := Gone][order[i] := m[order[i]]] == left && StartStep(m, order) == (left, None)
    ensures m[order[i]].Gone? ==> left[order[i] := Gone] == left
  {
    var key := order[i];
    assert key in KeysOf(order) && key !in order[..i];
    assert order[..i + 1] == order[..i] + [key];
    if m[key].Taken? {
      LeftIsEmptied(m, order[..i + 1], left[key := Gone]);
    }
  }

  lemma OrderHasEveryMonitor(order: seq<Key>, m: Monitors)
    requires StartOrder(order, m)
    ensures |order| == |m|
  {
    DistinctSize(order);
  }

  lemma {:induction false} DistinctSize(order: seq<Key>)
    requires NoDuplicates(order)
    ensures |KeysOf(order)| == |order|
  {
    if order != [] {
      var before, last := order[..|order| - 1], order[|order| - 1];
      DistinctSize(before);
      assert KeysOf(order) == KeysOf(before) + {last};
      assert last !in before;
    }
  }

  lemma {:induction false} CollectableBound(m: Monitors, order: seq<Key>, from: nat)
    requires from <= |order|
    ensures from <= Collectable(m, order, from) <= |order|
    ensures forall k :: from <= k < Collectable(m, order, from) ==> order[k] in m && m[order[k]].Taken?
    ensures var n := Collectable(m, order, from); n < |order| ==> !(order[n] in m && m[order[n]].Taken?)
    decreases |order| - from
  {
    if from < |order| && order[from] in m && m[order[from]].Taken? {
      CollectableBound(m, order, from + 1);
    }
  }

  // ---- Any sequence of calls --------------------------------------------------------------------------

  datatype Call = Get(key: Key) | Start(order: seq<Key>)

  /** The containers, the monitors handed out so far and the handles of every successful start. */
  datatype State = State(monitors: Monitors, given: seq<Key>, starts: seq<seq<Key>>)

  function Next(s: State, call: Call): State {
    match call
    case Get(key) =>
      var (m, monitor) := GetStep(s.monitors, key);
      s.(monitors := m, given := if monitor.Some? then s.given + [monitor.value] else s.given)
    case Start(order) =>
      var (m, handles) := StartStep(s.monitors, order);
      s.(monitors := m, starts := if handles.Some? then s.starts + [handles.value] else s.starts)
  }

  function Exec(s: State, calls: seq<Call>): State {
    if calls == [] then s else Next(Exec(s, calls[..|calls| - 1]), calls[|calls| - 1])
  }

  function Built(keys: set<Key>): State {
    State(map key | key in keys :: Available, [], [])
  }

  /** Every start call meets the containers in some order of the maps. */
  ghost predicate Ordered(keys: set<Key>, calls: seq<Call>) {
    forall i :: 0 <= i < |calls| && calls[i].Start? ==> StartOrder(calls[i].order, Built(keys).monitors)
  }

  /** A start succeeds exactly when every monitor was handed out and no handle is lost, and then it
      collects one handle of each monitor. */
  lemma StartSucceedsIffAllTaken(m: Monitors, order: seq<Key>)
    requires StartOrder(order, m)
    ensures StartStep(m, order).1.Some? <==> forall key :: key in m ==> m[key].Taken?
    ensures StartStep(m, order).1.Some? ==>
              && StartStep(m, order).1 == Some(order) && |order| == |m|
              && forall key :: key in m ==> StartStep(m, order).0[key].Gone?
  {
    CollectableBound(m, order, 0);
    OrderHasEveryMonitor(order, m);
    var n := Collectable(m, order, 0);
    if n == |order| {
      assert order[..n] == order;
      forall key | key in m
        ensures m[key].Taken? && key in order
      {
        assert key in order;
      }
    } else {
      assert order[n] in order;
    }
  }

  /** Nothing comes back: a container never leaves `Gone`, and never becomes available again. */
  lemma ContainersOnlyAdvance(m: Monitors, call: Call, key: Key)
    requires key in m
    ensures var after := Next(State(m, [], []), call).monitors;
            && after.Keys == m.Keys
            && (m[key].Gone? ==> after[key].Gone?)
            && (!m[key].Available? ==> !after[key].Available?)
            && (call.Start? ==> (after[key].Available? <==> m[key].Available?))
  {
    if call.Start? {
      CollectableBound(m, call.order, 0);
    }
  }

  ghost predicate Inv(keys: set<Key>, s: State) {
    && s.monitors.Keys == keys
    && (forall key :: key in s.given <==> key in keys && !s.monitors[key].Available?)
    && NoDuplicates(s.given)
    && (s.starts != [] ==> forall key :: key in keys ==> s.monitors[key].Gone?)
    && |s.starts| <= 1
    && (forall i :: 0 <= i < |s.starts| ==> KeysOf(s.starts[i]) == keys && |s.starts[i]| == |keys|)
  }

  lemma InvGet(keys: set<Key>, s: State, key: Key)
    requires Inv(keys, s)
    ensures Inv(keys, Next(s, Get(key)))
  {
    var t := Next(s, Get(key));
    assert t.monitors.Keys == keys;
    if t.given != s.given {
      assert t.given == s.given + [key] && key !in s.given;
    }
  }

  /** A start hands nothing out and brings nothing back. */
  lemma StartKeeps(m: Monitors, order: seq<Key>)
    ensures var after := StartStep(m, order).0;
            && after.Keys == m.Keys
            && forall key :: key in m ==>
                  (m[key].Gone? ==> after[key].Gone?) && (after[key].Available? <==> m[key].Available?)
  {
    CollectableBound(m, order, 0);
  }

  lemma InvStart(keys: set<Key>, s: State, order: seq<Key>)
    requires keys != {} && Inv(keys, s) && StartOrder(order, s.monitors)
    ensures Inv(keys, Next(s, Start(order)))
  {
    StartKeeps(s.monitors, order);
    StartSucceedsIffAllTaken(s.monitors, order);
    var key :| key in keys;
    assert s.starts != [] ==> s.monitors[key].Gone?;
  }

  lemma InvPreserved(keys: set<Key>, s: State, call: Call)
    requires keys != {} && Inv(keys, s)
    requires call.Start? ==> StartOrder(call.order, Built(keys).monitors)
    ensures Inv(keys, Next(s, call))
  {
    match call
    case Get(key) => InvGet(keys, s, key);
    case Start(order) => InvStart(keys, s, order);
  }

  lemma {:induction false} InvOnRuns(keys: set<Key>, calls: seq<Call>)
    requires keys != {} && Ordered(keys, calls)
    ensures Inv(keys, Exec(Built(keys), calls))
  {
    if calls != [] {
      var before := calls[..|calls| - 1];
      assert forall i :: 0 <= i < |before| ==> before[i] == calls[i];
      InvOnRuns(keys, before);
      InvPreserved(keys, Exec(Built(keys), before), calls[|calls| - 1]);
    }
  }

  /** Over any sequence of calls on a built health monitor, each monitor is handed out at most once,
      a start succeeds at most once, and the successful one collects exactly one handle per
      configured monitor. */
  lemma OwnershipIsConserved(supervisorCycle: nat, internalCycle: nat, keys: set<Key>, calls: seq<Call>)
    requires BuildChecks(supervisorCycle, internalCycle, |keys|).None? && Ordered(keys, calls)
    ensures var s := Exec(Built(keys), calls);
            && NoDuplicates(s.given) && KeysOf(s.given) <= keys
            && |s.starts| <= 1
            && (s.starts != [] ==> KeysOf(s.given) == keys && KeysOf(s.starts[0]) == keys && |s.starts[0]| == |keys|)
  {
    assert keys != {};
    InvOnRuns(keys, calls);
  }

  // ---- A failed start ---------------------------------------------------------------------------------------

  /** Some continuation starts the monitor. */
  ghost predicate CanStillStart(m: Monitors) {
    exists calls :: StartsWithin(m, calls)
  }

  ghost predicate StartsWithin(m: Monitors, calls: seq<Call>) {
    && (forall i :: 0 <= i < |calls| && calls[i].Start? ==> StartOrder(calls[i].order, m))
    && Exec(State(m, [], []), calls).starts != []
  }

  lemma {:induction false} GoneStaysGone(m: Monitors, calls: seq<Call>, key: Key)
    requires key in m && m[key].Gone?
    requires forall i :: 0 <= i < |calls| && calls[i].Start? ==> StartOrder(calls[i].order, m)
    ensures var s := Exec(State(m, [], []), calls); s.monitors.Keys == m.Keys && s.monitors[key].Gone? && s.starts == []
  {
    if calls != [] {
      var before, last := calls[..|calls| - 1], calls[|calls| - 1];
      assert forall i :: 0 <= i < |before| ==> before[i] == calls[i];
      GoneStaysGone(m, before, key);
      var s := Exec(State(m, [], []), before);
      ContainersOnlyAdvance(s.monitors, last, key);
      AllKeysKept(s, last);
      if last.Start? {
        assert StartOrder(last.order, s.monitors);
        StartSucceedsIffAllTaken(s.monitors, last.order);
      }
    }
  }

  lemma AllKeysKept(s: State, call: Call)
    ensures Next(s, call).monitors.Keys == s.monitors.Keys
  {
  }

  function Gets(order: seq<Key>, n: nat): seq<Call>
    requires n <= |order|
  {
    if n == 0 then [] else Gets(order, n - 1) + [Get(order[n - 1])]
  }

  lemma {:induction false} ExecSnoc(s: State, calls: seq<Call>, call: Call)
    ensures Exec(s, calls + [call]) == Next(Exec(s, calls), call)
  {
    assert (calls + [call])[..|calls|] == calls;
  }

  /** Nothing is lost and the first `n` monitors are handed out. */
  ghost predicate TakenUpTo(m: Monitors, order: seq<Key>, n: nat, s: State) {
    && s.monitors.Keys == m.Keys && s.starts == []
    && (forall key :: key in m ==> !s.monitors[key].Gone?)
    && (forall k :: 0 <= k < n && k < |order| ==> order[k] in m && s.monitors[order[k]].Taken?)
  }

  lemma TakeOne(m: Monitors, order: seq<Key>, n: nat, s: State)
    requires KeysOf(order) == m.Keys && n < |order| && TakenUpTo(m, order, n, s)
    ensures TakenUpTo(m, order, n + 1, Next(s, Get(order[n])))
  {
    assert order[n] in KeysOf(order);
    assert Next(s, Get(order[n])).monitors.Keys == m.Keys;
  }

  lemma {:induction false} GetsOnlyGet(order: seq<Key>, n: nat)
    requires n <= |order|
    ensures forall i :: 0 <= i < |Gets(order, n)| ==> Gets(order, n)[i].Get?
  {
    if n > 0 {
      GetsOnlyGet(order, n - 1);
    }
  }

  /** Requests for every key of a list take what is available. */
  lemma {:induction false} TakingAll(m: Monitors, order: seq<Key>, n: nat)
    requires KeysOf(order) == m.Keys && n <= |order|
    requires forall key :: key in m ==> !m[key].Gone?
    ensures TakenUpTo(m, order, n, Exec(State(m, [], []), Gets(order, n)))
  {
    if n > 0 {
      TakingAll(m, order, n - 1);
      ExecSnoc(State(m, [], []), Gets(order, n - 1), Get(order[n - 1]));
      TakeOne(m, order, n - 1, Exec(State(m, [], []), Gets(order, n - 1)));
    }
  }

  lemma LostMeansNever(m: Monitors, key: Key)
    requires key in m && m[key].Gone?
    ensures !CanStillStart(m)
  {
    forall calls: seq<Call>
      ensures !StartsWithin(m, calls)
    {
      if forall i :: 0 <= i < |calls| && calls[i].Start? ==> StartOrder(calls[i].order, m) {
        GoneStaysGone(m, calls, key);
      }
    }
  }

  lemma AllTaken(m: Monitors, order: seq<Key>, s: State)
    requires StartOrder(order, m) && TakenUpTo(m, order, |order|, s)
    ensures StartOrder(order, s.monitors) && forall key :: key in s.monitors ==> s.monitors[key].Taken?
  {
    forall key | key in s.monitors
      ensures s.monitors[key].Taken?
    {
      assert key in KeysOf(order);
    }
  }

  lemma StartsFrom(m: Monitors, order: seq<Key>, s: State)
    requires StartOrder(order, m) && TakenUpTo(m, order, |order|, s)
    ensures Next(s, Start(order)).starts != []
  {
    AllTaken(m, order, s);
    StartSucceedsIffAllTaken(s.monitors, order);
  }

  lemma StartAfterGets(m: Monitors, order: seq<Key>, gets: seq<Call>, s: State)
    requires StartOrder(order, m) && forall i :: 0 <= i < |gets| ==> gets[i].Get?
    requires s == Exec(State(m, [], []), gets) && Next(s, Start(order)).starts != []
    ensures StartsWithin(m, gets + [Start(order)])
  {
    ExecSnoc(State(m, [], []), gets, Start(order));
    var calls := gets + [Start(order)];
    assert forall i :: 0 <= i < |calls| && calls[i].Start? ==> i == |gets| && calls[i].order == order;
  }

  lemma NothingLostMeansPossible(m: Monitors, order: seq<Key>)
    requires StartOrder(order, m) && forall key :: key in m ==> !m[key].Gone?
    ensures CanStillStart(m)
  {
    GetsOnlyGet(order, |order|);
    TakingAll(m, order, |order|);
    var s := Exec(State(m, [], []), Gets(order, |order|));
    StartsFrom(m, order, s);
    StartAfterGets(m, order, Gets(order, |order|), s);
  }

  /** Starting stays possible exactly as long as no handle has been lost. */
  lemma CanStillStartIff(m: Monitors, order: seq<Key>)
    requires StartOrder(order, m)
    ensures CanStillStart(m) <==> forall key :: key in m ==> !m[key].Gone?
  {
    if key :| key in m && m[key].Gone? {
      LostMeansNever(m, key);
    } else {
      NothingLostMeansPossible(m, order);
    }
  }

  /** A start that fails because some monitor was not handed out loses the handles it had already
      collected: the health monitor can be started later exactly when the first container it met was
      not collectable. */
  lemma FirstMetDecides(m: Monitors, order: seq<Key>)
    requires StartOrder(order, m) && (forall key :: key in m ==> !m[key].Gone?)
    requires StartStep(m, order).1.None?
    ensures order != [] && (CanStillStart(StartStep(m, order).0) <==> m[order[0]].Available?)
  {
    CollectableBound(m, order, 0);
    var after := StartStep(m, order).0;
    assert order != [];
    assert order[0] in order && after.Keys == m.Keys;
    assert StartOrder(order, after);
    CanStillStartIff(after, order);
    if m[order[0]].Available? {
      assert after == m;
    } else {
      assert Collectable(m, order, 0) > 0 by { CollectableBound(m, order, 1); }
      assert after[order[0]].Gone?;
    }
  }

  /** The monitor is in the first map that holds any. */
  ghost predicate InFirstMap(m: Monitors, key: Key) {
    key in m && forall other :: other in m ==> Rank(key.kind) <= Rank(other.kind)
  }

  /** Some list of a set of monitors. */
  lemma {:induction false} SomeList(keys: set<Key>) returns (list: seq<Key>)
    ensures KeysOf(list) == keys && NoDuplicates(list)
    decreases keys
  {
    if keys == {} {
      list := [];
    } else {
      var key :| key in keys;
      var rest := SomeList(keys - {key});
      list := [key] + rest;
      Joined([key], rest);
    }
  }

  lemma Joined(a: seq<Key>, b: seq<Key>)
    requires NoDuplicates(a) && NoDuplicates(b) && KeysOf(a) !! KeysOf(b)
    ensures NoDuplicates(a + b) && KeysOf(a + b) == KeysOf(a) + KeysOf(b)
  {
    forall i, j | 0 <= i < j < |a + b|
      ensures (a + b)[i] != (a + b)[j]
    {
      if i < |a| <= j {
        assert a[i] in KeysOf(a) && b[j - |a|] in KeysOf(b);
      }
    }
  }

  lemma JoinedMaps(a: seq<Key>, b: seq<Key>)
    requires MapByMap(a) && MapByMap(b)
    requires forall x, y :: x in KeysOf(a) && y in KeysOf(b) ==> Rank(x.kind) <= Rank(y.kind)
    ensures MapByMap(a + b)
  {
    forall i, j | 0 <= i < j < |a + b|
      ensures Rank((a + b)[i].kind) <= Rank((a + b)[j].kind)
    {
      if i < |a| <= j {
        assert a[i] in KeysOf(a) && b[j - |a|] in KeysOf(b);
      }
    }
  }

  /** Some order of the maps that hold the given monitors. */
  lemma SomeOrder(keys: set<Key>) returns (order: seq<Key>)
    ensures KeysOf(order) == keys && NoDuplicates(order) && MapByMap(order)
  {
    var deadlines := SomeListOf(keys, Deadline);
    var heartbeats := SomeListOf(keys, Heartbeat);
    var logics := SomeListOf(keys, Logic);
    Joined(deadlines, heartbeats);
    JoinedMaps(deadlines, heartbeats);
    var both := deadlines + heartbeats;
    assert KeysOf(both) == OfKind(keys, Deadline) + OfKind(keys, Heartbeat);
    Joined(both, logics);
    JoinedMaps(both, logics);
    order := both + logics;
    assert keys == OfKind(keys, Deadline) + OfKind(keys, Heartbeat) + OfKind(keys, Logic);
  }

  function OfKind(keys: set<Key>, kind: Kind): set<Key> {
    set key | key in keys && key.kind == kind
  }

  lemma SomeListOf(keys: set<Key>, kind: Kind) returns (list: seq<Key>)
    ensures KeysOf(list) == OfKind(keys, kind) && NoDuplicates(list) && MapByMap(list)
  {
    list := SomeList(OfKind(keys, kind));
    OneMap(list, kind);
  }

  lemma OneMap(list: seq<Key>, kind: Kind)
    requires forall key :: key in KeysOf(list) ==> key.kind == kind
    ensures MapByMap(list)
  {
    assert forall i :: 0 <= i < |list| ==> list[i] in KeysOf(list);
  }

  /** Any monitor of the first map can be met first. */
  lemma OrderFrom(m: Monitors, key: Key) returns (order: seq<Key>)
    requires InFirstMap(m, key)
    ensures StartOrder(order, m) && order != [] && order[0] == key
  {
    var rest := SomeOrder(m.Keys - {key});
    Joined([key], rest);
    JoinedMaps([key], rest);
    order := [key] + rest;
  }

  lemma FirstMetIsInFirstMap(m: Monitors, order: seq<Key>)
    requires StartOrder(order, m) && order != []
    ensures InFirstMap(m, order[0])
  {
    assert order[0] in KeysOf(order);
    forall other | other in m
      ensures Rank(order[0].kind) <= Rank(other.kind)
    {
      assert other in KeysOf(order);
      var j :| 0 <= j < |order| && order[j] == other;
    }
  }

  /** The failed start leaves starting possible, whatever the orders of the hash maps. */
  ghost predicate FailureIsHarmless(m: Monitors) {
    forall order :: StartOrder(order, m) ==> CanStillStart(StartStep(m, order).0)
  }

  /** The failed start is final, whatever the orders of the hash maps. */
  ghost predicate FailureIsFinal(m: Monitors) {
    forall order :: StartOrder(order, m) ==> !CanStillStart(StartStep(m, order).0)
  }

  /** What a failed start does, told by the first map that holds any monitor: it is harmless exactly when none of
      them was handed out, and final exactly when all of them were; otherwise it depends on the hash map. */
  lemma FailedStartIffs(m: Monitors)
    requires (forall key :: key in m ==> !m[key].Gone?) && exists key :: key in m && m[key].Available?
    ensures FailureIsHarmless(m) <==> forall key :: InFirstMap(m, key) ==> m[key].Available?
    ensures FailureIsFinal(m) <==> forall key :: InFirstMap(m, key) ==> m[key].Taken?
  {
    forall order | StartOrder(order, m)
      ensures order != [] && InFirstMap(m, order[0])
              && (CanStillStart(StartStep(m, order).0) <==> m[order[0]].Available?)
    {
      StartSucceedsIffAllTaken(m, order);
      FirstMetDecides(m, order);
      FirstMetIsInFirstMap(m, order);
    }
    if key :| InFirstMap(m, key) && !m[key].Available? {
      var order := OrderFrom(m, key);
      assert !CanStillStart(StartStep(m, order).0);
    }
    if key :| InFirstMap(m, key) && !m[key].Taken? {
      var order := OrderFrom(m, key);
      assert CanStillStart(StartStep(m, order).0);
    }
  }

  /** Two deadline monitors of which one was handed out: the outcome is up to the hash map. */
  lemma FailedStartDependsOnOrderExample()
    ensures var m := map[Key(Deadline, "a") := Taken, Key(Deadline, "b") := Available];
            !FailureIsHarmless(m) && !FailureIsFinal(m)
  {
    var m := map[Key(Deadline, "a") := Taken, Key(Deadline, "b") := Available];
    assert Key(Deadline, "b") in m && m[Key(Deadline, "b")].Available?;
    assert InFirstMap(m, Key(Deadline, "a")) && InFirstMap(m, Key(Deadline, "b"));
    FailedStartIffs(m);
  }
}
