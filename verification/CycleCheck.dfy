/** The check for cyclic dependencies between run targets and components: a recursive search with
    two shared ancestor stacks. Its verdict is compared with walks in the dependency graph. */
module CycleCheck {
  import opened Common

  type Name = string

  /** The `depends_on` lists; an absent list is the empty one. */
  datatype Config = Config(components: map<Name, seq<Name>>, runTargets: map<Name, seq<Name>>,
                           fallback: Option<seq<Name>>)

  datatype Id = Component(name: Name) | RunTarget(name: Name)

  datatype Error =
    | Cyclic(path: seq<Name>, target: Name)
    | UnknownComponent(owner: Name, target: Name)
    | UnknownName(target: Name)

  /** A dependency names a component if there is one of that name, and a run target otherwise. */
  function Resolve(config: Config, name: Name): Id {
    if name in config.components then Component(name) else RunTarget(name)
  }

  predicate Known(config: Config, id: Id) {
    match id
    case Component(name) => name in config.components
    case RunTarget(name) => name in config.runTargets
  }

  function Deps(config: Config, id: Id): seq<Name>
    requires Known(config, id)
  {
    match id
    case Component(name) => config.components[name]
    case RunTarget(name) => config.runTargets[name]
  }

  /** The nodes of the graph. */
  function AllIds(config: Config): set<Id> {
    (set name | name in config.components.Keys :: Component(name)) +
    (set name | name in config.runTargets.Keys :: RunTarget(name))
  }

  /** The code reads the list of a component met in its outer loop with an inner loop that admits
      components only, and every other list with the outer loop, which admits run targets too. */
  function NextInner(inner: bool, id: Id): bool {
    !inner && id.Component?
  }

  predicate Allowed(config: Config, inner: bool, name: Name) {
    name in config.components || (!inner && name in config.runTargets)
  }

  // ---- Walks ----------------------------------------------------------------------------------------

  /** A path through known nodes that starts with one of the given dependencies. */
  ghost predicate IsWalk(config: Config, deps: seq<Name>, p: seq<Id>)
    decreases p
  {
    p != [] ==>
      && (exists d :: d in deps && Resolve(config, d) == p[0])
      && Known(config, p[0])
      && IsWalk(config, Deps(config, p[0]), p[1..])
  }

  /** The dependencies at the end of a walk. */
  function DepsAfter(config: Config, deps: seq<Name>, p: seq<Id>): seq<Name>
    decreases p
  {
    if p == [] then deps
    else if !Known(config, p[0]) then []
    else DepsAfter(config, Deps(config, p[0]), p[1..])
  }

  function InnerAfter(inner: bool, p: seq<Id>): bool
    decreases p
  {
    if p == [] then inner else InnerAfter(NextInner(inner, p[0]), p[1..])
  }

  ghost predicate NoRepeats(p: seq<Id>) {
    forall i, j :: 0 <= i < j < |p| ==> p[i] != p[j]
  }

  ghost predicate Disjoint(p: seq<Id>, stack: set<Id>) {
    forall i :: 0 <= i < |p| ==> p[i] !in stack
  }

  /** Every dependency at the end of the walk is admitted there. */
  ghost predicate AllAllowed(config: Config, inner: bool, deps: seq<Name>) {
    forall d :: d in deps ==> Allowed(config, inner, d)
  }

  ghost predicate GoodWalk(config: Config, inner: bool, deps: seq<Name>, stack: set<Id>, p: seq<Id>) {
    NoRepeats(p) && Disjoint(p, stack) && AllAllowed(config, InnerAfter(inner, p), DepsAfter(config, deps, p))
  }

  lemma {:induction false} WalkAppend(config: Config, deps: seq<Name>, p: seq<Id>, q: seq<Id>)
    requires IsWalk(config, deps, p)
    ensures IsWalk(config, deps, p + q) <==> IsWalk(config, DepsAfter(config, deps, p), q)
    decreases p
  {
    if p == [] {
      assert p + q == q;
    } else {
      assert (p + q)[1..] == p[1..] + q;
      WalkAppend(config, Deps(config, p[0]), p[1..], q);
    }
  }

  lemma {:induction false} WalkEndsKnown(config: Config, deps: seq<Name>, p: seq<Id>, i: nat)
    requires IsWalk(config, deps, p) && i < |p|
    ensures Known(config, p[i])
    decreases p
  {
    if i > 0 {
      WalkEndsKnown(config, Deps(config, p[0]), p[1..], i - 1);
    }
  }

  lemma {:induction false} WalkPrefix(config: Config, deps: seq<Name>, p: seq<Id>, i: nat)
    requires IsWalk(config, deps, p) && i <= |p|
    ensures IsWalk(config, deps, p[..i]) && IsWalk(config, DepsAfter(config, deps, p[..i]), p[i..])
    decreases p
  {
    if i > 0 {
      WalkPrefix(config, Deps(config, p[0]), p[1..], i - 1);
      assert p[..i][1..] == p[1..][..i - 1];
      WalkAppend(config, deps, p[..i], p[i..]);
      assert p[..i] + p[i..] == p;
    }
  }

  lemma {:induction false} InnerAfterSnoc(inner: bool, p: seq<Id>, id: Id)
    ensures InnerAfter(inner, p + [id]) == NextInner(InnerAfter(inner, p), id)
    decreases p
  {
    if p != [] {
      assert (p + [id])[1..] == p[1..] + [id];
      InnerAfterSnoc(NextInner(inner, p[0]), p[1..], id);
    }
  }

  // ---- What the search accepts --------------------------------------------------------------------------

  /** The search as a predicate: `stack` holds the nodes being visited. */
  ghost predicate Accepts(config: Config, inner: bool, deps: seq<Name>, stack: set<Id>)
    decreases AllIds(config) - stack
  {
    forall d :: d in deps ==>
      && Allowed(config, inner, d) && Resolve(config, d) !in stack
      && (assert Resolve(config, d) in AllIds(config) - stack;
          Accepts(config, NextInner(inner, Resolve(config, d)), Deps(config, Resolve(config, d)),
                  stack + {Resolve(config, d)}))
  }

  lemma {:induction false} AcceptedWalksAreGood(config: Config, inner: bool, deps: seq<Name>, stack: set<Id>,
                                                p: seq<Id>)
    requires Accepts(config, inner, deps, stack) && IsWalk(config, deps, p)
    ensures GoodWalk(config, inner, deps, stack, p)
    decreases p
  {
    if p != [] {
      var id := p[0];
      AcceptedWalksAreGood(config, NextInner(inner, id), Deps(config, id), stack + {id}, p[1..]);
      assert forall i :: 0 < i < |p| ==> p[i] == p[1..][i - 1];
    }
  }

  lemma {:induction false} GoodWalksAreAccepted(config: Config, inner: bool, deps: seq<Name>, stack: set<Id>)
    requires forall p :: IsWalk(config, deps, p) ==> GoodWalk(config, inner, deps, stack, p)
    ensures Accepts(config, inner, deps, stack)
    decreases AllIds(config) - stack
  {
    assert IsWalk(config, deps, []) && GoodWalk(config, inner, deps, stack, []);
    forall d | d in deps
      ensures Allowed(config, inner, d) && Resolve(config, d) !in stack
      ensures Accepts(config, NextInner(inner, Resolve(config, d)), Deps(config, Resolve(config, d)),
                      stack + {Resolve(config, d)})
    {
      var id := Resolve(config, d);
      assert Allowed(config, inner, d);
      assert [id][1..] == [] && IsWalk(config, deps, [id]);
      assert [id][0] !in stack;
      forall q | IsWalk(config, Deps(config, id), q)
        ensures GoodWalk(config, NextInner(inner, id), Deps(config, id), stack + {id}, q)
      {
        var p := [id] + q;
        assert p[1..] == q && IsWalk(config, deps, p);
        assert GoodWalk(config, inner, deps, stack, p);
        assert forall i :: 0 <= i < |q| ==> q[i] == p[i + 1];
      }
      GoodWalksAreAccepted(config, NextInner(inner, id), Deps(config, id), stack + {id});
    }
  }

  /** The part of the search below one dependency. */
  ghost predicate AcceptsDep(config: Config, inner: bool, d: Name, stack: set<Id>) {
    && Allowed(config, inner, d) && Resolve(config, d) !in stack
    && Accepts(config, NextInner(inner, Resolve(config, d)), Deps(config, Resolve(config, d)),
               stack + {Resolve(config, d)})
  }

  lemma AcceptsIsPerDep(config: Config, inner: bool, deps: seq<Name>, stack: set<Id>)
    ensures Accepts(config, inner, deps, stack) <==> forall d :: d in deps ==> AcceptsDep(config, inner, d, stack)
  {
  }

  ghost predicate AcceptedThrough(config: Config, inner: bool, deps: seq<Name>, i: nat, stack: set<Id>) {
    i <= |deps| && forall k :: 0 <= k < i ==> AcceptsDep(config, inner, deps[k], stack)
  }

  // ---- Reachability ----------------------------------------------------------------------------------------

  ghost predicate Ends(config: Config, deps: seq<Name>, p: seq<Id>, x: Id) {
    IsWalk(config, deps, p) && p != [] && p[|p| - 1] == x
  }

  /** Some walk from these dependencies ends in `x`. */
  ghost predicate Reaches(config: Config, deps: seq<Name>, x: Id) {
    exists p :: Ends(config, deps, p, x)
  }

  ghost predicate ReachesVia(config: Config, d: Name, x: Id) {
    var id := Resolve(config, d);
    Known(config, id) && (id == x || Reaches(config, Deps(config, id), x))
  }

  /** What is reachable from a list is reachable through one of its entries. */
  lemma ReachesIff(config: Config, deps: seq<Name>, x: Id)
    ensures Reaches(config, deps, x) <==> exists d :: d in deps && ReachesVia(config, d, x)
  {
    if p :| Ends(config, deps, p, x) {
      var d :| d in deps && Resolve(config, d) == p[0];
      if |p| > 1 {
        assert Ends(config, Deps(config, p[0]), p[1..], x);
      }
      assert ReachesVia(config, d, x);
    }
    if d :| d in deps && ReachesVia(config, d, x) {
      var id := Resolve(config, d);
      if id == x {
        assert [id][1..] == [];
        assert Ends(config, deps, [id], x);
      } else {
        var q :| Ends(config, Deps(config, id), q, x);
        assert ([id] + q)[1..] == q;
        assert Ends(config, deps, [id] + q, x);
      }
    }
  }

  /** Any node on a walk reaches every later one, and whatever is reachable from there. */
  lemma WalkReaches(config: Config, deps: seq<Name>, p: seq<Id>, i: nat, d: Name)
    requires IsWalk(config, deps, p) && i < |p|
    requires d in DepsAfter(config, deps, p) && Known(config, Resolve(config, d))
    ensures Known(config, p[i]) && Reaches(config, Deps(config, p[i]), Resolve(config, d))
    ensures Reaches(config, deps, p[i])
  {
    var id := Resolve(config, d);
    WalkPrefix(config, deps, p, i + 1);
    WalkEndsKnown(config, deps, p, i);
    DepsAfterLast(config, deps, p[..i + 1]);
    assert Ends(config, deps, p[..i + 1], p[i]);
    var rest := p[i + 1..];
    DepsAfterAppend(config, deps, p[..i + 1], rest);
    assert p[..i + 1] + rest == p;
    assert [id][1..] == [] && IsWalk(config, DepsAfter(config, deps, p), [id]);
    WalkAppend(config, Deps(config, p[i]), rest, [id]);
    assert Ends(config, Deps(config, p[i]), rest + [id], id);
  }

  lemma {:induction false} DepsAfterAppend(config: Config, deps: seq<Name>, p: seq<Id>, q: seq<Id>)
    requires IsWalk(config, deps, p)
    ensures DepsAfter(config, deps, p + q) == DepsAfter(config, DepsAfter(config, deps, p), q)
    decreases p
  {
    if p == [] {
      assert p + q == q;
    } else {
      assert (p + q)[1..] == p[1..] + q;
      DepsAfterAppend(config, Deps(config, p[0]), p[1..], q);
    }
  }

  lemma {:induction false} DepsAfterLast(config: Config, deps: seq<Name>, p: seq<Id>)
    requires IsWalk(config, deps, p) && p != []
    ensures Known(config, p[|p| - 1]) && DepsAfter(config, deps, p) == Deps(config, p[|p| - 1])
    decreases p
  {
    if |p| > 1 {
      DepsAfterLast(config, Deps(config, p[0]), p[1..]);
    }
  }

  // ---- The search --------------------------------------------------------------------------------------------

  function ComponentsOf(trail: seq<Id>): seq<Name> {
    if trail == [] then []
    else
      var before, last := ComponentsOf(trail[..|trail| - 1]), trail[|trail| - 1];
      if last.Component? then before + [last.name] else before
  }

  function RunTargetsOf(trail: seq<Id>): seq<Name> {
    if trail == [] then []
    else
      var before, last := RunTargetsOf(trail[..|trail| - 1]), trail[|trail| - 1];
      if last.RunTarget? then before + [last.name] else before
  }

  lemma {:induction false} StacksHoldTheTrail(trail: seq<Id>, name: Name)
    ensures name in ComponentsOf(trail) <==> Component(name) in trail
    ensures name in RunTargetsOf(trail) <==> RunTarget(name) in trail
  {
    if trail != [] {
      StacksHoldTheTrail(trail[..|trail| - 1], name);
      assert trail == trail[..|trail| - 1] + [trail[|trail| - 1]];
    }
  }

  ghost function Nodes(trail: seq<Id>): set<Id> {
    set id | id in trail
  }

  /** What an error claims is so: a real cycle through the target, reachable from the root; or a
      reachable dependency that is not admitted where it stands. */
  ghost predicate Justified(config: Config, root: seq<Name>, e: Error) {
    match e
    case Cyclic(path, target) =>
      var id := Resolve(config, target);
      target in path && Known(config, id) && Reaches(config, root, id) && Reaches(config, Deps(config, id), id)
    case UnknownComponent(_, target) => Unresolved(config, root, target)
    case UnknownName(target) => Unresolved(config, root, target)
  }

  ghost predicate UnresolvedAfter(config: Config, root: seq<Name>, target: Name, p: seq<Id>) {
    IsWalk(config, root, p) && target in DepsAfter(config, root, p) && !Allowed(config, InnerAfter(false, p), target)
  }

  ghost predicate Unresolved(config: Config, root: seq<Name>, target: Name) {
    exists p :: UnresolvedAfter(config, root, target, p)
  }

  /** Where the search stands: a walk from the root, with the list it is reading. */
  ghost predicate At(config: Config, root: seq<Name>, trail: seq<Id>, inner: bool, deps: seq<Name>) {
    IsWalk(config, root, trail) && deps == DepsAfter(config, root, trail) && inner == InnerAfter(false, trail)
  }

  /** Moving on to an admitted dependency that is not being visited. */
  lemma Descend(config: Config, root: seq<Name>, trail: seq<Id>, inner: bool, deps: seq<Name>, d: Name)
    requires At(config, root, trail, inner, deps) && d in deps && Allowed(config, inner, d)
    ensures var id := Resolve(config, d);
            && Known(config, id)
            && At(config, root, trail + [id], NextInner(inner, id), Deps(config, id))
            && Nodes(trail + [id]) == Nodes(trail) + {id}
            && ComponentsOf(trail + [id]) == ComponentsOf(trail) + (if id.Component? then [d] else [])
            && RunTargetsOf(trail + [id]) == RunTargetsOf(trail) + (if id.RunTarget? then [d] else [])
            && (id !in Nodes(trail) ==> AllIds(config) - Nodes(trail + [id]) < AllIds(config) - Nodes(trail))
  {
    var id := Resolve(config, d);
    assert [id][1..] == [] && IsWalk(config, deps, [id]);
    WalkAppend(config, root, trail, [id]);
    DepsAfterAppend(config, root, trail, [id]);
    InnerAfterSnoc(false, trail, id);
    assert (trail + [id])[..|trail|] == trail;
    assert id in AllIds(config) && id in trail + [id];
  }

  /** Meeting a node that is being visited closes a real cycle. */
  lemma CycleIsReal(config: Config, root: seq<Name>, trail: seq<Id>, inner: bool, deps: seq<Name>, d: Name,
                    path: seq<Name>)
    requires At(config, root, trail, inner, deps) && d in deps && Allowed(config, inner, d) && d in path
    requires Resolve(config, d) in Nodes(trail)
    ensures Justified(config, root, Cyclic(path, d))
  {
    var id := Resolve(config, d);
    var i :| 0 <= i < |trail| && trail[i] == id;
    WalkReaches(config, root, trail, i, d);
  }

  class CycleChecker {
    const config: Config
    var ancestorsRunTargets: seq<Name>
    var ancestorsComponents: seq<Name>

    constructor (config: Config)
      ensures this.config == config && ancestorsRunTargets == [] && ancestorsComponents == []
    {
      this.config := config;
      ancestorsRunTargets := [];
      ancestorsComponents := [];
    }

    /** The two stacks hold the walk being searched. */
    ghost predicate OnTrail(trail: seq<Id>)
      reads this
    {
      ancestorsComponents == ComponentsOf(trail) && ancestorsRunTargets == RunTargetsOf(trail)
    }

    /** `get_process_dependencies` on a `depends_on` list. `root` and `trail` say how the search got
        here. It terminates, restores both stacks on success, succeeds exactly when the search below
        accepts, returns each reachable component once, and raises only justified errors. */
    method GetProcessDependencies(dependsOn: seq<Name>, ghost root: seq<Name>, ghost trail: seq<Id>)
      returns (result: Result<seq<Name>, Error>)
      requires OnTrail(trail) && At(config, root, trail, false, dependsOn)
      modifies this
      ensures result.Ok? ==> OnTrail(trail)
      ensures result.Ok? <==> Accepts(config, false, dependsOn, Nodes(trail))
      ensures result.Ok? ==>
                && (forall i, j :: 0 <= i < j < |result.value| ==> result.value[i] != result.value[j])
                && (forall n :: n in result.value <==> Reaches(config, dependsOn, Component(n)))
      ensures result.Err? ==> Justified(config, root, result.error)
      decreases AllIds(config) - Nodes(trail), 3
    {
      var out := [];
      for i := 0 to |dependsOn|
        invariant OnTrail(trail)
        invariant AcceptedThrough(config, false, dependsOn, i, Nodes(trail))
        invariant ReachedThrough(config, dependsOn, i, out)
      {
        var below := VisitDependency(dependsOn[i], root, trail, dependsOn);
        if below.Err? {
          AcceptsIsPerDep(config, false, dependsOn, Nodes(trail));
          return Err(below.error);
        }
        ReachedSnoc(config, dependsOn, i, out, below.value);
        out := out + below.value;
      }
      ReachedThroughList(config, dependsOn, out);
      AcceptsIsPerDep(config, false, dependsOn, Nodes(trail));
      var unique := RemoveDuplicates(out);
      result := Ok(unique);
    }

    /** The body of the outer loop. */
    method VisitDependency(name: Name, ghost root: seq<Name>, ghost trail: seq<Id>, ghost deps: seq<Name>)
      returns (result: Result<seq<Name>, Error>)
      requires OnTrail(trail) && At(config, root, trail, false, deps) && name in deps
      modifies this
      ensures result.Ok? ==> OnTrail(trail)
      ensures result.Ok? <==> AcceptsDep(config, false, name, Nodes(trail))
      ensures result.Ok? ==> forall n :: n in result.value <==> ReachesVia(config, name, Component(n))
      ensures result.Err? ==> Justified(config, root, result.error)
      decreases AllIds(config) - Nodes(trail), 2
    {
      StacksHoldTheTrail(trail, name);
      if name in config.components {
        if name in ancestorsComponents {
          CycleIsReal(config, root, trail, false, deps, name, ancestorsComponents);
          return Err(Cyclic(ancestorsComponents, name));
        }
        Descend(config, root, trail, false, deps, name);
        ancestorsComponents := ancestorsComponents + [name];
        var below := VisitComponent(name, root, trail + [Component(name)]);
        if below.Err? {
          return Err(below.error);
        }
        result := Ok([name] + below.value);
        ancestorsComponents := ancestorsComponents[..|ancestorsComponents| - 1];
      } else {
        if name !in config.runTargets {
          assert UnresolvedAfter(config, root, name, trail);
          return Err(UnknownName(name));
        }
        if name in ancestorsRunTargets {
          CycleIsReal(config, root, trail, false, deps, name, ancestorsRunTargets);
          return Err(Cyclic(ancestorsRunTargets, name));
        }
        Descend(config, root, trail, false, deps, name);
        ancestorsRunTargets := ancestorsRunTargets + [name];
        var below := GetProcessDependencies(config.runTargets[name], root, trail + [RunTarget(name)]);
        if below.Err? {
          return Err(below.error);
        }
        result := Ok(below.value);
        ancestorsRunTargets := ancestorsRunTargets[..|ancestorsRunTargets| - 1];
      }
    }

    /** The inner loop over the dependencies of a component met in the outer loop. */
    method VisitComponent(name: Name, ghost root: seq<Name>, ghost trail: seq<Id>)
      returns (result: Result<seq<Name>, Error>)
      requires name in config.components && OnTrail(trail) && At(config, root, trail, true, config.components[name])
      modifies this
      ensures result.Ok? ==> OnTrail(trail)
      ensures result.Ok? <==> Accepts(config, true, config.components[name], Nodes(trail))
      ensures result.Ok? ==> forall n :: n in result.value <==> Reaches(config, config.components[name], Component(n))
      ensures result.Err? ==> Justified(config, root, result.error)
      decreases AllIds(config) - Nodes(trail), 1
    {
      var out := [];
      var dependsOn := config.components[name];
      for i := 0 to |dependsOn|
        invariant OnTrail(trail)
        invariant AcceptedThrough(config, true, dependsOn, i, Nodes(trail))
        invariant ReachedThrough(config, dependsOn, i, out)
      {
        var below := VisitComponentDependency(name, dependsOn[i], root, trail, dependsOn);
        if below.Err? {
          AcceptsIsPerDep(config, true, dependsOn, Nodes(trail));
          return Err(below.error);
        }
        ReachedSnoc(config, dependsOn, i, out, below.value);
        out := out + below.value;
      }
      ReachedThroughList(config, dependsOn, out);
      AcceptsIsPerDep(config, true, dependsOn, Nodes(trail));
      result := Ok(out);
    }

    /** The body of the inner loop. */
    method VisitComponentDependency(owner: Name, dep: Name, ghost root: seq<Name>, ghost trail: seq<Id>,
                                    ghost deps: seq<Name>)
      returns (result: Result<seq<Name>, Error>)
      requires OnTrail(trail) && At(config, root, trail, true, deps) && dep in deps
      modifies this
      ensures result.Ok? ==> OnTrail(trail)
      ensures result.Ok? <==> AcceptsDep(config, true, dep, Nodes(trail))
      ensures result.Ok? ==> forall n :: n in result.value <==> ReachesVia(config, dep, Component(n))
      ensures result.Err? ==> Justified(config, root, result.error)
      decreases AllIds(config) - Nodes(trail), 0
    {
      StacksHoldTheTrail(trail, dep);
      if dep !in config.components {
        assert UnresolvedAfter(config, root, dep, trail);
        return Err(UnknownComponent(owner, dep));
      }
      if dep in ancestorsComponents {
        CycleIsReal(config, root, trail, true, deps, dep, ancestorsComponents);
        return Err(Cyclic(ancestorsComponents, dep));
      }
      Descend(config, root, trail, true, deps, dep);
      ancestorsComponents := ancestorsComponents + [dep];
      var below := GetProcessDependencies(config.components[dep], root, trail + [Component(dep)]);
      if below.Err? {
        return Err(below.error);
      }
      result := Ok([dep] + below.value);
      ancestorsComponents := ancestorsComponents[..|ancestorsComponents| - 1];
    }
  }

  /** The names are the components reachable through the first `i` dependencies. */
  ghost predicate ReachedThrough(config: Config, deps: seq<Name>, i: nat, out: seq<Name>) {
    i <= |deps| && forall n :: n in out <==> exists k :: 0 <= k < i && ReachesVia(config, deps[k], Component(n))
  }

  lemma ReachedSnoc(config: Config, deps: seq<Name>, i: nat, out: seq<Name>, below: seq<Name>)
    requires i < |deps| && ReachedThrough(config, deps, i, out)
    requires forall n :: n in below <==> ReachesVia(config, deps[i], Component(n))
    ensures ReachedThrough(config, deps, i + 1, out + below)
  {
  }

  lemma ReachedThroughList(config: Config, deps: seq<Name>, out: seq<Name>)
    requires ReachedThrough(config, deps, |deps|, out)
    ensures forall n :: n in out <==> Reaches(config, deps, Component(n))
  {
    forall n
      ensures n in out <==> Reaches(config, deps, Component(n))
    {
      ReachesIff(config, deps, Component(n));
    }
  }

  /** `list(set(out))`: some list with the same elements, each once. */
  method RemoveDuplicates(names: seq<Name>) returns (unique: seq<Name>)
    ensures forall n :: n in unique <==> n in names
    ensures forall i, j :: 0 <= i < j < |unique| ==> unique[i] != unique[j]
  {
    unique := [];
    for i := 0 to |names|
      invariant forall n :: n in unique <==> n in names[..i]
      invariant forall i, j :: 0 <= i < j < |unique| ==> unique[i] != unique[j]
    {
      if names[i] !in unique {
        unique := unique + [names[i]];
      }
    }
  }

  /** `check_cyclic_dependencies`: the search from every run target, in any order, and from the
      fallback. */
  method CheckCyclicDependencies(config: Config) returns (error: Option<Error>)
    ensures error.None? <==> forall root :: IsRoot(config, root) ==> Accepts(config, false, root, {})
    ensures error.Some? ==> exists root :: IsRoot(config, root) && Justified(config, root, error.value)
  {
    var todo := config.runTargets.Keys;
    while todo != {}
      invariant todo <= config.runTargets.Keys
      invariant forall name :: name in config.runTargets && name !in todo ==>
                  Accepts(config, false, config.runTargets[name], {})
    {
      var name :| name in todo;
      error := CheckRoot(config, config.runTargets[name]);
      if error.Some? {
        return;
      }
      todo := todo - {name};
    }
    error := None;
    if config.fallback.Some? {
      error := CheckRoot(config, config.fallback.value);
    }
  }

  method CheckRoot(config: Config, root: seq<Name>) returns (error: Option<Error>)
    ensures error.None? <==> Accepts(config, false, root, {})
    ensures error.Some? ==> Justified(config, root, error.value)
  {
    var checker := new CycleChecker(config);
    var result := checker.GetProcessDependencies(root, root, []);
    assert Nodes([]) == {};
    error := match result case Ok(_) => None case Err(e) => Some(e);
  }

  /** The dependency lists the check starts from. */
  ghost predicate IsRoot(config: Config, root: seq<Name>) {
    (exists name :: name in config.runTargets && config.runTargets[name] == root) || config.fallback == Some(root)
  }

  // ---- What acceptance means -------------------------------------------------------------------------------

  /** Every dependency reachable from the root is admitted where it stands. */
  ghost predicate Resolved(config: Config, root: seq<Name>) {
    forall p :: IsWalk(config, root, p) ==> AllAllowed(config, InnerAfter(false, p), DepsAfter(config, root, p))
  }

  /** No walk from the root visits a node twice. */
  ghost predicate Acyclic(config: Config, root: seq<Name>) {
    forall p :: IsWalk(config, root, p) ==> NoRepeats(p)
  }

  /** The search accepts exactly the resolved acyclic dependencies, diamonds included. */
  lemma AcceptsIffResolvedAndAcyclic(config: Config, root: seq<Name>)
    ensures Accepts(config, false, root, {}) <==> Resolved(config, root) && Acyclic(config, root)
  {
    if Accepts(config, false, root, {}) {
      forall p | IsWalk(config, root, p)
        ensures NoRepeats(p) && AllAllowed(config, InnerAfter(false, p), DepsAfter(config, root, p))
      {
        AcceptedWalksAreGood(config, false, root, {}, p);
      }
    }
    if Resolved(config, root) && Acyclic(config, root) {
      assert forall p :: IsWalk(config, root, p) ==> GoodWalk(config, false, root, {}, p);
      GoodWalksAreAccepted(config, false, root, {});
    }
  }

  /** Every name reachable from the root exists. */
  ghost predicate AllKnown(config: Config, root: seq<Name>) {
    forall p, d :: IsWalk(config, root, p) && d in DepsAfter(config, root, p) ==> Known(config, Resolve(config, d))
  }

  /** The number of components at the end of a walk, since its last run target or its beginning. */
  function Trailing(p: seq<Id>): nat {
    if p == [] || p[|p| - 1].RunTarget? then 0 else Trailing(p[..|p| - 1]) + 1
  }

  /** The inner loop reads the lists at odd levels of components. */
  lemma {:induction false} InnerAtOddLevels(p: seq<Id>)
    ensures InnerAfter(false, p) <==> Trailing(p) % 2 == 1
  {
    if p != [] {
      InnerAtOddLevels(p[..|p| - 1]);
      InnerAfterSnoc(false, p[..|p| - 1], p[|p| - 1]);
      assert p[..|p| - 1] + [p[|p| - 1]] == p;
    }
  }

  /** The rule that components depend on components only, at the components of some level below the root: `odd`
      for the first, third and so on of consecutive components, otherwise for the second, fourth and so on. */
  ghost predicate RuleAt(config: Config, root: seq<Name>, odd: bool) {
    forall p, d ::
      IsWalk(config, root, p) && d in DepsAfter(config, root, p) && Trailing(p) > 0
      && (Trailing(p) % 2 == 1 <==> odd) ==>
      d in config.components
  }

  lemma ResolvedIffKnownAndRule(config: Config, root: seq<Name>)
    ensures Resolved(config, root) <==> AllKnown(config, root) && RuleAt(config, root, true)
  {
    forall p, d | IsWalk(config, root, p) && d in DepsAfter(config, root, p)
      ensures Allowed(config, InnerAfter(false, p), d) <==>
                Known(config, Resolve(config, d)) && (Trailing(p) % 2 == 1 ==> d in config.components)
    {
      InnerAtOddLevels(p);
    }
    if Resolved(config, root) {
      forall p, d | IsWalk(config, root, p) && d in DepsAfter(config, root, p)
        ensures Known(config, Resolve(config, d)) && (Trailing(p) % 2 == 1 ==> d in config.components)
      {
        assert AllAllowed(config, InnerAfter(false, p), DepsAfter(config, root, p));
      }
    }
    if AllKnown(config, root) && RuleAt(config, root, true) {
      forall p | IsWalk(config, root, p)
        ensures AllAllowed(config, InnerAfter(false, p), DepsAfter(config, root, p))
      {
        assert forall d :: d in DepsAfter(config, root, p) ==> Known(config, Resolve(config, d));
      }
    }
  }

  /** The search accepts exactly the roots from which every reachable name exists, no walk repeats a node, and no
      component at an odd level depends on a run target. */
  lemma AcceptsIffRuleAtOddLevels(config: Config, root: seq<Name>)
    ensures Accepts(config, false, root, {}) <==>
              AllKnown(config, root) && Acyclic(config, root) && RuleAt(config, root, true)
  {
    AcceptsIffResolvedAndAcyclic(config, root);
    ResolvedIffKnownAndRule(config, root);
  }

  /** No component depends on a run target. */
  ghost predicate ComponentsAvoidRunTargets(config: Config) {
    forall c, d :: c in config.components && d in config.components[c] ==>
        d in config.components || d !in config.runTargets
  }

  /** If no component depends on a run target, the search accepts exactly the roots from which every reachable name
      exists and no walk repeats a node. */
  lemma AcceptsIffKnownAndAcyclic(config: Config, root: seq<Name>)
    requires ComponentsAvoidRunTargets(config)
    ensures Accepts(config, false, root, {}) <==> AllKnown(config, root) && Acyclic(config, root)
  {
    AcceptsIffRuleAtOddLevels(config, root);
    if AllKnown(config, root) {
      forall p, d | IsWalk(config, root, p) && d in DepsAfter(config, root, p) && Trailing(p) > 0
        ensures d in config.components
      {
        DepsAfterLast(config, root, p);
        assert Known(config, Resolve(config, d));
      }
    }
  }

  /** The number of nodes below a node. */
  ghost function Rank(config: Config, id: Id): nat
    requires Known(config, id)
  {
    |Below(config, id)|
  }

  ghost function Below(config: Config, id: Id): set<Id>
    requires Known(config, id)
  {
    set x | x in AllIds(config) && Reaches(config, Deps(config, id), x)
  }

  /** Acceptance gives every reachable node a rank that strictly decreases along dependencies. */
  lemma RankDecreases(config: Config, root: seq<Name>, id: Id, d: Name)
    requires Accepts(config, false, root, {}) && Reaches(config, root, id)
    requires Known(config, id) && d in Deps(config, id)
    ensures Known(config, Resolve(config, d)) && Rank(config, Resolve(config, d)) < Rank(config, id)
  {
    AcceptsIffResolvedAndAcyclic(config, root);
    var p :| Ends(config, root, p, id);
    DepsAfterLast(config, root, p);
    var next := Resolve(config, d);
    assert Allowed(config, InnerAfter(false, p), d);
    assert Known(config, next);
    NotBelowItself(config, root, p, d);
    BelowShrinks(config, id, d);
    StrictSubsetIsSmaller(Below(config, next), Below(config, id), next);
  }

  /** A walk that returns to a node repeats it. */
  lemma ReturningWalkRepeats(config: Config, root: seq<Name>, p: seq<Id>, d: Name, q: seq<Id>)
    requires IsWalk(config, root, p) && d in DepsAfter(config, root, p) && Known(config, Resolve(config, d))
    requires Ends(config, Deps(config, Resolve(config, d)), q, Resolve(config, d))
    ensures IsWalk(config, root, p + [Resolve(config, d)] + q) && !NoRepeats(p + [Resolve(config, d)] + q)
  {
    var r := [Resolve(config, d)] + q;
    var w := p + [Resolve(config, d)] + q;
    assert w == p + r && r[1..] == q && IsWalk(config, DepsAfter(config, root, p), r);
    WalkAppend(config, root, p, r);
    assert w[|p|] == r[0] && w[|p| + |q|] == r[|q|];
  }

  lemma NotBelowItself(config: Config, root: seq<Name>, p: seq<Id>, d: Name)
    requires IsWalk(config, root, p) && d in DepsAfter(config, root, p) && Known(config, Resolve(config, d))
    requires Acyclic(config, root)
    ensures !Reaches(config, Deps(config, Resolve(config, d)), Resolve(config, d))
  {
    if q :| Ends(config, Deps(config, Resolve(config, d)), q, Resolve(config, d)) {
      ReturningWalkRepeats(config, root, p, d, q);
    }
  }

  lemma BelowShrinks(config: Config, id: Id, d: Name)
    requires Known(config, id) && d in Deps(config, id) && Known(config, Resolve(config, d))
    ensures Below(config, Resolve(config, d)) <= Below(config, id) && Resolve(config, d) in Below(config, id)
  {
    var next := Resolve(config, d);
    forall x | x in Below(config, next)
      ensures x in Below(config, id)
    {
      assert ReachesVia(config, d, x);
      ReachesIff(config, Deps(config, id), x);
    }
    assert ReachesVia(config, d, next);
    ReachesIff(config, Deps(config, id), next);
  }

  lemma StrictSubsetIsSmaller(small: set<Id>, large: set<Id>, witness_: Id)
    requires small <= large && witness_ in large && witness_ !in small
    ensures |small| < |large|
  {
    assert large == small + (large - small) && witness_ in large - small;
    assert |large| == |small| + |large - small|;
  }

  /** The inner loop looks at every second level only: a component that depends on a run target is
      accepted one level down and rejected one level up. */
  lemma RunTargetBelowComponentExample() returns (config: Config)
    ensures Accepts(config, false, ["a"], {}) && !Accepts(config, false, ["b"], {})
  {
    config := Config(map["a" := ["b"], "b" := ["r"]], map["r" := []], None);
    var a, b, r := Component("a"), Component("b"), RunTarget("r");
    assert a != b by { assert "a"[0] != "b"[0]; }
    assert "r" !in config.components by { assert "r"[0] != "a"[0] && "r"[0] != "b"[0]; }
    assert Accepts(config, false, [], {a} + {b} + {r});
    assert AcceptsDep(config, false, "r", {a} + {b});
    AcceptsIsPerDep(config, false, ["r"], {a} + {b});
    assert AcceptsDep(config, true, "b", {a});
    AcceptsIsPerDep(config, true, ["b"], {a});
    assert {} + {a} == {a};
    assert AcceptsDep(config, false, "a", {});
    AcceptsIsPerDep(config, false, ["a"], {});

    assert "r" in ["r"] && !Allowed(config, true, "r");
    assert !Accepts(config, true, ["r"], {} + {b});
    assert "b" in ["b"] && !AcceptsDep(config, false, "b", {});
    AcceptsIsPerDep(config, false, ["b"], {});
  }
}
