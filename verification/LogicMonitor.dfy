/** Logic monitor: the packed word | current state index: 56 bits | monitor status: 8 bits |, the
    builder that numbers the states of a graph in hash-map order, the object that walks it, and
    the proof that the walk is a walk in the builder's graph. Words are naturals below 2^64; masks
    and shifts are written as remainders and quotients. */
module LogicMonitor {
  import opened Common

  type Tag = string
  type Word = w: nat | w < 0x1_0000_0000_0000_0000
  type U56 = n: nat | n < 0x100_0000_0000_0000

  datatype EvaluationError = InvalidState | InvalidTransition | UnmappedError
  datatype BuildError = WrongState | InvalidArgument

  function Code(e: EvaluationError): nat {
    match e
    case InvalidState => 1
    case InvalidTransition => 2
    case UnmappedError => 3
  }

  function CurrentStateIndex(w: Word): U56 {
    w / 256
  }

  function SetCurrentStateIndex(w: Word, value: U56): Word {
    value * 256 + w % 256
  }

  /** `None` if healthy. */
  function MonitorStatus(w: Word): Option<EvaluationError> {
    if w % 256 == 0 then None
    else if w % 256 == 1 then Some(InvalidState)
    else if w % 256 == 2 then Some(InvalidTransition)
    else Some(UnmappedError)
  }

  function SetMonitorStatus(w: Word, e: EvaluationError): Word {
    w / 256 * 256 + Code(e)
  }

  /** Each setter is read back by its own getter and leaves the other field alone. */
  lemma FieldsReadBack(w: Word, index: U56, e: EvaluationError)
    ensures CurrentStateIndex(SetCurrentStateIndex(w, index)) == index
    ensures MonitorStatus(SetCurrentStateIndex(w, index)) == MonitorStatus(w)
    ensures MonitorStatus(SetMonitorStatus(w, e)) == Some(e)
    ensures CurrentStateIndex(SetMonitorStatus(w, e)) == CurrentStateIndex(w)
  {
  }

  type Graph = map<Tag, seq<Tag>>

  datatype StateNode = StateNode(tag: Tag, allowedTargets: seq<Tag>)

  /** Every transition leads to a defined state. */
  ghost predicate Closed(graph: Graph) {
    forall s, t :: s in graph && t in graph[s] ==> t in graph
  }

  /** The node vector is the graph, in iteration order. */
  ghost predicate Represents(nodes: seq<StateNode>, order: seq<Tag>, graph: Graph) {
    && |nodes| == |order|
    && forall i :: 0 <= i < |order| ==> order[i] in graph && nodes[i] == StateNode(order[i], graph[order[i]])
  }

  /** Checks and converts the builder's graph, iterated in any order. It accepts exactly the
      non-empty closed graphs with a defined initial state. */
  method Build(initialState: Tag, graph: Graph, order: seq<Tag>)
    returns (result: Result<(nat, seq<StateNode>), BuildError>)
    requires IterationOrder(order, graph)
    ensures graph == map[] <==> result == Err(WrongState)
    ensures result.Ok? <==> graph != map[] && Closed(graph) && initialState in graph
    ensures result.Ok? ==>
              var (index, nodes) := result.value;
              && Represents(nodes, order, graph)
              && index < |nodes| && nodes[index].tag == initialState
  {
    if |graph| == 0 {
      return Err(WrongState);
    }
    for i := 0 to |order|
      invariant forall k, t :: 0 <= k < i && t in graph[order[k]] ==> t in graph
    {
      var targets := graph[order[i]];
      for j := 0 to |targets|
        invariant forall k :: 0 <= k < j ==> targets[k] in graph
      {
        if targets[j] !in graph {
          assert targets[j] in graph[order[i]];
          return Err(InvalidArgument);
        }
      }
    }
    var nodes := [];
    for i := 0 to |order|
      invariant Represents(nodes, order[..i], graph)
    {
      nodes := nodes + [StateNode(order[i], graph[order[i]])];
    }
    var found: Option<nat> := None;
    for index := 0 to |nodes|
      invariant found.Some? ==> found.value < index && nodes[found.value].tag == initialState
      invariant found.None? ==> forall k :: 0 <= k < index ==> nodes[k].tag != initialState
    {
      if nodes[index].tag == initialState {
        found := Some(index);
      }
    }
    assert order[..|order|] == order;
    match found
    case Some(index) => result := Ok((index, nodes));
    case None =>
      assert forall k :: 0 <= k < |order| ==> nodes[k].tag == order[k];
      result := Err(InvalidArgument);
  }

  /** The first node with a tag, from position `from` on. */
  function FirstIndex(nodes: seq<StateNode>, tag: Tag, from: nat): Option<nat>
    requires from <= |nodes|
    decreases |nodes| - from
  {
    if from == |nodes| then None
    else if nodes[from].tag == tag then Some(from)
    else FirstIndex(nodes, tag, from + 1)
  }

  lemma {:induction false} FirstIndexFinds(nodes: seq<StateNode>, tag: Tag, from: nat)
    requires from <= |nodes|
    ensures match FirstIndex(nodes, tag, from)
            case Some(i) => from <= i < |nodes| && nodes[i].tag == tag
            case None => forall i :: from <= i < |nodes| ==> nodes[i].tag != tag
    decreases |nodes| - from
  {
    if from < |nodes| && nodes[from].tag != tag {
      FirstIndexFinds(nodes, tag, from + 1);
    }
  }

  /** `state` on a word. */
  function StateOf(nodes: seq<StateNode>, w: Word): Result<Tag, EvaluationError> {
    if MonitorStatus(w).Some? then Err(InvalidState)
    else if CurrentStateIndex(w) < |nodes| then Ok(nodes[CurrentStateIndex(w)].tag)
    else Err(InvalidState)
  }

  /** `transition` on a word: the new word and the result. */
  function TransitionOf(nodes: seq<StateNode>, w: Word, target: Tag): (Word, Result<Tag, EvaluationError>)
    requires |nodes| <= 0x100_0000_0000_0000  // indices fit in 56 bits
  {
    if MonitorStatus(w).Some? then (w, Err(InvalidState))
    else if CurrentStateIndex(w) >= |nodes| then (w, Err(InvalidState))
    else if target !in nodes[CurrentStateIndex(w)].allowedTargets then
      (SetMonitorStatus(w, InvalidTransition), Err(InvalidTransition))
    else
      match FirstIndex(nodes, target, 0)
      case None => (w, Err(InvalidState))
      case Some(index) =>
        FirstIndexFinds(nodes, target, 0);
        (SetCurrentStateIndex(w, index), Ok(target))
  }

  // ---- Walks ------------------------------------------------------------------------------

  /** The state a walk ends in. */
  function Current(initial: Tag, requests: seq<Tag>): Tag {
    if requests == [] then initial else requests[|requests| - 1]
  }

  function Before(initial: Tag, requests: seq<Tag>, i: nat): Tag
    requires i <= |requests|
  {
    if i == 0 then initial else requests[i - 1]
  }

  /** The requests form a path of the graph from the initial state. */
  predicate IsPath(graph: Graph, initial: Tag, requests: seq<Tag>) {
    forall i :: 0 <= i < |requests| ==>
      Before(initial, requests, i) in graph && requests[i] in graph[Before(initial, requests, i)]
  }

  /** The word after a sequence of transition requests. */
  function Exec(nodes: seq<StateNode>, index: U56, requests: seq<Tag>): Word
    requires |nodes| <= 0x100_0000_0000_0000
  {
    if requests == [] then SetCurrentStateIndex(0, index)
    else TransitionOf(nodes, Exec(nodes, index, requests[..|requests| - 1]), requests[|requests| - 1]).0
  }

  lemma PathSnoc(graph: Graph, initial: Tag, requests: seq<Tag>, target: Tag)
    ensures IsPath(graph, initial, requests + [target]) <==>
              && IsPath(graph, initial, requests)
              && Current(initial, requests) in graph && target in graph[Current(initial, requests)]
  {
    var all := requests + [target];
    assert all[|requests|] == target && Before(initial, all, |requests|) == Current(initial, requests);
    assert forall i :: 0 <= i < |requests| ==>
             all[i] == requests[i] && Before(initial, all, i) == Before(initial, requests, i);
  }

  /** One transition keeps the word in step with the walk. */
  lemma TransitionFollowsWalk(graph: Graph, order: seq<Tag>, nodes: seq<StateNode>, initial: Tag,
                              requests: seq<Tag>, w: Word, target: Tag)
    requires IterationOrder(order, graph) && Closed(graph) && Represents(nodes, order, graph)
    requires |nodes| <= 0x100_0000_0000_0000 && InStep(graph, nodes, initial, requests, w)
    ensures var (next, result) := TransitionOf(nodes, w, target);
            && InStep(graph, nodes, initial, requests + [target], next)
            && (IsPath(graph, initial, requests + [target]) <==> result == Ok(target))
            && (IsPath(graph, initial, requests + [target]) <==> result.Ok?)
            && (!IsPath(graph, initial, requests) ==> result == Err(InvalidState) && next == w)
  {
    PathSnoc(graph, initial, requests, target);
    FirstIndexFinds(nodes, target, 0);
    if IsPath(graph, initial, requests) {
      var index := CurrentStateIndex(w);
      assert nodes[index].allowedTargets == graph[Current(initial, requests)];
      FieldsReadBack(w, index, InvalidTransition);
      if target in nodes[index].allowedTargets {
        assert target in order;
        var k :| 0 <= k < |order| && order[k] == target;
        assert nodes[k].tag == target;
        FieldsReadBack(w, FirstIndex(nodes, target, 0).value, InvalidTransition);
      }
    }
  }

  /** The word is healthy and holds the current state while the requests form a path, and holds
      `InvalidTransition` with an index in range otherwise. */
  ghost predicate InStep(graph: Graph, nodes: seq<StateNode>, initial: Tag, requests: seq<Tag>, w: Word) {
    && CurrentStateIndex(w) < |nodes|
    && if IsPath(graph, initial, requests)
       then MonitorStatus(w).None? && nodes[CurrentStateIndex(w)].tag == Current(initial, requests)
       else MonitorStatus(w) == Some(InvalidTransition)
  }

  lemma {:induction false} WordFollowsWalk(graph: Graph, order: seq<Tag>, nodes: seq<StateNode>, initial: Tag,
                                           index: U56, requests: seq<Tag>)
    requires IterationOrder(order, graph) && Closed(graph) && Represents(nodes, order, graph)
    requires |nodes| <= 0x100_0000_0000_0000 && index < |nodes| && nodes[index].tag == initial
    ensures InStep(graph, nodes, initial, requests, Exec(nodes, index, requests))
  {
    if requests == [] {
      FieldsReadBack(0, index, InvalidState);
    } else {
      var before, last := requests[..|requests| - 1], requests[|requests| - 1];
      WordFollowsWalk(graph, order, nodes, initial, index, before);
      TransitionFollowsWalk(graph, order, nodes, initial, before, Exec(nodes, index, before), last);
      assert requests == before + [last];
    }
  }

  /** The monitor refines the builder's graph, for any hash-map order and any requests. The index
      stays in range; `state` returns the last requested state exactly when the requests form a
      path; otherwise `state` and every later transition fail and every evaluation reports the
      invalid transition. A lookup of an allowed target never fails. */
  lemma MonitorRefinesGraph(graph: Graph, order: seq<Tag>, nodes: seq<StateNode>, initial: Tag,
                            index: U56, requests: seq<Tag>, target: Tag)
    requires IterationOrder(order, graph) && Closed(graph) && Represents(nodes, order, graph)
    requires |nodes| <= 0x100_0000_0000_0000 && index < |nodes| && nodes[index].tag == initial
    ensures var w := Exec(nodes, index, requests);
            var (next, result) := TransitionOf(nodes, w, target);
            && CurrentStateIndex(w) < |nodes|
            && (IsPath(graph, initial, requests) <==> StateOf(nodes, w) == Ok(Current(initial, requests)))
            && (IsPath(graph, initial, requests) <==> MonitorStatus(w).None?)
            && (IsPath(graph, initial, requests + [target]) <==> result == Ok(target))
            && (IsPath(graph, initial, requests) && result.Err? ==> result == Err(InvalidTransition))
            && (!IsPath(graph, initial, requests) ==>
                  && StateOf(nodes, w) == Err(InvalidState)
                  && result == Err(InvalidState) && next == w
                  && MonitorStatus(w) == Some(InvalidTransition))
  {
    WordFollowsWalk(graph, order, nodes, initial, index, requests);
    TransitionFollowsWalk(graph, order, nodes, initial, requests, Exec(nodes, index, requests), target);
  }

  // ---- The monitor ------------------------------------------------------------------------

  class LogicMonitorInner {
    const stateGraph: seq<StateNode>
    var logicState: Word

    // The builder's graph, and the transitions requested so far.
    ghost const graph: Graph
    ghost const order: seq<Tag>
    ghost const initial: Tag
    ghost var requests: seq<Tag>

    /** The nodes are the graph, and the word is in step with the requests. */
    ghost predicate Valid()
      reads this
    {
      && IterationOrder(order, graph) && Closed(graph) && Represents(stateGraph, order, graph)
      && |stateGraph| <= 0x100_0000_0000_0000 && InStep(graph, stateGraph, initial, requests, logicState)
    }

    constructor (initialStateIndex: U56, stateGraph: seq<StateNode>, ghost graph: Graph, ghost order: seq<Tag>,
                 ghost initial: Tag)
      requires IterationOrder(order, graph) && Closed(graph) && Represents(stateGraph, order, graph)
      requires |stateGraph| <= 0x100_0000_0000_0000
      requires initialStateIndex < |stateGraph| && stateGraph[initialStateIndex].tag == initial
      ensures Valid() && this.stateGraph == stateGraph && logicState == SetCurrentStateIndex(0, initialStateIndex)
      ensures this.graph == graph && this.initial == initial && requests == []
    {
      this.stateGraph, this.graph, this.order, this.initial := stateGraph, graph, order, initial;
      logicState, requests := SetCurrentStateIndex(0, initialStateIndex), [];
      FieldsReadBack(0, initialStateIndex, InvalidState);
    }

    method FindIndexByTag(tag: Tag) returns (result: Result<nat, EvaluationError>)
      ensures result == match FirstIndex(stateGraph, tag, 0) case Some(i) => Ok(i) case None => Err(InvalidState)
    {
      for index := 0 to |stateGraph|
        invariant FirstIndex(stateGraph, tag, 0) == FirstIndex(stateGraph, tag, index)
      {
        if stateGraph[index].tag == tag {
          return Ok(index);
        }
      }
      result := Err(InvalidState);
    }

    /** Follows the graph, or marks the word for good. */
    method Transition(target: Tag) returns (result: Result<Tag, EvaluationError>)
      requires Valid()
      modifies this`logicState, this`requests
      ensures Valid() && requests == old(requests) + [target]
      ensures (logicState, result) == TransitionOf(stateGraph, old(logicState), target)
      ensures result == if IsPath(graph, initial, requests) then Ok(target)
                        else if IsPath(graph, initial, old(requests)) then Err(InvalidTransition) else Err(InvalidState)
    {
      TransitionFollowsWalk(graph, order, stateGraph, initial, requests, logicState, target);
      requests := requests + [target];
      var snapshot := logicState;
      if MonitorStatus(snapshot).Some? {
        return Err(InvalidState);
      }
      var current := CurrentStateIndex(snapshot);
      if current >= |stateGraph| {
        return Err(InvalidState);
      }
      if target !in stateGraph[current].allowedTargets {
        snapshot := SetMonitorStatus(snapshot, InvalidTransition);
        logicState := snapshot;
        return Err(InvalidTransition);
      }
      var index := FindIndexByTag(target);
      FirstIndexFinds(stateGraph, target, 0);
      if index.Err? {
        return Err(InvalidState);  // the error of a failed lookup
      }
      snapshot := SetCurrentStateIndex(snapshot, index.value);
      logicState := snapshot;
      result := Ok(target);
    }

    /** The last requested state, exactly when all requests so far form a path. */
    method State() returns (result: Result<Tag, EvaluationError>)
      requires Valid()
      ensures result == if IsPath(graph, initial, requests) then Ok(Current(initial, requests)) else Err(InvalidState)
    {
      var snapshot := logicState;
      if MonitorStatus(snapshot).Some? {
        return Err(InvalidState);
      }
      var index := CurrentStateIndex(snapshot);
      if index < |stateGraph| {
        result := Ok(stateGraph[index].tag);
      } else {
        result := Err(InvalidState);
      }
    }

    /** Reports an invalid transition exactly when the requests so far have left the graph. */
    method Evaluate() returns (error: Option<EvaluationError>)
      requires Valid()
      ensures error == if IsPath(graph, initial, requests) then None else Some(InvalidTransition)
    {
      error := MonitorStatus(logicState);
    }
  }
}
