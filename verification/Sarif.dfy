/** Normalisation of one SARIF run: the rule and artifact tables are sorted and every index into
    them is rewritten. A run is split into its rules, its artifacts, the rule references of its
    results, and everything else. */
module Sarif {
  import opened Common
  import opened Json
  import opened SarifOrder

  /** A result: its `ruleIndex`, the `index` of its `rule` reference, and all its other content. */
  datatype Finding = Finding(ruleIndex: Option<int>, referenceIndex: Option<int>, body: Json)

  /** A run; `rest` is all content outside the rules, the artifacts and the results. */
  datatype Run = Run(rules: seq<Json>, artifacts: seq<Json>, results: seq<Finding>, rest: Json)

  type IndexMap = map<int, int>

  /** A value Python treats as true. */
  predicate Truthy(v: Json) {
    match v
    case Null => false
    case Bool(truth) => truth
    case Num(number) => number != 0
    case Str(text) => text != ""
    case Arr(items) => items != []
    case Obj(fields) => fields != map[]
  }

  predicate HasUri(fields: Dict) {
    "uri" in fields && Truthy(fields["uri"])
  }

  function MapIndex(v: Json, m: IndexMap): Json {
    if v.Num? && v.number in m then Num(m[v.number]) else v
  }

  /** Whether the field survives: the index of an artifact location that has a URI does not, when
      `drop` is set. */
  predicate Kept(fields: Dict, key: string, location: bool, drop: bool) {
    !(location && drop && key == "index" && HasUri(fields))
  }

  /** Rewrites the indices of all artifact locations inside a value. `location` says that the value
      itself stands under the key `artifactLocation`. */
  function Rewrite(v: Json, location: bool, m: IndexMap, drop: bool): Json
    decreases v
  {
    match v
    case Obj(fields) =>
      Obj(map key | key in fields && Kept(fields, key, location, drop) ::
            if location && key == "index" then MapIndex(fields[key], m)
            else Rewrite(fields[key], key == "artifactLocation", m, drop))
    case Arr(items) => Arr(seq(|items|, i requires 0 <= i < |items| => Rewrite(items[i], false, m, drop)))
    case _ => v
  }

  /** `_remap_artifact_indices`: an index next to a URI is deleted, any other is mapped. */
  function Remap(v: Json, m: IndexMap): Json {
    Rewrite(v, false, m, true)
  }

  /** Every index that will be mapped is a key of the table; otherwise Python raises `KeyError`. */
  predicate Resolvable(v: Json, location: bool, size: nat)
    decreases v
  {
    match v
    case Obj(fields) =>
      forall key :: key in fields ==>
        if location && key == "index" then HasUri(fields) || (fields[key].Num? && 0 <= fields[key].number < size)
        else Resolvable(fields[key], key == "artifactLocation", size)
    case Arr(items) => forall i :: 0 <= i < |items| ==> Resolvable(items[i], false, size)
    case _ => true
  }

  /** `_remap_artifact_indices` as the code runs it: an index without an entry raises `KeyError`, wherever it is
      met, and ends the remapping. */
  function TryRewrite(v: Json, location: bool, m: IndexMap): Option<Json>
    decreases v
  {
    match v
    case Obj(fields) =>
      if location && "index" in fields && !HasUri(fields)
         && !(fields["index"].Num? && fields["index"].number in m) then None
      else if exists key :: key in fields && !(location && key == "index")
                            && TryRewrite(fields[key], key == "artifactLocation", m).None?
      then None
      else
        Some(Obj(map key | key in fields && Kept(fields, key, location, true) ::
                   if location && key == "index" then MapIndex(fields[key], m)
                   else TryRewrite(fields[key], key == "artifactLocation", m).value))
    case Arr(items) =>
      if exists i :: 0 <= i < |items| && TryRewrite(items[i], false, m).None? then None
      else Some(Arr(seq(|items|, i requires 0 <= i < |items| => TryRewrite(items[i], false, m).value)))
    case _ => Some(v)
  }

  /** The keys of an index map of a table. */
  ghost predicate Covers(m: IndexMap, size: nat) {
    forall i :: i in m <==> 0 <= i < size
  }

  /** No lookup fails exactly when every index is in the table, and then the remapping is the rewriting. */
  lemma {:induction false} TryRewriteIff(v: Json, location: bool, m: IndexMap, size: nat)
    requires Covers(m, size)
    ensures TryRewrite(v, location, m) ==
            if Resolvable(v, location, size) then Some(Rewrite(v, location, m, true)) else None
    decreases v
  {
    match v
    case Obj(fields) =>
      forall key | key in fields && !(location && key == "index")
        ensures TryRewrite(fields[key], key == "artifactLocation", m) ==
                if Resolvable(fields[key], key == "artifactLocation", size)
                then Some(Rewrite(fields[key], key == "artifactLocation", m, true)) else None
      {
        TryRewriteIff(fields[key], key == "artifactLocation", m, size);
      }
      if Resolvable(v, location, size) {
        assert TryRewrite(v, location, m).value.fields == Rewrite(v, location, m, true).fields;
      }
    case Arr(items) =>
      forall i | 0 <= i < |items|
        ensures TryRewrite(items[i], false, m) ==
                if Resolvable(items[i], false, size) then Some(Rewrite(items[i], false, m, true)) else None
      {
        TryRewriteIff(items[i], false, m, size);
      }
      if Resolvable(v, location, size) {
        assert TryRewrite(v, location, m).value.items == Rewrite(v, location, m, true).items;
      } else {
        var i :| 0 <= i < |items| && !Resolvable(items[i], false, size);
        assert TryRewrite(items[i], false, m).None?;
      }
    case _ =>
  }

  // ---- Composition of rewritings ---------------------------------------------------------------------

  /** `m` followed by `n`. */
  ghost predicate Composes(m: IndexMap, n: IndexMap, both: IndexMap, size: nat) {
    forall i :: 0 <= i < size ==> i in m && m[i] in n && i in both && both[i] == n[m[i]]
  }

  lemma {:induction false} RewriteKeepsTruth(v: Json, m: IndexMap, drop: bool)
    ensures Truthy(Rewrite(v, false, m, drop)) == Truthy(v)
  {
    match v
    case Obj(fields) =>
      if fields != map[] {
        var key :| key in fields;
        assert key in Rewrite(v, false, m, drop).fields;
      }
    case _ =>
  }

  lemma RewriteKeepsUri(fields: Dict, location: bool, m: IndexMap, drop: bool)
    ensures HasUri(Rewrite(Obj(fields), location, m, drop).fields) == HasUri(fields)
  {
    assert "uri" != "index" && "uri" != "artifactLocation" by { assert |"uri"| == 3; }
    if "uri" in fields {
      RewriteKeepsTruth(fields["uri"], m, drop);
    }
  }

  /** Which fields two rewritings keep, and what becomes of an index. */
  lemma TwiceRewrittenFields(fields: Dict, location: bool, m: IndexMap, n: IndexMap, both: IndexMap, size: nat,
                             drop: bool)
    requires Composes(m, n, both, size) && Resolvable(Obj(fields), location, size)
    ensures var twice := Rewrite(Rewrite(Obj(fields), location, m, drop), location, n, true).fields;
            var direct := Rewrite(Obj(fields), location, both, true).fields;
            && twice.Keys == direct.Keys
            && (location && "index" in direct ==> twice["index"] == direct["index"])
  {
    RewriteKeepsUri(fields, location, m, drop);
  }

  /** Rewriting twice is rewriting once by the composed map, whether or not the first rewriting
      deletes indices next to a URI. */
  lemma {:induction false} RewriteComposes(v: Json, location: bool, m: IndexMap, n: IndexMap, both: IndexMap, size: nat,
                                           drop: bool)
    requires Composes(m, n, both, size) && Resolvable(v, location, size)
    ensures Rewrite(Rewrite(v, location, m, drop), location, n, true) == Rewrite(v, location, both, true)
    decreases v, 1
  {
    match v
    case Obj(fields) => RewriteComposesInFields(fields, location, m, n, both, size, drop);
    case Arr(items) =>
      var once := Rewrite(v, location, m, drop).items;
      forall i | 0 <= i < |items|
        ensures Rewrite(once[i], false, n, true) == Rewrite(items[i], false, both, true)
      {
        RewriteComposes(items[i], false, m, n, both, size, drop);
      }
    case _ =>
  }

  lemma {:induction false} RewriteComposesInFields(fields: Dict, location: bool, m: IndexMap, n: IndexMap,
                                                   both: IndexMap, size: nat, drop: bool)
    requires Composes(m, n, both, size) && Resolvable(Obj(fields), location, size)
    ensures Rewrite(Rewrite(Obj(fields), location, m, drop), location, n, true) ==
            Rewrite(Obj(fields), location, both, true)
    decreases Obj(fields), 0
  {
    TwiceRewrittenFields(fields, location, m, n, both, size, drop);
    var twice := Rewrite(Rewrite(Obj(fields), location, m, drop), location, n, true).fields;
    var direct := Rewrite(Obj(fields), location, both, true).fields;
    forall key | key in direct
      ensures twice[key] == direct[key]
    {
      if !(location && key == "index") {
        RewriteComposes(fields[key], key == "artifactLocation", m, n, both, size, drop);
      }
    }
    assert twice == direct;
  }

  lemma {:induction false} RewriteStaysResolvable(v: Json, location: bool, m: IndexMap, size: nat, newSize: nat,
                                                  drop: bool)
    requires Resolvable(v, location, size)
    requires forall i :: 0 <= i < size ==> i in m && 0 <= m[i] < newSize
    ensures Resolvable(Rewrite(v, location, m, drop), location, newSize)
    decreases v
  {
    match v
    case Obj(fields) =>
      RewriteKeepsUri(fields, location, m, drop);
      var r := Rewrite(v, location, m, drop).fields;
      forall key | key in r && !(location && key == "index")
        ensures Resolvable(r[key], key == "artifactLocation", newSize)
      {
        RewriteStaysResolvable(fields[key], key == "artifactLocation", m, size, newSize, drop);
      }
    case Arr(items) =>
      forall i | 0 <= i < |items|
        ensures Resolvable(Rewrite(items[i], false, m, drop), false, newSize)
      {
        RewriteStaysResolvable(items[i], false, m, size, newSize, drop);
      }
    case _ =>
  }

  // ---- Normalisation ---------------------------------------------------------------------------------------

  /** The string under a key, if the key is absent or holds a string. */
  function TextOr(d: Dict, key: string): Option<string> {
    if key !in d then Some("") else if d[key].Str? then Some(d[key].text) else None
  }

  /** `rule.get("id", "")`. */
  function RuleId(rule: Json): Option<string> {
    if rule.Obj? then TextOr(rule.fields, "id") else None
  }

  /** `artifact.get("location", {}).get("uri", "")`. */
  function ArtifactUri(artifact: Json): Option<string> {
    if !artifact.Obj? then None
    else if "location" !in artifact.fields then Some("")
    else if artifact.fields["location"].Obj? then TextOr(artifact.fields["location"].fields, "uri")
    else None
  }

  function Text(o: Option<string>): string {
    if o.Some? then o.value else ""
  }

  function RuleIds(run: Run): seq<string> {
    seq(|run.rules|, i requires 0 <= i < |run.rules| => Text(RuleId(run.rules[i])))
  }

  function ArtifactUris(run: Run): seq<string> {
    seq(|run.artifacts|, i requires 0 <= i < |run.artifacts| => Text(ArtifactUri(run.artifacts[i])))
  }

  predicate ValidIndex(index: Option<int>, size: nat) {
    index.Some? ==> 0 <= index.value < size
  }

  /** Sorting keys are strings and every index that is looked up is in its table; anything else makes
      Python raise an exception. */
  predicate Normalizable(run: Run) {
    && (forall i :: 0 <= i < |run.rules| ==>
           RuleId(run.rules[i]).Some? && Resolvable(run.rules[i], false, |run.artifacts|))
    && (forall i :: 0 <= i < |run.artifacts| ==> ArtifactUri(run.artifacts[i]).Some?)
    && (forall i :: 0 <= i < |run.results| ==>
          && ValidIndex(run.results[i].ruleIndex, |run.rules|) && ValidIndex(run.results[i].referenceIndex, |run.rules|)
          && Resolvable(run.results[i].body, false, |run.artifacts|))
    && Resolvable(run.rest, false, |run.artifacts|)
  }

  /** `{old_index: new_index}` for a table listed in new order. */
  function IndexMapOf(order: seq<nat>): IndexMap {
    if order == [] then map[] else IndexMapOf(order[..|order| - 1])[order[|order| - 1] := |order| - 1]
  }

  lemma {:induction false} IndexMapInverts(keys: seq<string>, order: seq<nat>, n: nat, k: nat)
    requires InRange(keys, order) && Ascending(keys, order) && n <= |order|
    ensures k < n ==> order[k] in IndexMapOf(order[..n]) && IndexMapOf(order[..n])[order[k]] == k
    ensures forall i :: i in IndexMapOf(order[..n]) ==> i in order[..n]
  {
    if n > 0 {
      IndexMapInverts(keys, order, n - 1, if k < n - 1 then k else 0);
      assert order[..n][..n - 1] == order[..n - 1];
      NotInPrefix(keys, order, n - 1, k);
    }
  }

  /** The index map of a sorted order: every old index goes to its place. */
  lemma IndexMapOfSorted(keys: seq<string>, order: seq<nat>, i: nat)
    requires Sorts(keys, order, |keys|) && i < |keys|
    ensures i in IndexMapOf(order) && 0 <= IndexMapOf(order)[i] < |keys| && order[IndexMapOf(order)[i]] == i
  {
    assert i in order;
    var k :| 0 <= k < |order| && order[k] == i;
    IndexMapInverts(keys, order, |order|, k);
    assert order[..|order|] == order;
  }

  function MapOptional(index: Option<int>, m: IndexMap): Option<int> {
    if index.Some? && index.value in m then Some(m[index.value]) else index
  }

  function NormalizedFinding(f: Finding, ruleMap: IndexMap, artifactMap: IndexMap): Finding {
    Finding(MapOptional(f.ruleIndex, ruleMap), MapOptional(f.referenceIndex, ruleMap), Remap(f.body, artifactMap))
  }

  /** The run with both tables listed in the given orders and every index rewritten. */
  function Normalized(run: Run, ruleOrder: seq<nat>, artifactOrder: seq<nat>): Run
    requires forall k :: 0 <= k < |ruleOrder| ==> ruleOrder[k] < |run.rules|
    requires forall k :: 0 <= k < |artifactOrder| ==> artifactOrder[k] < |run.artifacts|
  {
    var ruleMap, artifactMap := IndexMapOf(ruleOrder), IndexMapOf(artifactOrder);
    Run(seq(|ruleOrder|, k requires 0 <= k < |ruleOrder| => Remap(run.rules[ruleOrder[k]], artifactMap)),
        seq(|artifactOrder|, k requires 0 <= k < |artifactOrder| => run.artifacts[artifactOrder[k]]),
        seq(|run.results|,
            i requires 0 <= i < |run.results| => NormalizedFinding(run.results[i], ruleMap, artifactMap)),
        Remap(run.rest, artifactMap))
  }

  /** The normalised run; `SortedOrderIsUnique` shows that there is no choice of orders. */
  ghost predicate IsNormalized(run: Run, out: Run) {
    exists ruleOrder, artifactOrder ::
      && Sorts(RuleIds(run), ruleOrder, |run.rules|)
      && Sorts(ArtifactUris(run), artifactOrder, |run.artifacts|)
      && out == Normalized(run, ruleOrder, artifactOrder)
  }

  /** `_normalize_sarif_run`: sorts the tables, looks up the rules of the results, then remaps everything but the
      artifacts. It fails, at the sort or at a lookup, exactly when some key is no string or some index has
      no entry. */
  method NormalizeSarifRun(run: Run) returns (result: Option<Run>)
    ensures result.Some? <==> Normalizable(run)
    ensures result.Some? ==> IsNormalized(run, result.value)
  {
    var ruleIds := KeysOf(run.rules, RuleId);
    if ruleIds.None? {
      return None;
    }
    var orderedRules := SortedOrder(ruleIds.value);
    var indexMap := BuildIndexMap(orderedRules);
    var uris := KeysOf(run.artifacts, ArtifactUri);
    if uris.None? {
      return None;
    }
    assert ruleIds.value == RuleIds(run) && uris.value == ArtifactUris(run);
    var orderedArtifacts := SortedOrder(uris.value);
    var artifactIndexMap := BuildIndexMap(orderedArtifacts);
    FailuresAreExactly(run, orderedRules, orderedArtifacts);
    var findings := LookUpRules(run.results, indexMap);
    if findings.None? {
      return None;
    }
    assert Bodies(findings.value) == Bodies(run.results);
    MapCovers(ArtifactUris(run), orderedArtifacts);
    RemappedIsNormalized(run, orderedRules, orderedArtifacts, findings.value);
    result :=
      RemapRun(Listed(run.rules, orderedRules), Listed(run.artifacts, orderedArtifacts), findings.value, run.rest,
               artifactIndexMap);
  }

  /** The sort keys of a table; one that is not a string makes the sort raise `TypeError`. */
  method KeysOf(table: seq<Json>, key: Json -> Option<string>) returns (keys: Option<seq<string>>)
    ensures keys.Some? <==> forall i :: 0 <= i < |table| ==> key(table[i]).Some?
    ensures keys.Some? ==> keys.value == seq(|table|, i requires 0 <= i < |table| => Text(key(table[i])))
  {
    var found := [];
    for i := 0 to |table|
      invariant |found| == i
      invariant forall j :: 0 <= j < i ==> key(table[j]).Some? && found[j] == Text(key(table[j]))
    {
      if key(table[i]).None? {
        return None;
      }
      found := found + [key(table[i]).value];
    }
    keys := Some(found);
  }

  function Listed(table: seq<Json>, order: seq<nat>): seq<Json>
    requires forall k :: 0 <= k < |order| ==> order[k] < |table|
  {
    seq(|order|, k requires 0 <= k < |order| => table[order[k]])
  }

  method BuildIndexMap(order: seq<nat>) returns (m: IndexMap)
    ensures m == IndexMapOf(order)
  {
    m := map[];
    for newIndex := 0 to |order|
      invariant m == IndexMapOf(order[..newIndex])
    {
      assert order[..newIndex + 1][..newIndex] == order[..newIndex];
      m := m[order[newIndex] := newIndex];
    }
    assert order[..|order|] == order;
  }

  lemma MapCovers(keys: seq<string>, order: seq<nat>)
    requires Sorts(keys, order, |keys|)
    ensures Covers(IndexMapOf(order), |keys|)
  {
    IndexMapInverts(keys, order, |order|, 0);
    assert order[..|order|] == order;
    forall i | 0 <= i < |keys|
      ensures i in IndexMapOf(order)
    {
      IndexMapOfSorted(keys, order, i);
    }
  }

  /** A result with its rule references looked up. */
  function WithRules(f: Finding, ruleMap: IndexMap): Finding {
    f.(ruleIndex := MapOptional(f.ruleIndex, ruleMap), referenceIndex := MapOptional(f.referenceIndex, ruleMap))
  }

  function AllWithRules(results: seq<Finding>, ruleMap: IndexMap): seq<Finding> {
    seq(|results|, i requires 0 <= i < |results| => WithRules(results[i], ruleMap))
  }

  predicate LookupsSucceed(results: seq<Finding>, ruleMap: IndexMap) {
    forall i :: 0 <= i < |results| ==>
      && (results[i].ruleIndex.Some? ==> results[i].ruleIndex.value in ruleMap)
      && (results[i].referenceIndex.Some? ==> results[i].referenceIndex.value in ruleMap)
  }

  /** The loop over the results; a rule index without an entry raises `KeyError`. */
  method LookUpRules(results: seq<Finding>, ruleMap: IndexMap) returns (rewritten: Option<seq<Finding>>)
    ensures rewritten.Some? <==> LookupsSucceed(results, ruleMap)
    ensures rewritten.Some? ==> rewritten.value == AllWithRules(results, ruleMap)
  {
    var found := [];
    for i := 0 to |results|
      invariant |found| == i
      invariant forall j :: 0 <= j < i ==>
        && (results[j].ruleIndex.Some? ==> results[j].ruleIndex.value in ruleMap)
        && (results[j].referenceIndex.Some? ==> results[j].referenceIndex.value in ruleMap)
        && found[j] == WithRules(results[j], ruleMap)
    {
      var f := results[i];
      if f.ruleIndex.Some? {
        if f.ruleIndex.value !in ruleMap {
          return None;
        }
        f := f.(ruleIndex := Some(ruleMap[f.ruleIndex.value]));
      }
      if f.referenceIndex.Some? {
        if f.referenceIndex.value !in ruleMap {
          return None;
        }
        f := f.(referenceIndex := Some(ruleMap[f.referenceIndex.value]));
      }
      found := found + [f];
    }
    rewritten := Some(found);
  }

  predicate AllResolvable(values: seq<Json>, size: nat) {
    forall i :: 0 <= i < |values| ==> Resolvable(values[i], false, size)
  }

  method RemapAll(values: seq<Json>, m: IndexMap, ghost size: nat) returns (remapped: Option<seq<Json>>)
    requires Covers(m, size)
    ensures remapped.Some? <==> AllResolvable(values, size)
    ensures remapped.Some? ==> remapped.value == seq(|values|, i requires 0 <= i < |values| => Remap(values[i], m))
  {
    var done := [];
    for i := 0 to |values|
      invariant |done| == i
      invariant forall j :: 0 <= j < i ==> Resolvable(values[j], false, size) && done[j] == Remap(values[j], m)
    {
      TryRewriteIff(values[i], false, m, size);
      var one := TryRewrite(values[i], false, m);
      if one.None? {
        return None;
      }
      done := done + [one.value];
    }
    remapped := Some(done);
  }

  function Bodies(findings: seq<Finding>): seq<Json> {
    seq(|findings|, i requires 0 <= i < |findings| => findings[i].body)
  }

  function Remapped(rules: seq<Json>, artifacts: seq<Json>, findings: seq<Finding>, rest: Json, m: IndexMap): Run {
    Run(seq(|rules|, k requires 0 <= k < |rules| => Remap(rules[k], m)), artifacts,
        seq(|findings|, i requires 0 <= i < |findings| => findings[i].(body := Remap(findings[i].body, m))),
        Remap(rest, m))
  }

  lemma RemappedIsNormalized(run: Run, ruleOrder: seq<nat>, artifactOrder: seq<nat>, findings: seq<Finding>)
    requires Sorts(RuleIds(run), ruleOrder, |run.rules|) && Sorts(ArtifactUris(run), artifactOrder, |run.artifacts|)
    requires findings == AllWithRules(run.results, IndexMapOf(ruleOrder))
    ensures Remapped(Listed(run.rules, ruleOrder), Listed(run.artifacts, artifactOrder), findings, run.rest,
                     IndexMapOf(artifactOrder))
         == Normalized(run, ruleOrder, artifactOrder)
  {
    var out := Normalized(run, ruleOrder, artifactOrder);
    var got :=
      Remapped(Listed(run.rules, ruleOrder), Listed(run.artifacts, artifactOrder), findings, run.rest,
               IndexMapOf(artifactOrder));
    assert got.rules == out.rules;
    assert got.artifacts == out.artifacts;
    assert got.results == out.results;
  }

  /** The three places where the normalisation can fail, against the condition on the run. */
  lemma FailuresAreExactly(run: Run, ruleOrder: seq<nat>, artifactOrder: seq<nat>)
    requires Sorts(RuleIds(run), ruleOrder, |run.rules|) && Sorts(ArtifactUris(run), artifactOrder, |run.artifacts|)
    ensures Normalizable(run) <==>
              && (forall i :: 0 <= i < |run.rules| ==> RuleId(run.rules[i]).Some?)
              && (forall i :: 0 <= i < |run.artifacts| ==> ArtifactUri(run.artifacts[i]).Some?)
              && LookupsSucceed(run.results, IndexMapOf(ruleOrder))
              && AllResolvable(Listed(run.rules, ruleOrder), |run.artifacts|)
              && AllResolvable(Bodies(run.results), |run.artifacts|) && Resolvable(run.rest, false, |run.artifacts|)
  {
    MapCovers(RuleIds(run), ruleOrder);
    ListedResolvable(RuleIds(run), run.rules, ruleOrder, |run.artifacts|);
    assert forall i :: 0 <= i < |run.results| ==> Bodies(run.results)[i] == run.results[i].body;
  }

  /** The last loop of the normalisation: everything but the artifacts is remapped. */
  method RemapRun(rules: seq<Json>, artifacts: seq<Json>, findings: seq<Finding>, rest: Json, m: IndexMap)
    returns (result: Option<Run>)
    requires Covers(m, |artifacts|)
    ensures result.Some? <==>
              && AllResolvable(rules, |artifacts|) && AllResolvable(Bodies(findings), |artifacts|)
              && Resolvable(rest, false, |artifacts|)
    ensures result.Some? ==> result.value == Remapped(rules, artifacts, findings, rest, m)
  {
    var newRules := RemapAll(rules, m, |artifacts|);
    if newRules.None? {
      return None;
    }
    var bodies := RemapAll(Bodies(findings), m, |artifacts|);
    if bodies.None? {
      return None;
    }
    TryRewriteIff(rest, false, m, |artifacts|);
    var newRest := TryRewrite(rest, false, m);
    if newRest.None? {
      return None;
    }
    var results := seq(|findings|, i requires 0 <= i < |findings| => findings[i].(body := bodies.value[i]));
    result := Some(Run(newRules.value, artifacts, results, newRest.value));
  }

  /** Listing a table in another order keeps what is said of all entries. */
  lemma ListedResolvable(keys: seq<string>, table: seq<Json>, order: seq<nat>, size: nat)
    requires |keys| == |table| && Sorts(keys, order, |keys|)
    ensures AllResolvable(Listed(table, order), size) <==> AllResolvable(table, size)
  {
    if AllResolvable(Listed(table, order), size) {
      forall i | 0 <= i < |table|
        ensures Resolvable(table[i], false, size)
      {
        assert i in order;
        var k :| 0 <= k < |order| && order[k] == i;
        assert Listed(table, order)[k] == table[i];
      }
    }
  }

  // ---- Normalisation is idempotent -----------------------------------------------------------------------------

  lemma RuleIdKept(rule: Json, m: IndexMap, drop: bool)
    requires RuleId(rule).Some?
    ensures RuleId(Rewrite(rule, false, m, drop)) == RuleId(rule)
  {
    var fields := Rewrite(rule, false, m, drop).fields;
    assert "id" in fields <==> "id" in rule.fields;
    if "id" in fields {
      assert fields["id"] == Rewrite(rule.fields["id"], "id" == "artifactLocation", m, drop) == rule.fields["id"];
    }
  }

  /** Keys listed in sorted order are already sorted. */
  lemma SortedKeysStay(keys: seq<string>, order: seq<nat>, listed: seq<string>, again: seq<nat>)
    requires Sorts(keys, order, |keys|) && |listed| == |keys| && Sorts(listed, again, |listed|)
    requires forall k :: 0 <= k < |order| ==> listed[k] == keys[order[k]]
    ensures forall k :: 0 <= k < |again| ==> again[k] == k
  {
    var same := seq(|keys|, k => k);
    forall a, b | 0 <= a < b < |same|
      ensures Before(listed, same[a], same[b])
    {
      assert Before(keys, order[a], order[b]);
    }
    forall i: nat
      ensures i in same <==> i < |listed|
    {
      if i < |listed| {
        assert same[i] == i;
      }
    }
    SortedOrderIsUnique(listed, again, same, |listed|);
    assert again[..|listed|] == again && same[..|listed|] == same;
  }

  ghost predicate Reindexes(m: IndexMap, size: nat) {
    forall i :: 0 <= i < size ==> i in m && 0 <= m[i] < size
  }

  ghost predicate IsIdentity(m: IndexMap, size: nat) {
    forall i :: 0 <= i < size ==> i in m && m[i] == i
  }

  lemma SortedMapReindexes(keys: seq<string>, order: seq<nat>)
    requires Sorts(keys, order, |keys|)
    ensures Reindexes(IndexMapOf(order), |keys|)
    ensures (forall k :: 0 <= k < |order| ==> order[k] == k) ==> IsIdentity(IndexMapOf(order), |keys|)
  {
    forall i | 0 <= i < |keys|
      ensures i in IndexMapOf(order) && 0 <= IndexMapOf(order)[i] < |keys| && order[IndexMapOf(order)[i]] == i
    {
      IndexMapOfSorted(keys, order, i);
    }
  }

  /** An identity rewriting, after a rewriting that deleted indices next to a URI, changes nothing. */
  lemma RewriteAgainIsNoOp(m: IndexMap, same: IndexMap, size: nat, v: Json)
    requires Reindexes(m, size) && IsIdentity(same, size) && Resolvable(v, false, size)
    ensures Remap(Remap(v, m), same) == Remap(v, m)
    ensures Resolvable(Remap(v, m), false, size)
  {
    RewriteComposes(v, false, m, same, m, size, true);
    RewriteStaysResolvable(v, false, m, size, size, true);
  }

  ghost predicate FindingResolves(f: Finding, rules: nat, artifacts: nat) {
    ValidIndex(f.ruleIndex, rules) && ValidIndex(f.referenceIndex, rules) && Resolvable(f.body, false, artifacts)
  }

  lemma FindingStays(f: Finding, r: IndexMap, r': IndexMap, rules: nat, a: IndexMap, a': IndexMap, artifacts: nat)
    requires Reindexes(r, rules) && IsIdentity(r', rules) && Reindexes(a, artifacts) && IsIdentity(a', artifacts)
    requires FindingResolves(f, rules, artifacts)
    ensures NormalizedFinding(NormalizedFinding(f, r, a), r', a') == NormalizedFinding(f, r, a)
    ensures FindingResolves(NormalizedFinding(f, r, a), rules, artifacts)
  {
    RewriteAgainIsNoOp(a, a', artifacts, f.body);
  }

  /** A normalised run is normal: normalising it again succeeds and changes nothing. */
  lemma NormalizationIsIdempotent(run: Run, ruleOrder: seq<nat>, artifactOrder: seq<nat>,
                                  ruleOrder': seq<nat>, artifactOrder': seq<nat>)
    requires Normalizable(run)
    requires Sorts(RuleIds(run), ruleOrder, |run.rules|) && Sorts(ArtifactUris(run), artifactOrder, |run.artifacts|)
    requires var out := Normalized(run, ruleOrder, artifactOrder);
             Sorts(RuleIds(out), ruleOrder', |out.rules|) && Sorts(ArtifactUris(out), artifactOrder', |out.artifacts|)
    ensures var out := Normalized(run, ruleOrder, artifactOrder);
            Normalizable(out) && Normalized(out, ruleOrder', artifactOrder') == out
  {
    var out := Normalized(run, ruleOrder, artifactOrder);
    var r, r', a, a' :=
      IndexMapOf(ruleOrder), IndexMapOf(ruleOrder'), IndexMapOf(artifactOrder), IndexMapOf(artifactOrder');
    OrdersStay(run, ruleOrder, artifactOrder, ruleOrder', artifactOrder');
    var again := Normalized(out, ruleOrder', artifactOrder');
    assert again.artifacts == out.artifacts;
    forall k | 0 <= k < |out.rules|
      ensures again.rules[k] == out.rules[k]
      ensures RuleId(out.rules[k]).Some? && Resolvable(out.rules[k], false, |out.artifacts|)
    {
      RuleIdKept(run.rules[ruleOrder[k]], a, true);
      RewriteAgainIsNoOp(a, a', |run.artifacts|, run.rules[ruleOrder[k]]);
    }
    assert again.rules == out.rules;
    forall i | 0 <= i < |out.results|
      ensures again.results[i] == out.results[i] && FindingResolves(out.results[i], |out.rules|, |out.artifacts|)
    {
      FindingStays(run.results[i], r, r', |run.rules|, a, a', |run.artifacts|);
    }
    assert again.results == out.results;
    RewriteAgainIsNoOp(a, a', |run.artifacts|, run.rest);
    assert forall k :: 0 <= k < |out.artifacts| ==> out.artifacts[k] == run.artifacts[artifactOrder[k]];
    assert Normalizable(out);
    assert again.rest == out.rest;
  }

  lemma OrdersStay(run: Run, ruleOrder: seq<nat>, artifactOrder: seq<nat>, ruleOrder': seq<nat>,
                   artifactOrder': seq<nat>)
    requires Normalizable(run)
    requires Sorts(RuleIds(run), ruleOrder, |run.rules|) && Sorts(ArtifactUris(run), artifactOrder, |run.artifacts|)
    requires var out := Normalized(run, ruleOrder, artifactOrder);
             Sorts(RuleIds(out), ruleOrder', |out.rules|) && Sorts(ArtifactUris(out), artifactOrder', |out.artifacts|)
    ensures forall k :: 0 <= k < |ruleOrder'| ==> ruleOrder'[k] == k
    ensures forall k :: 0 <= k < |artifactOrder'| ==> artifactOrder'[k] == k
    ensures Reindexes(IndexMapOf(ruleOrder), |run.rules|) && IsIdentity(IndexMapOf(ruleOrder'), |run.rules|)
    ensures Reindexes(IndexMapOf(artifactOrder), |run.artifacts|)
            && IsIdentity(IndexMapOf(artifactOrder'), |run.artifacts|)
  {
    var out := Normalized(run, ruleOrder, artifactOrder);
    var ids, uris, ids', uris' := RuleIds(run), ArtifactUris(run), RuleIds(out), ArtifactUris(out);
    forall k | 0 <= k < |ruleOrder|
      ensures ids'[k] == ids[ruleOrder[k]]
    {
      RuleIdKept(run.rules[ruleOrder[k]], IndexMapOf(artifactOrder), true);
    }
    SortedKeysStay(ids, ruleOrder, ids', ruleOrder');
    SortedKeysStay(uris, artifactOrder, uris', artifactOrder');
    SortedMapReindexes(ids, ruleOrder);
    SortedMapReindexes(ids', ruleOrder');
    SortedMapReindexes(uris, artifactOrder);
    SortedMapReindexes(uris', artifactOrder');
  }
}
