/** Whether normalisation is canonical: two runs that differ only by the order of their tables, with all references
    adjusted, normalise to the same run exactly when every reference that the normaliser does not rewrite, or rewrites
    as one into the driver's rules although it is not, has an index that the permutation leaves alone. */
module SarifCanonical {
  import opened Common
  import opened Json
  import opened SarifOrder
  import opened Sarif
  import opened SarifMeaning

  // ---- Relabelling values --------------------------------------------------------------------------------

  /** `places[i]` is a new place for index `i`, and every place is taken. */
  ghost predicate IsPermutation(places: seq<nat>) {
    && (forall i :: 0 <= i < |places| ==> places[i] < |places|)
    && (forall i, j :: 0 <= i < j < |places| ==> places[i] != places[j])
    && (forall k :: 0 <= k < |places| ==> k in places)
  }

  function AsMap(places: seq<nat>): IndexMap {
    map i | 0 <= i < |places| :: places[i]
  }

  /** The new places of artifacts and rules. */
  datatype Places = Places(artifacts: seq<nat>, rules: seq<nat>)

  /** The new place of what the field refers to, if it is the index of a reference. */
  function NewPlace(reading: Reading, fields: Dict, key: string, kind: Kind, places: Places): Option<nat>
    requires key in fields
  {
    if kind.Location? && Indexes(fields, key, |places.artifacts|) then Some(places.artifacts[fields[key].number])
    else if kind.Reference? && NamesDriver(reading, fields) && Indexes(fields, key, |places.rules|)
    then Some(places.rules[fields[key].number])
    else None
  }

  /** A value with every reference adjusted to the new places. */
  function Relabel(reading: Reading, v: Json, kind: Kind, places: Places): Json
    decreases v
  {
    match v
    case Obj(fields) =>
      Obj(map key | key in fields ::
            var place := NewPlace(reading, fields, key, kind, places);
            if place.Some? then Num(place.value)
            else Relabel(reading, fields[key], Under(reading.schema, kind, key), places))
    case Arr(items) =>
      Arr(seq(|items|, i requires 0 <= i < |items| => Relabel(reading, items[i], InList(reading.schema, kind), places)))
    case _ => v
  }

  /** Every reference that the code does not rewrite has an index that keeps its place. */
  predicate Fixed(reading: Reading, v: Json, kind: Kind, rewritten: bool, places: Places)
    decreases v
  {
    match v
    case Obj(fields) => forall key :: key in fields ==> FixedField(reading, fields, key, kind, rewritten, places)
    case Arr(items) => forall i :: 0 <= i < |items| ==>
        Fixed(reading, items[i], InList(reading.schema, kind), false, places)
    case _ => true
  }

  predicate FixedField(reading: Reading, fields: Dict, key: string, kind: Kind, rewritten: bool, places: Places)
    requires key in fields
    decreases Obj(fields), 0
  {
    if rewritten && key == "index" then true
    else if NewPlace(reading, fields, key, kind, places).Some?
    then NewPlace(reading, fields, key, kind, places).value == fields[key].number
    else Fixed(reading, fields[key], Under(reading.schema, kind, key), key == "artifactLocation", places)
  }

  lemma {:induction false} RelabelKeepsTruth(reading: Reading, v: Json, kind: Kind, places: Places)
    ensures Truthy(Relabel(reading, v, kind, places)) == Truthy(v)
  {
    match v
    case Obj(fields) => assert Relabel(reading, v, kind, places).fields.Keys == fields.Keys;
    case _ =>
  }

  lemma RelabelKeepsUri(reading: Reading, fields: Dict, kind: Kind, places: Places)
    ensures HasUri(Relabel(reading, Obj(fields), kind, places).fields) == HasUri(fields)
  {
    assert "uri" != "index" by { assert |"uri"| == 3; }
    if "uri" in fields {
      RelabelKeepsTruth(reading, fields["uri"], Under(reading.schema, kind, "uri"), places);
    }
  }

  /** `m` and `n` map an artifact to one place, before and after the relabelling. */
  ghost predicate Agree(places: Places, m: IndexMap, n: IndexMap) {
    forall i :: 0 <= i < |places.artifacts| ==>
      i in m && places.artifacts[i] in n && n[places.artifacts[i]] == m[i]
  }

  /** Remapping a relabelled value gives what remapping the value gives exactly when the value is fixed. */
  lemma {:induction false} RelabelIsInvisibleIff(reading: Reading, v: Json, kind: Kind, rewritten: bool, places: Places,
                                                 m: IndexMap, n: IndexMap)
    requires Agree(places, m, n) && Resolvable(v, rewritten, |places.artifacts|)
    requires KnowsLocations(reading.schema) && (rewritten ==> kind.Location?)
    ensures Rewrite(Relabel(reading, v, kind, places), rewritten, n, true) == Rewrite(v, rewritten, m, true) <==>
            Fixed(reading, v, kind, rewritten, places)
    decreases v, 1
  {
    match v
    case Obj(fields) => RelabelledFieldsIff(reading, fields, kind, rewritten, places, m, n);
    case Arr(items) =>
      var moved, inner := Relabel(reading, v, kind, places), InList(reading.schema, kind);
      var left, right := Rewrite(moved, rewritten, n, true).items, Rewrite(v, rewritten, m, true).items;
      forall i | 0 <= i < |items|
        ensures left[i] == right[i] <==> Fixed(reading, items[i], inner, false, places)
      {
        assert moved.items[i] == Relabel(reading, items[i], inner, places);
        RelabelIsInvisibleIff(reading, items[i], inner, false, places, m, n);
      }
      SameItemsIff(left, right);
      assert Rewrite(moved, rewritten, n, true) == Arr(left) && Rewrite(v, rewritten, m, true) == Arr(right);
    case _ =>
  }

  lemma {:induction false} RelabelledFieldIff(reading: Reading, fields: Dict, key: string, kind: Kind, rewritten: bool,
                                              places: Places, m: IndexMap, n: IndexMap)
    requires Agree(places, m, n) && Resolvable(Obj(fields), rewritten, |places.artifacts|)
    requires KnowsLocations(reading.schema) && (rewritten ==> kind.Location?)
    requires key in fields && Kept(fields, key, rewritten, true)
    ensures var moved := Relabel(reading, Obj(fields), kind, places);
            var left, right :=
              Rewrite(moved, rewritten, n, true).fields, Rewrite(Obj(fields), rewritten, m, true).fields;
            && key in left && key in right
            && (left[key] == right[key] <==> FixedField(reading, fields, key, kind, rewritten, places))
    decreases Obj(fields), 0, 0
  {
    FieldRewritten(fields, key, rewritten, m);
    var moved := Relabel(reading, Obj(fields), kind, places).fields;
    RelabelKeepsUri(reading, fields, kind, places);
    FieldRewritten(moved, key, rewritten, n);
    if rewritten && key == "index" {
      assert moved[key] == Num(places.artifacts[fields[key].number]);
    } else if NewPlace(reading, fields, key, kind, places).None? {
      assert moved[key] == Relabel(reading, fields[key], Under(reading.schema, kind, key), places);
      assert Under(reading.schema, kind, "artifactLocation") == Location;
      RelabelIsInvisibleIff(reading, fields[key], Under(reading.schema, kind, key),
                            key == "artifactLocation", places, m, n);
    } else {
      assert moved[key] == Num(NewPlace(reading, fields, key, kind, places).value);
    }
  }

  /** What becomes of a kept field. */
  lemma FieldRewritten(fields: Dict, key: string, rewritten: bool, m: IndexMap)
    requires key in fields && Kept(fields, key, rewritten, true)
    ensures var r := Rewrite(Obj(fields), rewritten, m, true).fields;
            && key in r
            && r[key] == if rewritten && key == "index" then MapIndex(fields[key], m)
                         else Rewrite(fields[key], key == "artifactLocation", m, true)
  {
  }

  lemma {:induction false} RelabelledFieldsIff(reading: Reading, fields: Dict, kind: Kind, rewritten: bool,
                                               places: Places, m: IndexMap, n: IndexMap)
    requires Agree(places, m, n) && Resolvable(Obj(fields), rewritten, |places.artifacts|)
    requires KnowsLocations(reading.schema) && (rewritten ==> kind.Location?)
    ensures Rewrite(Relabel(reading, Obj(fields), kind, places), rewritten, n, true) ==
            Rewrite(Obj(fields), rewritten, m, true) <==>
            Fixed(reading, Obj(fields), kind, rewritten, places)
    decreases Obj(fields), 0, 1
  {
    var left := Rewrite(Relabel(reading, Obj(fields), kind, places), rewritten, n, true).fields;
    var right := Rewrite(Obj(fields), rewritten, m, true).fields;
    assert left.Keys == right.Keys by {
      RelabelKeepsUri(reading, fields, kind, places);
    }
    forall key | key in right
      ensures left[key] == right[key] <==> FixedField(reading, fields, key, kind, rewritten, places)
    {
      RelabelledFieldIff(reading, fields, key, kind, rewritten, places, m, n);
    }
    SameFieldsIff(left, right);
    assert forall key :: key in fields && key !in right ==> FixedField(reading, fields, key, kind, rewritten, places);
  }

  // ---- Sorting permuted tables --------------------------------------------------------------------------------

  ghost predicate Distinct(keys: seq<string>) {
    forall i, j :: 0 <= i < j < |keys| ==> keys[i] != keys[j]
  }

  ghost function Moved(order: seq<nat>, places: seq<nat>): seq<nat>
    requires forall k :: 0 <= k < |order| ==> order[k] < |places|
  {
    seq(|order|, k requires 0 <= k < |order| => places[order[k]])
  }

  /** Sorting permuted distinct keys lists the permuted indices in the old sorted order. */
  lemma PermutedOrder(keys: seq<string>, permuted: seq<string>, places: seq<nat>, order: seq<nat>, newOrder: seq<nat>)
    requires IsPermutation(places) && |keys| == |permuted| == |places| && Distinct(keys)
    requires forall i :: 0 <= i < |keys| ==> permuted[places[i]] == keys[i]
    requires Sorts(keys, order, |keys|) && Sorts(permuted, newOrder, |keys|)
    ensures newOrder == Moved(order, places)
  {
    var moved := Moved(order, places);
    forall a, b | 0 <= a < b < |moved|
      ensures Before(permuted, moved[a], moved[b])
    {
      assert Before(keys, order[a], order[b]);
      BeforeIsTotal(keys, order[a], order[b]);
    }
    forall i: nat
      ensures i in moved <==> i < |keys|
    {
      if i < |keys| {
        assert i in places;
        var j :| 0 <= j < |places| && places[j] == i;
        assert j in order;
        var k :| 0 <= k < |order| && order[k] == j;
        assert moved[k] == i;
      }
    }
    SortedOrderIsUnique(permuted, newOrder, moved, |keys|);
    assert newOrder[..|keys|] == newOrder && moved[..|keys|] == moved;
  }

  /** The two index maps agree through the permutation. */
  lemma PermutedIndexMap(keys: seq<string>, permuted: seq<string>, places: seq<nat>, order: seq<nat>,
                         newOrder: seq<nat>)
    requires IsPermutation(places) && |keys| == |permuted| == |places| && Distinct(keys)
    requires forall i :: 0 <= i < |keys| ==> permuted[places[i]] == keys[i]
    requires Sorts(keys, order, |keys|) && Sorts(permuted, newOrder, |keys|)
    ensures Composes(AsMap(places), IndexMapOf(newOrder), IndexMapOf(order), |keys|)
  {
    PermutedOrder(keys, permuted, places, order, newOrder);
    forall i | 0 <= i < |keys|
      ensures places[i] in IndexMapOf(newOrder) && i in IndexMapOf(order)
      ensures IndexMapOf(newOrder)[places[i]] == IndexMapOf(order)[i]
    {
      IndexMapOfSorted(keys, order, i);
      IndexMapInverts(permuted, newOrder, |newOrder|, IndexMapOf(order)[i]);
      assert newOrder[..|newOrder|] == newOrder;
    }
  }


  // ---- Runs ------------------------------------------------------------------------------------------------------

  /** The adjusted rule index of a result: only one into the driver's rules changes. */
  function NewIndex(reading: Reading, body: Json, index: Option<int>, places: Places): Option<int> {
    if NamesDriver(reading, RuleReference(body)) then MapOptional(index, AsMap(places.rules)) else index
  }

  /** The same run with its tables permuted and all references adjusted, none deleted. */
  ghost predicate Relabelled(reading: Reading, a: Run, b: Run, places: Places) {
    && IsPermutation(places.rules) && IsPermutation(places.artifacts)
    && |a.rules| == |b.rules| == |places.rules| && |a.artifacts| == |b.artifacts| == |places.artifacts|
    && |a.results| == |b.results|
    && (forall i :: 0 <= i < |a.rules| ==> b.rules[places.rules[i]] == Relabel(reading, a.rules[i], Plain, places))
    && (forall i :: 0 <= i < |a.artifacts| ==> b.artifacts[places.artifacts[i]] == a.artifacts[i])
    && (forall i :: 0 <= i < |a.results| ==> b.results[i] == RelabelledFinding(reading, a.results[i], places))
    && b.rest == Relabel(reading, a.rest, Plain, places)
  }

  function RelabelledFinding(reading: Reading, f: Finding, places: Places): Finding {
    Finding(NewIndex(reading, f.body, f.ruleIndex, places), NewIndex(reading, f.body, f.referenceIndex, places),
            Relabel(reading, f.body, Plain, places))
  }

  predicate FixedIndex(index: Option<int>, places: seq<nat>) {
    index.Some? && 0 <= index.value < |places| ==> places[index.value] == index.value
  }

  predicate FixedFinding(reading: Reading, f: Finding, places: Places) {
    && (NamesDriver(reading, RuleReference(f.body))
        || (FixedIndex(f.ruleIndex, places.rules) && FixedIndex(f.referenceIndex, places.rules)))
    && Fixed(reading, f.body, Plain, false, places)
  }

  /** Every reference that is not rewritten has an index that keeps its place, and so has every result whose rule is in
      another component. */
  ghost predicate FixedRun(reading: Reading, run: Run, places: Places) {
    && (forall i :: 0 <= i < |run.results| ==> FixedFinding(reading, run.results[i], places))
    && (forall i :: 0 <= i < |run.rules| ==> Fixed(reading, run.rules[i], Plain, false, places))
    && Fixed(reading, run.rest, Plain, false, places)
  }

  lemma RelabelKeepsRuleId(reading: Reading, rule: Json, places: Places)
    requires RuleId(rule).Some?
    ensures RuleId(Relabel(reading, rule, Plain, places)) == RuleId(rule)
  {
    var fields := Relabel(reading, rule, Plain, places).fields;
    assert "id" in fields <==> "id" in rule.fields;
    if "id" in fields {
      assert NewPlace(reading, rule.fields, "id", Plain, places).None?;
      assert rule.fields["id"].Str?;
      assert fields["id"] == Relabel(reading, rule.fields["id"], Under(reading.schema, Plain, "id"), places);
    }
  }

  /** The sorted orders of the tables of both runs. */
  datatype Orders = Orders(rules: seq<nat>, artifacts: seq<nat>)

  ghost predicate SortsRun(run: Run, orders: Orders) {
    Sorts(RuleIds(run), orders.rules, |run.rules|) && Sorts(ArtifactUris(run), orders.artifacts, |run.artifacts|)
  }

  /** Both tables are listed in corresponding orders, and their index maps correspond. */
  lemma TablesCorrespond(reading: Reading, a: Run, b: Run, places: Places, orders: Orders, orders': Orders)
    requires Normalizable(a) && Relabelled(reading, a, b, places)
    requires Distinct(RuleIds(a)) && Distinct(ArtifactUris(a)) && SortsRun(a, orders) && SortsRun(b, orders')
    ensures orders'.rules == Moved(orders.rules, places.rules)
            && orders'.artifacts == Moved(orders.artifacts, places.artifacts)
    ensures Composes(AsMap(places.rules), IndexMapOf(orders'.rules), IndexMapOf(orders.rules), |a.rules|)
    ensures Composes(AsMap(places.artifacts), IndexMapOf(orders'.artifacts), IndexMapOf(orders.artifacts),
                     |a.artifacts|)
  {
    forall i | 0 <= i < |a.rules|
      ensures RuleIds(b)[places.rules[i]] == RuleIds(a)[i]
    {
      RelabelKeepsRuleId(reading, a.rules[i], places);
    }
    PermutedOrder(RuleIds(a), RuleIds(b), places.rules, orders.rules, orders'.rules);
    PermutedIndexMap(RuleIds(a), RuleIds(b), places.rules, orders.rules, orders'.rules);
    PermutedOrder(ArtifactUris(a), ArtifactUris(b), places.artifacts, orders.artifacts, orders'.artifacts);
    PermutedIndexMap(ArtifactUris(a), ArtifactUris(b), places.artifacts, orders.artifacts, orders'.artifacts);
  }

  /** The rewritten rule index of a result is the same in both runs exactly when it is one into the driver's rules or
      keeps its place. */
  lemma RuleIndexAgreesIff(reading: Reading, body: Json, index: Option<int>, places: Places, keys: seq<string>,
                           order: seq<nat>, r: IndexMap)
    requires IsPermutation(places.rules) && |keys| == |places.rules| && Sorts(keys, order, |keys|)
    requires Composes(AsMap(places.rules), IndexMapOf(order), r, |keys|) && ValidIndex(index, |keys|)
    ensures MapOptional(NewIndex(reading, body, index, places), IndexMapOf(order)) == MapOptional(index, r) <==>
            NamesDriver(reading, RuleReference(body)) || FixedIndex(index, places.rules)
  {
    if index.Some? {
      var n := index.value;
      assert n in AsMap(places.rules) && AsMap(places.rules)[n] == places.rules[n];
      IndexMapOfSorted(keys, order, n);
      IndexMapOfSorted(keys, order, places.rules[n]);
    }
  }

  lemma FindingAgreesIff(reading: Reading, f: Finding, places: Places, keys: seq<string>, order: seq<nat>, r: IndexMap,
                         m: IndexMap, n: IndexMap)
    requires IsPermutation(places.rules) && |keys| == |places.rules| && Sorts(keys, order, |keys|)
    requires Composes(AsMap(places.rules), IndexMapOf(order), r, |keys|)
    requires Agree(places, m, n) && KnowsLocations(reading.schema)
    requires ValidIndex(f.ruleIndex, |keys|) && ValidIndex(f.referenceIndex, |keys|)
             && Resolvable(f.body, false, |places.artifacts|)
    ensures NormalizedFinding(RelabelledFinding(reading, f, places), IndexMapOf(order), n) ==
            NormalizedFinding(f, r, m) <==>
            FixedFinding(reading, f, places)
  {
    RuleIndexAgreesIff(reading, f.body, f.ruleIndex, places, keys, order, r);
    RuleIndexAgreesIff(reading, f.body, f.referenceIndex, places, keys, order, r);
    RelabelIsInvisibleIff(reading, f.body, Plain, false, places, m, n);
  }

  lemma MapsAgree(places: Places, m: IndexMap, n: IndexMap)
    requires Composes(AsMap(places.artifacts), n, m, |places.artifacts|)
    ensures Agree(places, m, n)
  {
    assert forall i :: 0 <= i < |places.artifacts| ==> AsMap(places.artifacts)[i] == places.artifacts[i];
  }

  lemma RulesAgreeIff(reading: Reading, a: Run, b: Run, places: Places, orders: Orders, orders': Orders)
    requires KnowsLocations(reading.schema) && Normalizable(a) && Relabelled(reading, a, b, places)
    requires SortsRun(a, orders) && SortsRun(b, orders') && orders'.rules == Moved(orders.rules, places.rules)
    requires Agree(places, IndexMapOf(orders.artifacts), IndexMapOf(orders'.artifacts))
    ensures Normalized(b, orders'.rules, orders'.artifacts).rules ==
            Normalized(a, orders.rules, orders.artifacts).rules <==>
            forall i :: 0 <= i < |a.rules| ==> Fixed(reading, a.rules[i], Plain, false, places)
  {
    var left := Normalized(b, orders'.rules, orders'.artifacts).rules;
    var right := Normalized(a, orders.rules, orders.artifacts).rules;
    forall k | 0 <= k < |a.rules|
      ensures left[k] == right[k] <==> Fixed(reading, a.rules[orders.rules[k]], Plain, false, places)
    {
      RelabelIsInvisibleIff(reading, a.rules[orders.rules[k]], Plain, false, places,
                            IndexMapOf(orders.artifacts), IndexMapOf(orders'.artifacts));
    }
    SameItemsIff(left, right);
    if left == right {
      forall i | 0 <= i < |a.rules|
        ensures Fixed(reading, a.rules[i], Plain, false, places)
      {
        assert i in orders.rules;
        var k :| 0 <= k < |orders.rules| && orders.rules[k] == i;
        assert left[k] == right[k];
      }
    }
  }

  lemma ResultsAgreeIff(reading: Reading, a: Run, b: Run, places: Places, orders: Orders, orders': Orders)
    requires KnowsLocations(reading.schema) && Normalizable(a) && Relabelled(reading, a, b, places)
    requires SortsRun(a, orders) && SortsRun(b, orders')
    requires Composes(AsMap(places.rules), IndexMapOf(orders'.rules), IndexMapOf(orders.rules), |a.rules|)
    requires Agree(places, IndexMapOf(orders.artifacts), IndexMapOf(orders'.artifacts))
    ensures Normalized(b, orders'.rules, orders'.artifacts).results ==
            Normalized(a, orders.rules, orders.artifacts).results <==>
            forall i :: 0 <= i < |a.results| ==> FixedFinding(reading, a.results[i], places)
  {
    var left := Normalized(b, orders'.rules, orders'.artifacts).results;
    var right := Normalized(a, orders.rules, orders.artifacts).results;
    forall i | 0 <= i < |a.results|
      ensures left[i] == right[i] <==> FixedFinding(reading, a.results[i], places)
    {
      FindingAgreesIff(reading, a.results[i], places, RuleIds(b), orders'.rules, IndexMapOf(orders.rules),
                       IndexMapOf(orders.artifacts), IndexMapOf(orders'.artifacts));
    }
    assert left == right <==> forall i :: 0 <= i < |a.results| ==> left[i] == right[i];
  }

  /** Two runs that differ only by the order of their tables, with distinct rule ids and distinct artifact URIs,
      normalise to the same run if and only if the references that are not rewritten as what they are keep their
      places. */
  lemma NormalizationIsCanonicalIff(reading: Reading, a: Run, b: Run, places: Places, orders: Orders, orders': Orders)
    requires KnowsLocations(reading.schema) && Normalizable(a) && Relabelled(reading, a, b, places)
    requires Distinct(RuleIds(a)) && Distinct(ArtifactUris(a)) && SortsRun(a, orders) && SortsRun(b, orders')
    ensures Normalized(b, orders'.rules, orders'.artifacts) == Normalized(a, orders.rules, orders.artifacts) <==>
            FixedRun(reading, a, places)
  {
    TablesCorrespond(reading, a, b, places, orders, orders');
    MapsAgree(places, IndexMapOf(orders.artifacts), IndexMapOf(orders'.artifacts));
    RulesAgreeIff(reading, a, b, places, orders, orders');
    ResultsAgreeIff(reading, a, b, places, orders, orders');
    RelabelIsInvisibleIff(reading, a.rest, Plain, false, places, IndexMapOf(orders.artifacts),
                          IndexMapOf(orders'.artifacts));
    ArtifactsAgree(reading, a, b, places, orders, orders');
  }

  lemma ArtifactsAgree(reading: Reading, a: Run, b: Run, places: Places, orders: Orders, orders': Orders)
    requires Relabelled(reading, a, b, places) && SortsRun(a, orders) && SortsRun(b, orders')
    requires orders'.artifacts == Moved(orders.artifacts, places.artifacts)
    ensures Normalized(b, orders'.rules, orders'.artifacts).artifacts ==
            Normalized(a, orders.rules, orders.artifacts).artifacts
  {
    forall k | 0 <= k < |orders.artifacts|
      ensures b.artifacts[orders'.artifacts[k]] == a.artifacts[orders.artifacts[k]]
    {
    }
  }

  /** Two such runs: the `analysisTarget` is listed first in one and second in the other; their normal forms differ. */
  lemma PermutedTargetIsNotCanonical(driver: set<ToolRef>, orders: Orders, orders': Orders)
    requires SortsRun(TargetRun("b", "a", 0), orders) && SortsRun(TargetRun("a", "b", 1), orders')
    ensures Relabelled(Reading(SARIF_SCHEMA, driver), TargetRun("b", "a", 0), TargetRun("a", "b", 1),
                       Places([1, 0], []))
    ensures Normalized(TargetRun("a", "b", 1), orders'.rules, orders'.artifacts) !=
            Normalized(TargetRun("b", "a", 0), orders.rules, orders.artifacts)
  {
    var reading, places := Reading(SARIF_SCHEMA, driver), Places([1, 0], []);
    SarifSchemaKnowsLocations();
    TargetRunIsNormalizable("b", "a", 0);
    TargetRunsAreRelabelled(reading, places);
    TargetIsNotFixed(reading, places);
    assert "b" != "a" by { assert "b"[0] != "a"[0]; }
    NormalizationIsCanonicalIff(reading, TargetRun("b", "a", 0), TargetRun("a", "b", 1), places, orders, orders');
    assert !FixedFinding(reading, TargetRun("b", "a", 0).results[0], places);
  }

  lemma TargetRunsAreRelabelled(reading: Reading, places: Places)
    requires Under(reading.schema, Plain, "analysisTarget") == Location && places == Places([1, 0], [])
    ensures Relabelled(reading, TargetRun("b", "a", 0), TargetRun("a", "b", 1), places)
  {
    TargetMoves(reading, places);
    assert 0 in [1, 0] && 1 in [1, 0];
    assert IsPermutation([1, 0]) && IsPermutation([]);
  }

  lemma TargetMoves(reading: Reading, places: Places)
    requires Under(reading.schema, Plain, "analysisTarget") == Location && places == Places([1, 0], [])
    ensures Relabel(reading, TargetBody(0), Plain, places) == TargetBody(1)
  {
    assert Relabel(reading, Indexed(0), Location, places) == Indexed(1) by {
      assert Relabel(reading, Indexed(0), Location, places).fields == Indexed(1).fields;
    }
    assert "analysisTarget" != "index" by { assert |"index"| == 5; }
    assert Relabel(reading, TargetBody(0), Plain, places).fields == TargetBody(1).fields;
  }

  lemma TargetIsNotFixed(reading: Reading, places: Places)
    requires Under(reading.schema, Plain, "analysisTarget") == Location && places == Places([1, 0], [])
    ensures !Fixed(reading, TargetBody(0), Plain, false, places)
  {
    assert "index" in Indexed(0).fields && !FixedField(reading, Indexed(0).fields, "index", Location, false, places);
    assert !Fixed(reading, Indexed(0), Location, false, places);
    assert "analysisTarget" != "index" && "analysisTarget" != "artifactLocation" by {
      assert |"index"| == 5 && "analysisTarget"[1] == 'n' && "artifactLocation"[1] == 'r';
    }
    assert !FixedField(reading, TargetBody(0).fields, "analysisTarget", Plain, false, places);
  }
}
