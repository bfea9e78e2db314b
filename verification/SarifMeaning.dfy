/** What a SARIF run means: its artifact and rule references resolved, wherever they stand. Normalisation keeps that
    meaning exactly when every reference it does not rewrite is left in place by the sort, and every reference it
    rewrites as one into the driver's rules is one. */
module SarifMeaning {
  import opened Common
  import opened Json
  import opened SarifOrder
  import opened Sarif

  // ---- Reading a run -----------------------------------------------------------------------------------

  /** What a value is: an artifact location, a reference to a rule, a value of a named group whose parts the schema
      knows, or anything else. */
  datatype Kind = Plain | Location | Reference | Group(name: string)

  /** The kind of a field by the kind of its object and its key; of every field of an object of some kind; and of
      the items of a list of some kind. */
  datatype Schema = Schema(fields: map<(Kind, string), Kind>, entries: map<Kind, Kind>, items: map<Kind, Kind>)

  /** How a `toolComponent` names a component of the tool. */
  datatype ToolRef = ToolRef(index: Option<int>, name: Option<string>, guid: Option<string>)

  /** A schema, and the names by which the driver is referred to. */
  datatype Reading = Reading(schema: Schema, driver: set<ToolRef>)

  function Under(schema: Schema, kind: Kind, key: string): Kind {
    if (kind, key) in schema.fields then schema.fields[(kind, key)]
    else if kind in schema.entries then schema.entries[kind]
    else if (Plain, key) in schema.fields then schema.fields[(Plain, key)]
    else Plain
  }

  function InList(schema: Schema, kind: Kind): Kind {
    if kind in schema.items then schema.items[kind] else Plain
  }

  /** Under the key that the code looks for, the schema has an artifact location. */
  ghost predicate KnowsLocations(schema: Schema) {
    forall kind :: Under(schema, kind, "artifactLocation") == Location
  }

  const LOCATIONS := Group("artifact locations")
  const RELATIONSHIPS := Group("relationships")
  const RELATIONSHIP := Group("relationship")
  const OVERRIDES := Group("rule configuration overrides")
  const OVERRIDE := Group("rule configuration override")

  /** Where SARIF 2.1.0 puts artifact locations (section 3.4) and references to rules (section 3.52), other than the
      rule of a result. The results below hold for any schema that knows `artifactLocation`. */
  const SARIF_SCHEMA := Schema(
    map[(Plain, "artifactLocation") := Location, (Plain, "analysisTarget") := Location,
        (Plain, "executableLocation") := Location, (Plain, "workingDirectory") := Location,
        (Plain, "stdin") := Location, (Plain, "stdout") := Location, (Plain, "stderr") := Location,
        (Plain, "stdoutStderr") := Location, (Plain, "mappedTo") := Location, (Plain, "displayBase") := Location,
        (Plain, "responseFiles") := LOCATIONS, (Plain, "analysisToolLogFiles") := LOCATIONS,
        (Plain, "originalUriBaseIds") := LOCATIONS,
        (Plain, "relationships") := RELATIONSHIPS, (RELATIONSHIP, "target") := Reference,
        (Plain, "ruleConfigurationOverrides") := OVERRIDES, (OVERRIDE, "descriptor") := Reference,
        (Plain, "associatedRule") := Reference],
    map[LOCATIONS := Location],
    map[LOCATIONS := Location, RELATIONSHIPS := RELATIONSHIP, OVERRIDES := OVERRIDE])

  function IntAt(d: Dict, key: string): Option<int> {
    if key in d && d[key].Num? then Some(d[key].number) else None
  }

  function TextAt(d: Dict, key: string): Option<string> {
    if key in d && d[key].Str? then Some(d[key].text) else None
  }

  function ToolRefOf(v: Json): ToolRef {
    if v.Obj? then ToolRef(IntAt(v.fields, "index"), TextAt(v.fields, "name"), TextAt(v.fields, "guid"))
    else ToolRef(None, None, None)
  }

  /** The reference is one into the driver's rules: it names no component, or it names the driver. */
  predicate NamesDriver(reading: Reading, reference: Dict) {
    "toolComponent" !in reference || ToolRefOf(reference["toolComponent"]) in reading.driver
  }

  /** The tables that references lead to: the artifacts, and any labels that tell the driver's rules apart (their
      ids, their content or their original places). */
  datatype Tables = Tables(artifacts: seq<Json>, labels: seq<Json>)

  predicate SameSizes(before: Tables, after: Tables) {
    |before.artifacts| == |after.artifacts| && |before.labels| == |after.labels|
  }

  predicate Indexes(fields: Dict, key: string, size: nat)
    requires key in fields
  {
    key == "index" && fields[key].Num? && 0 <= fields[key].number < size
  }

  /** What the field refers to, if it is the index of a reference. */
  function Referent(reading: Reading, fields: Dict, key: string, kind: Kind, tables: Tables): Option<Json>
    requires key in fields
  {
    if kind.Location? && Indexes(fields, key, |tables.artifacts|) then Some(tables.artifacts[fields[key].number])
    else if kind.Reference? && NamesDriver(reading, fields) && Indexes(fields, key, |tables.labels|)
    then Some(tables.labels[fields[key].number])
    else None
  }

  /** A value with every reference replaced by what it refers to; a location with a URI is identified by the URI, and
      a reference into another component by its index there. */
  function Denote(reading: Reading, v: Json, kind: Kind, tables: Tables): Json
    decreases v
  {
    match v
    case Obj(fields) =>
      Obj(map key | key in fields && Kept(fields, key, kind.Location?, true) ::
            var referent := Referent(reading, fields, key, kind, tables);
            if referent.Some? then referent.value
            else Denote(reading, fields[key], Under(reading.schema, kind, key), tables))
    case Arr(items) =>
      Arr(seq(|items|, i requires 0 <= i < |items| => Denote(reading, items[i], InList(reading.schema, kind), tables)))
    case _ => v
  }

  // ---- Values --------------------------------------------------------------------------------------------

  /** Every reference that is not rewritten (the code rewrites the artifact locations right under the key
      `artifactLocation`) and is not a location with a URI finds the same in both tables. */
  predicate Stable(reading: Reading, v: Json, kind: Kind, rewritten: bool, before: Tables, after: Tables)
    requires SameSizes(before, after)
    decreases v
  {
    match v
    case Obj(fields) => forall key :: key in fields ==>
        StableField(reading, fields, key, kind, rewritten, before, after)
    case Arr(items) =>
      forall i :: 0 <= i < |items| ==> Stable(reading, items[i], InList(reading.schema, kind), false, before, after)
    case _ => true
  }

  predicate StableField(reading: Reading, fields: Dict, key: string, kind: Kind, rewritten: bool, before: Tables,
                        after: Tables)
    requires key in fields && SameSizes(before, after)
    decreases Obj(fields), 0
  {
    if key == "index" && (rewritten || (kind.Location? && HasUri(fields))) then true
    else if Referent(reading, fields, key, kind, before).Some?
    then Referent(reading, fields, key, kind, before) == Referent(reading, fields, key, kind, after)
    else Stable(reading, fields[key], Under(reading.schema, kind, key), key == "artifactLocation", before, after)
  }

  /** The artifact tables agree on every mapped index. */
  ghost predicate Moves(m: IndexMap, before: Tables, after: Tables) {
    && SameSizes(before, after)
    && forall i :: 0 <= i < |before.artifacts| ==>
         i in m && 0 <= m[i] < |after.artifacts| && after.artifacts[m[i]] == before.artifacts[i]
  }

  /** Rewriting a tool component reference leaves the names in it alone. */
  lemma RewriteKeepsToolRef(v: Json, m: IndexMap, drop: bool)
    ensures ToolRefOf(Rewrite(v, false, m, drop)) == ToolRefOf(v)
  {
    if v.Obj? {
      var r := Rewrite(v, false, m, drop).fields;
      assert forall key :: key in v.fields ==>
               key in r && r[key] == Rewrite(v.fields[key], key == "artifactLocation", m, drop);
    }
  }

  lemma RewriteKeepsDriver(reading: Reading, fields: Dict, rewritten: bool, m: IndexMap)
    ensures NamesDriver(reading, Rewrite(Obj(fields), rewritten, m, true).fields) == NamesDriver(reading, fields)
  {
    assert "toolComponent" != "index" && "toolComponent" != "artifactLocation" by { assert |"toolComponent"| == 13; }
    if "toolComponent" in fields {
      RewriteKeepsToolRef(fields["toolComponent"], m, true);
    }
  }

  lemma SameItemsIff(a: seq<Json>, b: seq<Json>)
    requires |a| == |b|
    ensures a == b <==> forall i :: 0 <= i < |a| ==> a[i] == b[i]
  {
  }

  lemma SameFieldsIff(a: Dict, b: Dict)
    requires a.Keys == b.Keys
    ensures a == b <==> forall key :: key in b ==> a[key] == b[key]
  {
    if forall key :: key in b ==> a[key] == b[key] {
      assert forall key :: key in a <==> key in b;
    }
  }

  /** Remapping a value keeps its meaning over the moved tables exactly when the value is stable. */
  lemma {:induction false} RemapKeepsMeaningIff(reading: Reading, v: Json, kind: Kind, rewritten: bool, m: IndexMap,
                                                before: Tables, after: Tables)
    requires Moves(m, before, after) && Resolvable(v, rewritten, |before.artifacts|)
    requires KnowsLocations(reading.schema) && (rewritten ==> kind.Location?)
    ensures Denote(reading, Rewrite(v, rewritten, m, true), kind, after) == Denote(reading, v, kind, before) <==>
            Stable(reading, v, kind, rewritten, before, after)
    decreases v, 1
  {
    match v
    case Obj(fields) => FieldsKeepMeaningIff(reading, fields, kind, rewritten, m, before, after);
    case Arr(items) =>
      var moved, inner := Rewrite(v, rewritten, m, true), InList(reading.schema, kind);
      var left, right := Denote(reading, moved, kind, after).items, Denote(reading, v, kind, before).items;
      forall i | 0 <= i < |items|
        ensures left[i] == right[i] <==> Stable(reading, items[i], inner, false, before, after)
      {
        assert moved.items[i] == Rewrite(items[i], false, m, true);
        RemapKeepsMeaningIff(reading, items[i], inner, false, m, before, after);
      }
      SameItemsIff(left, right);
      assert Denote(reading, moved, kind, after) == Arr(left) && Denote(reading, v, kind, before) == Arr(right);
    case _ =>
  }

  /** What one kept field denotes. */
  function DenoteField(reading: Reading, fields: Dict, key: string, kind: Kind, tables: Tables): Json
    requires key in fields
  {
    var referent := Referent(reading, fields, key, kind, tables);
    if referent.Some? then referent.value else Denote(reading, fields[key], Under(reading.schema, kind, key), tables)
  }

  lemma {:induction false} FieldKeepsMeaningIff(reading: Reading, fields: Dict, key: string, kind: Kind,
                                                rewritten: bool, m: IndexMap, before: Tables, after: Tables)
    requires Moves(m, before, after) && Resolvable(Obj(fields), rewritten, |before.artifacts|)
    requires KnowsLocations(reading.schema) && (rewritten ==> kind.Location?)
    requires key in fields && Kept(fields, key, kind.Location?, true)
    ensures var moved := Rewrite(Obj(fields), rewritten, m, true).fields;
            && key in moved
            && (DenoteField(reading, moved, key, kind, after) == DenoteField(reading, fields, key, kind, before) <==>
                StableField(reading, fields, key, kind, rewritten, before, after))
    decreases Obj(fields), 0, 0
  {
    RewriteKeepsDriver(reading, fields, rewritten, m);
    var moved := Rewrite(Obj(fields), rewritten, m, true).fields;
    if rewritten && key == "index" {
      assert moved[key] == Num(m[fields[key].number]);
    } else {
      assert moved[key] == Rewrite(fields[key], key == "artifactLocation", m, true);
      if Referent(reading, fields, key, kind, before).None? {
        assert Under(reading.schema, kind, "artifactLocation") == Location;
        RemapKeepsMeaningIff(reading, fields[key], Under(reading.schema, kind, key),
                             key == "artifactLocation", m, before, after);
      }
    }
  }

  lemma {:induction false} FieldsKeepMeaningIff(reading: Reading, fields: Dict, kind: Kind, rewritten: bool,
                                                m: IndexMap, before: Tables, after: Tables)
    requires Moves(m, before, after) && Resolvable(Obj(fields), rewritten, |before.artifacts|)
    requires KnowsLocations(reading.schema) && (rewritten ==> kind.Location?)
    ensures Denote(reading, Rewrite(Obj(fields), rewritten, m, true), kind, after) ==
            Denote(reading, Obj(fields), kind, before) <==>
            Stable(reading, Obj(fields), kind, rewritten, before, after)
    decreases Obj(fields), 0, 1
  {
    var moved := Rewrite(Obj(fields), rewritten, m, true);
    var left, right := Denote(reading, moved, kind, after).fields, Denote(reading, Obj(fields), kind, before).fields;
    SameKeysKept(reading, fields, kind, rewritten, m, before, after);
    forall key | key in right
      ensures left[key] == right[key] <==> StableField(reading, fields, key, kind, rewritten, before, after)
    {
      FieldKeepsMeaningIff(reading, fields, key, kind, rewritten, m, before, after);
      assert left[key] == DenoteField(reading, moved.fields, key, kind, after);
    }
    SameFieldsIff(left, right);
    StableByKeptFields(reading, fields, kind, rewritten, before, after);
  }

  /** Fields that the meaning does not keep are stable anyway. */
  lemma StableByKeptFields(reading: Reading, fields: Dict, kind: Kind, rewritten: bool, before: Tables, after: Tables)
    requires SameSizes(before, after)
    ensures Stable(reading, Obj(fields), kind, rewritten, before, after) <==>
            forall key :: key in fields && Kept(fields, key, kind.Location?, true) ==>
              StableField(reading, fields, key, kind, rewritten, before, after)
  {
    assert forall key :: key in fields && !Kept(fields, key, kind.Location?, true) ==>
        StableField(reading, fields, key, kind, rewritten, before, after);
  }

  lemma SameKeysKept(reading: Reading, fields: Dict, kind: Kind, rewritten: bool, m: IndexMap, before: Tables,
                     after: Tables)
    requires rewritten ==> kind.Location?
    ensures Denote(reading, Rewrite(Obj(fields), rewritten, m, true), kind, after).fields.Keys ==
            Denote(reading, Obj(fields), kind, before).fields.Keys
    ensures forall key :: key in Denote(reading, Obj(fields), kind, before).fields <==>
              key in fields && Kept(fields, key, kind.Location?, true)
  {
    RewriteKeepsUri(fields, rewritten, m, true);
  }

  // ---- Runs -----------------------------------------------------------------------------------------------

  /** The `rule` of a result, without its index. */
  function RuleReference(body: Json): Dict {
    if body.Obj? && "rule" in body.fields && body.fields["rule"].Obj? then body.fields["rule"].fields else map[]
  }

  datatype RuleTarget = DriverRule(rule: Json) | OtherRule(component: ToolRef, index: int) | NoRule

  /** The rule that an index of a result refers to: one of the component its `rule` names, of the driver if it names
      none. */
  function RuleTargetOf(reading: Reading, body: Json, index: Option<int>, labels: seq<Json>): RuleTarget {
    if index.None? then NoRule
    else if !NamesDriver(reading, RuleReference(body)) then
      OtherRule(ToolRefOf(RuleReference(body)["toolComponent"]), index.value)
    else if 0 <= index.value < |labels| then DriverRule(labels[index.value])
    else NoRule
  }

  ghost predicate SameFinding(reading: Reading, f: Finding, g: Finding, before: Tables, after: Tables) {
    && RuleTargetOf(reading, g.body, g.ruleIndex, after.labels) ==
       RuleTargetOf(reading, f.body, f.ruleIndex, before.labels)
    && RuleTargetOf(reading, g.body, g.referenceIndex, after.labels) ==
       RuleTargetOf(reading, f.body, f.referenceIndex, before.labels)
    && Denote(reading, g.body, Plain, after) == Denote(reading, f.body, Plain, before)
  }

  function TablesOf(run: Run, labels: seq<Json>): Tables {
    Tables(run.artifacts, labels)
  }

  /** Every result, every rule and everything else refers to the same rules and artifacts as before. The rules are told
      apart by labels, which move with them. */
  ghost predicate SameMeaning(reading: Reading, run: Run, labels: seq<Json>, ruleOrder: seq<nat>, out: Run)
    requires |labels| == |run.rules| && forall k :: 0 <= k < |ruleOrder| ==> ruleOrder[k] < |run.rules|
  {
    var before, after := TablesOf(run, labels), TablesOf(out, Listed(labels, ruleOrder));
    && |out.results| == |run.results| && |out.rules| == |ruleOrder|
    && (forall i :: 0 <= i < |run.results| ==> SameFinding(reading, run.results[i], out.results[i], before, after))
    && (forall k :: 0 <= k < |ruleOrder| ==>
          Denote(reading, out.rules[k], Plain, after) == Denote(reading, run.rules[ruleOrder[k]], Plain, before))
    && Denote(reading, out.rest, Plain, after) == Denote(reading, run.rest, Plain, before)
  }

  /** The sort leaves the rule at this index in its place. */
  predicate InPlace(index: Option<int>, ruleOrder: seq<nat>) {
    index.Some? && 0 <= index.value < |ruleOrder| ==> ruleOrder[index.value] == index.value
  }

  predicate StableFinding(reading: Reading, f: Finding, ruleOrder: seq<nat>, before: Tables, after: Tables)
    requires SameSizes(before, after)
  {
    && (NamesDriver(reading, RuleReference(f.body))
        || (InPlace(f.ruleIndex, ruleOrder) && InPlace(f.referenceIndex, ruleOrder)))
    && Stable(reading, f.body, Plain, false, before, after)
  }

  /** The tables after the sort. */
  function Sorted(run: Run, labels: seq<Json>, ruleOrder: seq<nat>, artifactOrder: seq<nat>): Tables
    requires |labels| == |run.rules|
    requires forall k :: 0 <= k < |ruleOrder| ==> ruleOrder[k] < |run.rules|
    requires forall k :: 0 <= k < |artifactOrder| ==> artifactOrder[k] < |run.artifacts|
  {
    Tables(Listed(run.artifacts, artifactOrder), Listed(labels, ruleOrder))
  }

  /** The condition on a run: each reference that is not rewritten finds the same after the sort, and each result whose
      rule is in another component has an index that the sort of the driver's rules leaves in place. */
  ghost predicate StableRun(reading: Reading, run: Run, labels: seq<Json>, ruleOrder: seq<nat>, artifactOrder: seq<nat>)
    requires |labels| == |run.rules| == |ruleOrder| && |artifactOrder| == |run.artifacts|
    requires forall k :: 0 <= k < |ruleOrder| ==> ruleOrder[k] < |run.rules|
    requires forall k :: 0 <= k < |artifactOrder| ==> artifactOrder[k] < |run.artifacts|
  {
    var before, after := TablesOf(run, labels), Sorted(run, labels, ruleOrder, artifactOrder);
    && (forall i :: 0 <= i < |run.results| ==> StableFinding(reading, run.results[i], ruleOrder, before, after))
    && (forall k :: 0 <= k < |run.rules| ==> Stable(reading, run.rules[k], Plain, false, before, after))
    && Stable(reading, run.rest, Plain, false, before, after)
  }

  lemma TablesMove(run: Run, labels: seq<Json>, ruleOrder: seq<nat>, artifactOrder: seq<nat>)
    requires |labels| == |run.rules|
    requires Sorts(RuleIds(run), ruleOrder, |run.rules|) && Sorts(ArtifactUris(run), artifactOrder, |run.artifacts|)
    ensures Moves(IndexMapOf(artifactOrder), TablesOf(run, labels), Sorted(run, labels, ruleOrder, artifactOrder))
  {
    forall i | 0 <= i < |run.artifacts|
      ensures i in IndexMapOf(artifactOrder) && 0 <= IndexMapOf(artifactOrder)[i] < |run.artifacts|
      ensures artifactOrder[IndexMapOf(artifactOrder)[i]] == i
    {
      IndexMapOfSorted(ArtifactUris(run), artifactOrder, i);
    }
  }

  lemma RemapKeepsRuleReference(reading: Reading, body: Json, m: IndexMap)
    ensures NamesDriver(reading, RuleReference(Remap(body, m))) == NamesDriver(reading, RuleReference(body))
    ensures "toolComponent" in RuleReference(body) ==>
              && "toolComponent" in RuleReference(Remap(body, m))
              && ToolRefOf(RuleReference(Remap(body, m))["toolComponent"]) ==
                 ToolRefOf(RuleReference(body)["toolComponent"])
  {
    if body.Obj? && "rule" in body.fields {
      var moved := Remap(body, m).fields;
      assert "rule" != "artifactLocation" by { assert |"rule"| == 4; }
      assert moved["rule"] == Rewrite(body.fields["rule"], false, m, true);
      assert "toolComponent" != "artifactLocation" by { assert |"toolComponent"| == 13; }
      if body.fields["rule"].Obj? && "toolComponent" in body.fields["rule"].fields {
        RewriteKeepsToolRef(body.fields["rule"].fields["toolComponent"], m, true);
      }
    }
  }

  /** A result that refers to the driver's rules keeps its rule; one that refers to another component keeps it exactly
      when the sort leaves its index in place. */
  lemma RuleKeptIff(reading: Reading, run: Run, labels: seq<Json>, ruleOrder: seq<nat>, body: Json, index: Option<int>,
                    m: IndexMap)
    requires |labels| == |run.rules| && Sorts(RuleIds(run), ruleOrder, |run.rules|) && ValidIndex(index, |run.rules|)
    ensures RuleTargetOf(reading, Remap(body, m), MapOptional(index, IndexMapOf(ruleOrder)),
                         Listed(labels, ruleOrder)) ==
            RuleTargetOf(reading, body, index, labels) <==>
            NamesDriver(reading, RuleReference(body)) || InPlace(index, ruleOrder)
  {
    RemapKeepsRuleReference(reading, body, m);
    if index.Some? {
      IndexMapOfSorted(RuleIds(run), ruleOrder, index.value);
      IndexMapInverts(RuleIds(run), ruleOrder, |ruleOrder|, index.value);
      assert ruleOrder[..|ruleOrder|] == ruleOrder;
    }
  }

  lemma FindingKeptIff(reading: Reading, run: Run, labels: seq<Json>, ruleOrder: seq<nat>, artifactOrder: seq<nat>,
                       i: nat)
    requires |labels| == |run.rules| && KnowsLocations(reading.schema) && Normalizable(run) && i < |run.results|
    requires Sorts(RuleIds(run), ruleOrder, |run.rules|) && Sorts(ArtifactUris(run), artifactOrder, |run.artifacts|)
    ensures var before, after := TablesOf(run, labels), Sorted(run, labels, ruleOrder, artifactOrder);
            SameFinding(reading, run.results[i], Normalized(run, ruleOrder, artifactOrder).results[i],
                        before, after) <==>
            StableFinding(reading, run.results[i], ruleOrder, before, after)
  {
    var before, after := TablesOf(run, labels), Sorted(run, labels, ruleOrder, artifactOrder);
    var f, m := run.results[i], IndexMapOf(artifactOrder);
    TablesMove(run, labels, ruleOrder, artifactOrder);
    RuleKeptIff(reading, run, labels, ruleOrder, f.body, f.ruleIndex, m);
    RuleKeptIff(reading, run, labels, ruleOrder, f.body, f.referenceIndex, m);
    RemapKeepsMeaningIff(reading, f.body, Plain, false, m, before, after);
  }

  /** Normalisation preserves meaning if and only if the run is stable, however the rules are told apart. */
  lemma MeaningKeptIff(reading: Reading, run: Run, labels: seq<Json>, ruleOrder: seq<nat>, artifactOrder: seq<nat>)
    requires |labels| == |run.rules| && KnowsLocations(reading.schema) && Normalizable(run)
    requires Sorts(RuleIds(run), ruleOrder, |run.rules|) && Sorts(ArtifactUris(run), artifactOrder, |run.artifacts|)
    ensures SameMeaning(reading, run, labels, ruleOrder, Normalized(run, ruleOrder, artifactOrder)) <==>
            StableRun(reading, run, labels, ruleOrder, artifactOrder)
  {
    var out := Normalized(run, ruleOrder, artifactOrder);
    var before, after := TablesOf(run, labels), Sorted(run, labels, ruleOrder, artifactOrder);
    assert after == TablesOf(out, Listed(labels, ruleOrder)) by {
      assert out.artifacts == Listed(run.artifacts, artifactOrder);
    }
    TablesMove(run, labels, ruleOrder, artifactOrder);
    RemapKeepsMeaningIff(reading, run.rest, Plain, false, IndexMapOf(artifactOrder), before, after);
    forall i | 0 <= i < |run.results|
      ensures SameFinding(reading, run.results[i], out.results[i], before, after) <==>
              StableFinding(reading, run.results[i], ruleOrder, before, after)
    {
      FindingKeptIff(reading, run, labels, ruleOrder, artifactOrder, i);
    }
    RulesKeptIff(reading, run, labels, ruleOrder, artifactOrder);
  }

  lemma RulesKeptIff(reading: Reading, run: Run, labels: seq<Json>, ruleOrder: seq<nat>, artifactOrder: seq<nat>)
    requires |labels| == |run.rules| && KnowsLocations(reading.schema) && Normalizable(run)
    requires Sorts(RuleIds(run), ruleOrder, |run.rules|) && Sorts(ArtifactUris(run), artifactOrder, |run.artifacts|)
    ensures var before, after := TablesOf(run, labels), Sorted(run, labels, ruleOrder, artifactOrder);
            var out := Normalized(run, ruleOrder, artifactOrder);
            (forall k :: 0 <= k < |ruleOrder| ==>
               Denote(reading, out.rules[k], Plain, after) ==
                 Denote(reading, run.rules[ruleOrder[k]], Plain, before)) <==>
            forall k :: 0 <= k < |run.rules| ==> Stable(reading, run.rules[k], Plain, false, before, after)
  {
    var before, after := TablesOf(run, labels), Sorted(run, labels, ruleOrder, artifactOrder);
    var out := Normalized(run, ruleOrder, artifactOrder);
    TablesMove(run, labels, ruleOrder, artifactOrder);
    forall k | 0 <= k < |ruleOrder|
      ensures Denote(reading, out.rules[k], Plain, after) ==
              Denote(reading, run.rules[ruleOrder[k]], Plain, before) <==>
              Stable(reading, run.rules[ruleOrder[k]], Plain, false, before, after)
    {
      RemapKeepsMeaningIff(reading, run.rules[ruleOrder[k]], Plain, false, IndexMapOf(artifactOrder), before, after);
    }
    if forall k :: 0 <= k < |ruleOrder| ==> Stable(reading, run.rules[ruleOrder[k]], Plain, false, before, after) {
      forall i | 0 <= i < |run.rules|
        ensures Stable(reading, run.rules[i], Plain, false, before, after)
      {
        assert i in ruleOrder;
        var k :| 0 <= k < |ruleOrder| && ruleOrder[k] == i;
      }
    }
  }

  // ---- When that is so ----------------------------------------------------------------------------------------

  /** Every artifact location without a URI stands right under the key `artifactLocation`, and no reference to a rule of
      the driver carries an index. */
  predicate NoStrays(reading: Reading, v: Json, kind: Kind, rewritten: bool)
    decreases v
  {
    match v
    case Obj(fields) =>
      && (kind.Location? && "index" in fields ==> rewritten || HasUri(fields))
      && (kind.Reference? && "index" in fields ==> !NamesDriver(reading, fields))
      && forall key :: key in fields ==>
           NoStrays(reading, fields[key], Under(reading.schema, kind, key), key == "artifactLocation")
    case Arr(items) => forall i :: 0 <= i < |items| ==> NoStrays(reading, items[i], InList(reading.schema, kind), false)
    case _ => true
  }

  /** A value without strays is stable, whatever the tables. */
  lemma {:induction false} NoStraysIsStable(reading: Reading, v: Json, kind: Kind, rewritten: bool, before: Tables,
                                            after: Tables)
    requires SameSizes(before, after) && NoStrays(reading, v, kind, rewritten)
    ensures Stable(reading, v, kind, rewritten, before, after)
    decreases v
  {
    match v
    case Obj(fields) =>
      forall key | key in fields
        ensures StableField(reading, fields, key, kind, rewritten, before, after)
      {
        NoStraysIsStable(reading, fields[key], Under(reading.schema, kind, key),
                         key == "artifactLocation", before, after);
      }
    case Arr(items) =>
      forall i | 0 <= i < |items|
        ensures Stable(reading, items[i], InList(reading.schema, kind), false, before, after)
      {
        NoStraysIsStable(reading, items[i], InList(reading.schema, kind), false, before, after);
      }
    case _ =>
  }

  /** So a run without strays, whose results refer to the driver's rules, keeps its meaning. */
  lemma NoStraysKeepsMeaning(reading: Reading, run: Run, labels: seq<Json>, ruleOrder: seq<nat>,
                             artifactOrder: seq<nat>)
    requires |labels| == |run.rules| && KnowsLocations(reading.schema) && Normalizable(run)
    requires Sorts(RuleIds(run), ruleOrder, |run.rules|) && Sorts(ArtifactUris(run), artifactOrder, |run.artifacts|)
    requires forall i :: 0 <= i < |run.rules| ==> NoStrays(reading, run.rules[i], Plain, false)
    requires forall i :: 0 <= i < |run.results| ==>
               NamesDriver(reading, RuleReference(run.results[i].body))
                 && NoStrays(reading, run.results[i].body, Plain, false)
    requires NoStrays(reading, run.rest, Plain, false)
    ensures SameMeaning(reading, run, labels, ruleOrder, Normalized(run, ruleOrder, artifactOrder))
  {
    var before, after := TablesOf(run, labels), Sorted(run, labels, ruleOrder, artifactOrder);
    MeaningKeptIff(reading, run, labels, ruleOrder, artifactOrder);
    forall v | NoStrays(reading, v, Plain, false)
      ensures Stable(reading, v, Plain, false, before, after)
    {
      NoStraysIsStable(reading, v, Plain, false, before, after);
    }
  }

  lemma SarifSchemaKnowsLocations()
    ensures KnowsLocations(SARIF_SCHEMA) && Under(SARIF_SCHEMA, Plain, "analysisTarget") == Location
  {
    forall kind
      ensures Under(SARIF_SCHEMA, kind, "artifactLocation") == Location
    {
      assert (Plain, "artifactLocation") in SARIF_SCHEMA.fields;
    }
  }

  // ---- Two runs that change their meaning ------------------------------------------------------------------------

  /** Two keys in descending order are swapped by the sort. */
  lemma DescendingPairIsSwapped(keys: seq<string>, order: seq<nat>)
    requires |keys| == 2 && Less(keys[1], keys[0]) && Sorts(keys, order, 2)
    ensures order == [1, 0]
  {
    assert 0 in order && 1 in order;
    BeforeIsTotal(keys, 0, 1);
    assert Before(keys, order[0], order[1]);
  }

  function Artifact(uri: string): Json {
    Obj(map["location" := Obj(map["uri" := Str(uri)])])
  }

  function Indexed(index: int): Json {
    Obj(map["index" := Num(index)])
  }

  function TargetBody(index: int): Json {
    Obj(map["analysisTarget" := Indexed(index)])
  }

  /** Artifacts with these URIs, and a result whose `analysisTarget` names one of them. */
  function TargetRun(first: string, second: string, index: int): Run {
    Run([], [Artifact(first), Artifact(second)], [Finding(None, None, TargetBody(index))], Null)
  }

  lemma TargetRunIsNormalizable(first: string, second: string, index: int)
    ensures Normalizable(TargetRun(first, second, index))
            && ArtifactUris(TargetRun(first, second, index)) == [first, second]
  {
    assert Resolvable(Indexed(index), false, 2);
    assert Resolvable(TargetBody(index), false, 2);
    assert forall uri :: ArtifactUri(Artifact(uri)) == Some(uri);
  }

  lemma TargetBodyIsUnstable(reading: Reading, before: Tables, after: Tables)
    requires Under(reading.schema, Plain, "analysisTarget") == Location
    requires SameSizes(before, after) && |before.artifacts| == 2 && before.artifacts[0] != after.artifacts[0]
    ensures !Stable(reading, TargetBody(0), Plain, false, before, after)
  {
    assert "index" in Indexed(0).fields && !HasUri(Indexed(0).fields);
    assert !StableField(reading, Indexed(0).fields, "index", Location, false, before, after);
    assert !Stable(reading, Indexed(0), Location, false, before, after);
    assert "analysisTarget" in TargetBody(0).fields && TargetBody(0).fields["analysisTarget"] == Indexed(0);
    assert "analysisTarget" != "index" by { assert |"index"| == 5; }
    assert !StableField(reading, TargetBody(0).fields, "analysisTarget", Plain, false, before, after);
  }

  /** An artifact location that is not rewritten and changes its artifact: after the sort, index 0 names another
      file. */
  lemma StrayChangesArtifact(driver: set<ToolRef>, ruleOrder: seq<nat>, artifactOrder: seq<nat>)
    requires var run := TargetRun("b", "a", 0);
             Sorts(RuleIds(run), ruleOrder, |run.rules|) && Sorts(ArtifactUris(run), artifactOrder, |run.artifacts|)
    ensures var run := TargetRun("b", "a", 0);
            && Normalizable(run)
            && !SameMeaning(Reading(SARIF_SCHEMA, driver), run, [], ruleOrder,
                            Normalized(run, ruleOrder, artifactOrder))
  {
    var run, reading := TargetRun("b", "a", 0), Reading(SARIF_SCHEMA, driver);
    SarifSchemaKnowsLocations();
    TargetRunIsNormalizable("b", "a", 0);
    DescendingPairIsSwapped(ArtifactUris(run), artifactOrder);
    MeaningKeptIff(reading, run, [], ruleOrder, artifactOrder);
    var before, after := TablesOf(run, []), Sorted(run, [], ruleOrder, artifactOrder);
    ArtifactsDiffer();
    TargetBodyIsUnstable(reading, before, after);
    assert !StableFinding(reading, run.results[0], ruleOrder, before, after);
  }

  lemma ArtifactsDiffer()
    ensures Artifact("a") != Artifact("b")
  {
    assert Artifact("a").fields["location"].fields["uri"] != Artifact("b").fields["location"].fields["uri"];
  }

  function Rule(id: string): Json {
    Obj(map["id" := Str(id)])
  }

  function ExtensionBody(): Json {
    Obj(map["rule" := Obj(map["toolComponent" := Indexed(0)])])
  }

  /** Two rules of the driver, and a result whose rule is the first one of the first extension. */
  function ExtensionRun(): Run {
    Run([Rule("b"), Rule("a")], [], [Finding(None, Some(0), ExtensionBody())], Null)
  }

  /** A rule reference into an extension is rewritten as one into the driver: the result names the second rule of the
      extension afterwards. */
  lemma ExtensionRuleChanges(reading: Reading, labels: seq<Json>, ruleOrder: seq<nat>, artifactOrder: seq<nat>)
    requires KnowsLocations(reading.schema) && ToolRef(Some(0), None, None) !in reading.driver && |labels| == 2
    requires var run := ExtensionRun();
             Sorts(RuleIds(run), ruleOrder, |run.rules|) && Sorts(ArtifactUris(run), artifactOrder, |run.artifacts|)
    ensures var run, out := ExtensionRun(), Normalized(ExtensionRun(), ruleOrder, artifactOrder);
            && Normalizable(run) && out.results[0].referenceIndex == Some(1)
            && !SameMeaning(reading, run, labels, ruleOrder, out)
  {
    var run := ExtensionRun();
    ExtensionRunIsNormalizable();
    DescendingPairIsSwapped(RuleIds(run), ruleOrder);
    assert Normalized(run, ruleOrder, artifactOrder).results[0].referenceIndex == Some(1) by {
      IndexMapOfSorted(RuleIds(run), ruleOrder, 0);
    }
    MeaningKeptIff(reading, run, labels, ruleOrder, artifactOrder);
    ExtensionIsNotDriver(reading);
    assert !StableFinding(reading, run.results[0], ruleOrder, TablesOf(run, labels),
                          Sorted(run, labels, ruleOrder, artifactOrder));
  }

  lemma ExtensionIsNotDriver(reading: Reading)
    requires ToolRef(Some(0), None, None) !in reading.driver
    ensures !NamesDriver(reading, RuleReference(ExtensionBody()))
  {
    assert RuleReference(ExtensionBody()) == map["toolComponent" := Indexed(0)];
    assert "name" !in Indexed(0).fields && "guid" !in Indexed(0).fields by {
      assert |"name"| == |"guid"| == 4 != |"index"|;
    }
    assert ToolRefOf(Indexed(0)) == ToolRef(Some(0), None, None);
  }

  lemma ExtensionRunIsNormalizable()
    ensures Normalizable(ExtensionRun()) && RuleIds(ExtensionRun()) == ["b", "a"]
  {
    RuleIsResolvable("a");
    RuleIsResolvable("b");
    ExtensionBodyIsResolvable();
  }

  lemma RuleIsResolvable(id: string)
    ensures RuleId(Rule(id)) == Some(id) && Resolvable(Rule(id), false, 0)
  {
    assert Rule(id).fields["id"] == Str(id);
  }

  lemma ExtensionBodyIsResolvable()
    ensures Resolvable(ExtensionBody(), false, 0)
  {
    var rule := Obj(map["toolComponent" := Indexed(0)]);
    assert Resolvable(Indexed(0), false, 0);
    assert Resolvable(rule, false, 0) by {
      assert "toolComponent" != "artifactLocation" by { assert |"toolComponent"| == 13; }
    }
    assert "rule" != "artifactLocation" by { assert |"rule"| == 4; }
  }
}
