/** When preprocessing is idempotent: exactly when no layer hides a dictionary of the built-in defaults behind a plain
    value, the section that is dropped from unsupervised applications excepted. */
module ConfigFixpoint {
  import opened Common
  import opened Json
  import opened ConfigMerge
  import opened ConfigDefaults

  predicate Supervised(properties: Dict) {
    IsSupervised(GetOr(Layer(properties, "application_profile"), "application_type", Null))
  }

  /** The defaults a component's properties keep: for an application that is not supervised, all but
      `alive_supervision`. */
  function Expected(defaults: Dict, properties: Dict): Dict {
    if Supervised(properties) then defaults else Trim(defaults)
  }

  /** Properties without `alive_supervision`. */
  function Trim(properties: Dict): Dict {
    if Part(properties, "application_profile").None? then properties
    else properties["application_profile" := Obj(properties["application_profile"].fields - {"alive_supervision"})]
  }

  /** Properties as the clean-up leaves them. */
  predicate IsClean(p: Dict) {
    && ApplyFileStateDefaults(p) == Some(p) && Part(p, "application_profile").Some?
    && (!Supervised(p) ==> "alive_supervision" !in p["application_profile"].fields)
  }

  lemma CleanedIsClean(r: Dict)
    requires CleanProperties(r).Some?
    ensures IsClean(CleanProperties(r).value)
  {
    var f := ApplyFileStateDefaults(r).value;
    var p := CleanProperties(r).value;
    FileStateIdempotent(r);
    TypeIsNotAlive();
    assert "ready_condition" != "application_profile" by { assert |"ready_condition"| == 15; }
    FileStateDependsOnCondition(f, p);
  }

  lemma TypeIsNotAlive()
    ensures "application_type" != "alive_supervision"
  {
    assert "application_type"[1] == 'p' && "alive_supervision"[1] == 'l';
  }

  /** Away from the profile, merging the defaults into clean properties changes nothing exactly where they are
      covered. */
  lemma CoveredAwayFromProfile(g: Dict, p: Dict, key: string)
    requires key in p
    ensures Merge(g, p)[key] == p[key] <==> (Merges(g, p, key) ==> Covered(g[key].fields, p[key].fields))
  {
    if Merges(g, p, key) {
      MergeIsUpperIffCovered(g[key].fields, p[key].fields);
    }
  }

  /** What the clean-up does to the profile of merged properties. */
  lemma ProfileKeptIff(lower: Dict, profile: Dict)
    requires !IsSupervised(GetOr(profile, "application_type", Null)) ==> "alive_supervision" !in profile
    ensures var again := Merge(lower, profile);
            var kept :=
              if IsSupervised(GetOr(again, "application_type", Null)) then again else again - {"alive_supervision"};
            var expected :=
              if IsSupervised(GetOr(profile, "application_type", Null)) then lower else lower - {"alive_supervision"};
            kept == profile <==> Covered(expected, profile)
  {
    TypeIsNotAlive();
    var again := Merge(lower, profile);
    if IsSupervised(GetOr(profile, "application_type", Null)) {
      MergeIsUpperIffCovered(lower, profile);
      assert "application_type" in profile && again["application_type"] == profile["application_type"];
    } else {
      var expected := lower - {"alive_supervision"};
      MergeIsUpperIffCovered(expected, profile);
      assert again - {"alive_supervision"} == Merge(expected, profile);
      if Covered(expected, profile) {
        assert GetOr(again, "application_type", Null) == GetOr(Merge(expected, profile), "application_type", Null);
      }
    }
  }

  /** The profile under its key, before and after. */
  lemma DropIsProfileOnly(g: Dict, p: Dict)
    requires IsClean(p) && Merge(g, p).Keys == p.Keys
    requires forall key :: key in p && key != "application_profile" ==> Merge(g, p)[key] == p[key]
    ensures DropAliveSupervision(Merge(g, p)) == Some(p) <==>
              (Merges(g, p, "application_profile") ==>
                 Covered(Expected(g, p)["application_profile"].fields, p["application_profile"].fields))
  {
    var q := Merge(g, p);
    var profile := p["application_profile"].fields;
    if Merges(g, p, "application_profile") {
      var lower := g["application_profile"].fields;
      ProfileKeptIff(lower, profile);
      var again := Merge(lower, profile);
      assert q["application_profile"] == Obj(again);
      var kept := if IsSupervised(GetOr(again, "application_type", Null)) then again else again - {"alive_supervision"};
      var dropped := DropAliveSupervision(q).value;
      assert dropped["application_profile"] == Obj(kept) && dropped.Keys == p.Keys;
      assert dropped == p <==> kept == profile;
    } else {
      assert q["application_profile"] == p["application_profile"];
      assert q == p;
      assert profile - {"alive_supervision"} == profile || Supervised(p);
      assert p["application_profile" := Obj(profile)] == p;
    }
  }

  /** Cleaning merged properties gives the properties back exactly when they cover what is expected of them. */
  lemma PropertiesKeptIff(g: Dict, p: Dict)
    requires IsClean(p)
    ensures CleanProperties(Merge(g, p)) == Some(p) <==> Covered(Expected(g, p), p)
  {
    var q := Merge(g, p);
    assert Expected(g, p).Keys == g.Keys;
    if g.Keys <= p.Keys {
      assert q.Keys == p.Keys;
      if forall key :: key in p && key != "application_profile" ==> q[key] == p[key] {
        PropertiesKeptIffProfile(g, p);
      } else {
        SomethingElseDiffers(g, p);
      }
    } else {
      var key :| key in g && key !in p;
      assert key in q;
      CleanKeepsKeys(q);
    }
  }

  lemma CleanKeepsKeys(q: Dict)
    ensures CleanProperties(q).Some? ==> CleanProperties(q).value.Keys == q.Keys
    ensures CleanProperties(q).Some? ==>
              forall key :: key in q && key != "application_profile" && key != "ready_condition" ==>
                  CleanProperties(q).value[key] == q[key]
  {
  }

  lemma PropertiesKeptIffProfile(g: Dict, p: Dict)
    requires IsClean(p) && Merge(g, p).Keys == p.Keys && g.Keys <= p.Keys
    requires forall key :: key in p && key != "application_profile" ==> Merge(g, p)[key] == p[key]
    ensures CleanProperties(Merge(g, p)) == Some(p) <==> Covered(Expected(g, p), p)
  {
    var q := Merge(g, p);
    assert "ready_condition" != "application_profile" by { assert |"ready_condition"| == 15; }
    FileStateDependsOnCondition(p, q);
    DropIsProfileOnly(g, p);
    forall key | Merges(Expected(g, p), p, key) && key != "application_profile"
      ensures Covered(Expected(g, p)[key].fields, p[key].fields)
    {
      CoveredAwayFromProfile(g, p, key);
    }
  }

  lemma SomethingElseDiffers(g: Dict, p: Dict)
    requires IsClean(p) && Merge(g, p).Keys == p.Keys && g.Keys <= p.Keys
    requires exists key :: key in p && key != "application_profile" && Merge(g, p)[key] != p[key]
    ensures CleanProperties(Merge(g, p)) != Some(p) && !Covered(Expected(g, p), p)
  {
    var key :| key in p && key != "application_profile" && Merge(g, p)[key] != p[key];
    DifferenceShows(g, p, key);
    CleanKeepsKeys(Merge(g, p));
  }

  lemma DifferenceShows(g: Dict, p: Dict, key: string)
    requires key in p && key != "application_profile" && Merge(g, p)[key] != p[key]
    ensures key != "ready_condition" && !Covered(Expected(g, p), p)
  {
    CoveredAwayFromProfile(g, p, key);
    assert Merges(g, p, key) && Expected(g, p)[key] == g[key];
    assert Merges(Expected(g, p), p, key);
  }

  // ---- Components and the whole configuration ---------------------------------------------------------------

  /** A filled component covers the defaults it was filled from. */
  ghost predicate ComponentCovers(g: Dict, c: Component)
    requires CompleteDefaults(g)
  {
    && c.properties.Some? && c.deployment.Some?
    && Covered(Expected(g["component_properties"].fields, c.properties.value), c.properties.value)
    && Covered(g["deployment_config"].fields, c.deployment.value)
  }

  lemma ComponentKeptIff(g: Dict, merged: Dict, c: Component)
    requires CompleteDefaults(g) && FillComponent(merged, c).Some? && DEPRECATED !in Layer(merged, "deployment_config")
    ensures var out := FillComponent(merged, c).value;
            FillComponent(g, out) == Some(out) <==> ComponentCovers(g, out)
  {
    var out := FillComponent(merged, c).value;
    MigrationDeclares(if c.deployment.Some? then c.deployment.value else map[]);
    assert DEPRECATED !in out.deployment.value && Migrate(out.deployment.value) == Some(out.deployment.value);
    CleanedIsClean(Merge(merged["component_properties"].fields, c.properties.value));
    PropertiesKeptIff(g["component_properties"].fields, out.properties.value);
    MergeIsUpperIffCovered(g["deployment_config"].fields, out.deployment.value);
  }

  ghost predicate ComponentsCover(g: Dict, components: map<string, Component>)
    requires CompleteDefaults(g)
  {
    forall name :: name in components ==> ComponentCovers(g, components[name])
  }

  ghost predicate TargetsCover(defaults: Dict, runTargets: map<string, Dict>) {
    forall name :: name in runTargets ==> Covered(defaults, runTargets[name])
  }

  /** Every part of a configuration covers the built-in defaults of that part. */
  ghost predicate CoversDefaults(g: Dict, config: Config)
    requires CompleteDefaults(g)
  {
    && ComponentsCover(g, config.components)
    && TargetsCover(g["run_target"].fields, config.runTargets)
    && Covered(g["alive_supervision"].fields, config.aliveSupervision)
    && Covered(g["watchdog"].fields, config.watchdog)
  }

  lemma TargetsKeptIff(defaults: Dict, runTargets: map<string, Dict>)
    ensures FillTargets(defaults, runTargets) == runTargets <==> TargetsCover(defaults, runTargets)
  {
    var filled := FillTargets(defaults, runTargets);
    assert filled.Keys == runTargets.Keys;
    forall name | name in runTargets
      ensures filled[name] == runTargets[name] <==> Covered(defaults, runTargets[name])
    {
      MergeIsUpperIffCovered(defaults, runTargets[name]);
    }
    if forall name :: name in runTargets ==> filled[name] == runTargets[name] {
      assert filled == runTargets;
    }
  }

  lemma ComponentsKeptIff(g: Dict, merged: Dict, components: map<string, Component>)
    requires CompleteDefaults(g) && AllFill(merged, components) && DEPRECATED !in Layer(merged, "deployment_config")
    ensures var out := FillAll(merged, components);
            (AllFill(g, out) && FillAll(g, out) == out) <==> ComponentsCover(g, out)
  {
    var out := FillAll(merged, components);
    forall name | name in out
      ensures FillsTo(g, out[name], out[name]) <==> ComponentCovers(g, out[name])
    {
      ComponentKeptIff(g, merged, components[name]);
    }
    if forall name :: name in out ==> ComponentCovers(g, out[name]) {
      AllFillTo(g, out, out);
    }
    if AllFill(g, out) && FillAll(g, out) == out {
      forall name | name in out
        ensures FillsTo(g, out[name], out[name])
      {
        assert FillAll(g, out)[name] == out[name];
      }
    }
  }

  /** Filling a filled configuration again, part by part. */
  lemma FillKeptIff(g: Dict, merged: Dict, config: Config)
    requires CompleteDefaults(g) && PartsPresent(merged, config) && DEPRECATED !in Layer(merged, "deployment_config")
    requires "initial_run_target" in g ==> "initial_run_target" in merged
    ensures var out := Fill(merged, config);
            (PartsPresent(g, out) && Fill(g, out) == out) <==> CoversDefaults(g, out)
  {
    var out := Fill(merged, config);
    ComponentsKeptIff(g, merged, config.components);
    TargetsKeptIff(Layer(g, "run_target"), out.runTargets);
    MergeIsUpperIffCovered(g["alive_supervision"].fields, out.aliveSupervision);
    MergeIsUpperIffCovered(g["watchdog"].fields, out.watchdog);
    if config.fallbackRunTarget.Some? {
      FallbackIsStable(Layer(g, "run_target"), Layer(merged, "run_target"), config.fallbackRunTarget.value);
    }
  }

  /** Preprocessing its own output gives that output again if and only if the output covers the built-in defaults. */
  lemma FixpointIffCovers(g: Dict, config: Config)
    requires CompleteDefaults(g) && Preprocess(g, config).Some?
    ensures Preprocess(g, Preprocess(g, config).value) == Preprocess(g, config) <==>
            CoversDefaults(g, Preprocess(g, config).value)
  {
    var d := MigrateDefaults(config.defaults).value;
    var merged := Merge(g, d);
    var out := Fill(merged, config);
    MigratedDefaults(config.defaults);
    NoDeprecatedKey(g, d);
    FillKeptIff(g, merged, config);
    if PartsPresent(g, out) {
      PreprocessWithoutDefaults(g, out);
    } else {
      PreprocessFails(g, out);
    }
  }

  lemma NoDeprecatedKey(g: Dict, d: Dict)
    requires CompleteDefaults(g) && DEPRECATED !in Layer(d, "deployment_config")
    ensures DEPRECATED !in Layer(Merge(g, d), "deployment_config")
  {
    MergedPart(g, d, "deployment_config");
  }

  lemma PreprocessFails(g: Dict, config: Config)
    requires config.defaults == map[] && !PartsPresent(g, config)
    ensures Preprocess(g, config) == None
  {
    MergeEmpty(g);
    assert MigrateDefaults(config.defaults) == Some(map[]);
  }

  // ---- The condition on the layers ------------------------------------------------------------------------------

  lemma TrimMerges(a: Dict, b: Dict)
    ensures Merge(Trim(a), Trim(b)) == Trim(Merge(a, b))
  {
    var left, right := Merge(Trim(a), Trim(b)), Trim(Merge(a, b));
    assert left.Keys == right.Keys;
    forall key | key in left
      ensures left[key] == right[key]
    {
      if key == "application_profile" {
        ProfileTrimMerges(a, b);
      } else {
        assert key in a ==> Trim(a)[key] == a[key];
        assert key in b ==> Trim(b)[key] == b[key];
      }
    }
  }

  lemma ProfileTrimMerges(a: Dict, b: Dict)
    requires "application_profile" in a || "application_profile" in b
    ensures Merge(Trim(a), Trim(b))["application_profile"] == Trim(Merge(a, b))["application_profile"]
  {
    if Merges(a, b, "application_profile") {
      AliveTrimMerges(a["application_profile"].fields, b["application_profile"].fields);
    }
  }

  lemma AliveTrimMerges(x: Dict, y: Dict)
    ensures Merge(x - {"alive_supervision"}, y - {"alive_supervision"}) == Merge(x, y) - {"alive_supervision"}
  {
  }

  /** Coverage does not look at `ready_condition`, which is replaced whole. */
  lemma CoveredIgnoresCondition(x: Dict, p: Dict, q: Dict)
    requires p.Keys == q.Keys && forall key :: key in p && key != "ready_condition" ==> p[key] == q[key]
    ensures Covered(x, p) <==> Covered(x, q)
  {
    assert forall key :: Merges(x, p, key) <==> Merges(x, q, key);
  }

  /** What the clean-up changes: the condition, and the section dropped from unsupervised applications. */
  lemma CleanChanges(r: Dict)
    requires CleanProperties(r).Some?
    ensures var p := CleanProperties(r).value;
            var q := if Supervised(r) then r else Trim(r);
            && (Supervised(p) <==> Supervised(r))
            && p.Keys == q.Keys && forall key :: key in p && key != "ready_condition" ==> p[key] == q[key]
  {
    TypeIsNotAlive();
    FileStateIdempotent(r);
    assert "ready_condition" != "application_profile" by { assert |"ready_condition"| == 15; }
    var f := ApplyFileStateDefaults(r).value;
    assert f["application_profile"] == r["application_profile"];
  }

  /** The layers of a component's properties do not shadow each other, as far as its properties keep them. */
  ghost predicate PropertiesAgree(g: Dict, d: Dict, c: Dict) {
    if Supervised(Merge(Merge(g, d), c)) then Unshadowed(g, d, c) else Unshadowed(Trim(g), Trim(d), Trim(c))
  }

  lemma PropertiesCoverIff(g: Dict, d: Dict, c: Dict)
    requires CleanProperties(Merge(Merge(g, d), c)).Some?
    ensures var p := CleanProperties(Merge(Merge(g, d), c)).value;
            Covered(Expected(g, p), p) <==> PropertiesAgree(g, d, c)
  {
    var r := Merge(Merge(g, d), c);
    var p := CleanProperties(r).value;
    CleanChanges(r);
    if Supervised(r) {
      CoveredIgnoresCondition(g, p, r);
      LayersCoverIff(g, d, c);
    } else {
      CoveredIgnoresCondition(Trim(g), p, Trim(r));
      TrimMerges(Merge(g, d), c);
      TrimMerges(g, d);
      LayersCoverIff(Trim(g), Trim(d), Trim(c));
    }
  }

  ghost predicate ComponentLayersAgree(g: Dict, d: Dict, c: Component)
    requires CompleteDefaults(g)
  {
    var deployment := Migrate(if c.deployment.Some? then c.deployment.value else map[]);
    && c.properties.Some? && deployment.Some?
    && PropertiesAgree(g["component_properties"].fields, Layer(d, "component_properties"), c.properties.value)
    && Unshadowed(g["deployment_config"].fields, Layer(d, "deployment_config"), deployment.value)
  }

  lemma ComponentCoversIff(g: Dict, d: Dict, c: Component)
    requires CompleteDefaults(g) && FillComponent(Merge(g, d), c).Some?
    ensures ComponentCovers(g, FillComponent(Merge(g, d), c).value) <==> ComponentLayersAgree(g, d, c)
  {
    var deployment := Migrate(if c.deployment.Some? then c.deployment.value else map[]).value;
    MergedPart(g, d, "component_properties");
    MergedPart(g, d, "deployment_config");
    PropertiesCoverIff(g["component_properties"].fields, Layer(d, "component_properties"), c.properties.value);
    LayersCoverIff(g["deployment_config"].fields, Layer(d, "deployment_config"), deployment);
  }

  ghost predicate ComponentsAgree(g: Dict, d: Dict, components: map<string, Component>)
    requires CompleteDefaults(g)
  {
    forall name :: name in components ==> ComponentLayersAgree(g, d, components[name])
  }

  ghost predicate TargetsAgree(lower: Dict, layer: Dict, runTargets: map<string, Dict>) {
    forall name :: name in runTargets ==> Unshadowed(lower, layer, runTargets[name])
  }

  /** No layer of the input hides a dictionary of the layers below it that the output is to keep: `g` are the built-in
      defaults, `d` the migrated defaults of the configuration. */
  ghost predicate InputLayersAgree(g: Dict, d: Dict, config: Config)
    requires CompleteDefaults(g)
  {
    && ComponentsAgree(g, d, config.components)
    && TargetsAgree(g["run_target"].fields, Layer(d, "run_target"), config.runTargets)
    && Unshadowed(g["alive_supervision"].fields, Layer(d, "alive_supervision"), config.aliveSupervision)
    && Unshadowed(g["watchdog"].fields, Layer(d, "watchdog"), config.watchdog)
  }

  lemma SectionsCoverIff(g: Dict, d: Dict, config: Config)
    requires CompleteDefaults(g) && PartsPresent(Merge(g, d), config)
    ensures var out := Fill(Merge(g, d), config);
            && (Covered(g["alive_supervision"].fields, out.aliveSupervision) <==>
                Unshadowed(g["alive_supervision"].fields, Layer(d, "alive_supervision"), config.aliveSupervision))
            && (Covered(g["watchdog"].fields, out.watchdog) <==>
                Unshadowed(g["watchdog"].fields, Layer(d, "watchdog"), config.watchdog))
  {
    MergedPart(g, d, "alive_supervision");
    MergedPart(g, d, "watchdog");
    LayersCoverIff(g["alive_supervision"].fields, Layer(d, "alive_supervision"), config.aliveSupervision);
    LayersCoverIff(g["watchdog"].fields, Layer(d, "watchdog"), config.watchdog);
  }

  lemma CoversIffLayersAgree(g: Dict, d: Dict, config: Config)
    requires CompleteDefaults(g) && PartsPresent(Merge(g, d), config)
    ensures CoversDefaults(g, Fill(Merge(g, d), config)) <==> InputLayersAgree(g, d, config)
  {
    SectionsCoverIff(g, d, config);
    ComponentsCoverIff(g, d, config.components);
    RunTargetsCoverIff(g, d, config);
  }

  lemma RunTargetsCoverIff(g: Dict, d: Dict, config: Config)
    requires CompleteDefaults(g) && PartsPresent(Merge(g, d), config)
    ensures TargetsCover(g["run_target"].fields, Fill(Merge(g, d), config).runTargets) <==>
            TargetsAgree(g["run_target"].fields, Layer(d, "run_target"), config.runTargets)
  {
    MergedPart(g, d, "run_target");
    TargetsCoverIff(g["run_target"].fields, Layer(d, "run_target"), config.runTargets);
  }

  lemma FilledByName(merged: Dict, components: map<string, Component>, name: string)
    requires AllFill(merged, components) && name in components
    ensures FillComponent(merged, components[name]).Some?
    ensures FillAll(merged, components)[name] == FillComponent(merged, components[name]).value
  {
  }

  lemma CoveringComponentsAgree(g: Dict, d: Dict, components: map<string, Component>)
    requires CompleteDefaults(g) && AllFill(Merge(g, d), components)
    requires ComponentsCover(g, FillAll(Merge(g, d), components))
    ensures ComponentsAgree(g, d, components)
  {
    forall name | name in components
      ensures ComponentLayersAgree(g, d, components[name])
    {
      FilledByName(Merge(g, d), components, name);
      ComponentCoversIff(g, d, components[name]);
    }
  }

  lemma AgreeingComponentsCover(g: Dict, d: Dict, components: map<string, Component>)
    requires CompleteDefaults(g) && AllFill(Merge(g, d), components) && ComponentsAgree(g, d, components)
    ensures ComponentsCover(g, FillAll(Merge(g, d), components))
  {
    forall name | name in FillAll(Merge(g, d), components)
      ensures ComponentCovers(g, FillAll(Merge(g, d), components)[name])
    {
      FilledByName(Merge(g, d), components, name);
      ComponentCoversIff(g, d, components[name]);
    }
  }

  lemma ComponentsCoverIff(g: Dict, d: Dict, components: map<string, Component>)
    requires CompleteDefaults(g) && AllFill(Merge(g, d), components)
    ensures ComponentsCover(g, FillAll(Merge(g, d), components)) <==> ComponentsAgree(g, d, components)
  {
    if ComponentsCover(g, FillAll(Merge(g, d), components)) {
      CoveringComponentsAgree(g, d, components);
    }
    if ComponentsAgree(g, d, components) {
      AgreeingComponentsCover(g, d, components);
    }
  }

  lemma TargetsCoverIff(lower: Dict, layer: Dict, runTargets: map<string, Dict>)
    ensures TargetsCover(lower, FillTargets(Merge(lower, layer), runTargets)) <==>
              TargetsAgree(lower, layer, runTargets)
  {
    forall name | name in runTargets
      ensures Covered(lower, FillTargets(Merge(lower, layer), runTargets)[name]) <==>
                Unshadowed(lower, layer, runTargets[name])
    {
      LayersCoverIff(lower, layer, runTargets[name]);
    }
  }

  /** Preprocessing its own output gives that output again if and only if the layers of the input agree. */
  lemma PreprocessIsIdempotentIff(g: Dict, config: Config)
    requires CompleteDefaults(g) && Preprocess(g, config).Some?
    ensures Preprocess(g, Preprocess(g, config).value) == Preprocess(g, config) <==>
            InputLayersAgree(g, MigrateDefaults(config.defaults).value, config)
  {
    FixpointIffCovers(g, config);
    CoversIffLayersAgree(g, MigrateDefaults(config.defaults).value, config);
  }

  // ---- A configuration on which it is not idempotent -----------------------------------------------------------

  const PLAIN_PROFILE: Dict := map["application_profile" := Str("none")]

  const SUPERVISED_PROFILE: Dict := map["application_type" := Str("State_Manager")]

  const SHADOWED_COMPONENT := Component(None, Some(map["application_profile" := Obj(SUPERVISED_PROFILE)]), None)

  /** Defaults with a plain value for the profile, and a component with a dictionary there. */
  const SHADOWING_CONFIG := Config(Null, map["component_properties" := Obj(PLAIN_PROFILE)],
                                   map["component" := SHADOWED_COMPONENT], map[], map[], map[], None, None)

  /** For a component with no ready condition of its own, over defaults whose profile is plain. */
  lemma ShadowedComponentFills(properties: Dict)
    requires Part(properties, "ready_condition").Some? && Part(properties["ready_condition"].fields, "file_state").None?
    ensures CleanProperties(Merge(Merge(properties, PLAIN_PROFILE), SHADOWED_COMPONENT.properties.value)).Some?
    ensures Supervised(Merge(Merge(properties, PLAIN_PROFILE), SHADOWED_COMPONENT.properties.value))
  {
    var layer := Merge(properties, PLAIN_PROFILE);
    var r := Merge(layer, SHADOWED_COMPONENT.properties.value);
    assert "ready_condition" != "application_profile" by { assert |"ready_condition"| == 15; }
    assert layer["application_profile"] == Str("none") && layer["ready_condition"] == properties["ready_condition"];
    assert r["application_profile"] == Obj(SUPERVISED_PROFILE) && r["ready_condition"] == properties["ready_condition"];
    assert ApplyFileStateDefaults(r) == Some(r);
  }

  lemma ProfileIsShadowed(properties: Dict)
    requires Part(properties, "application_profile").Some?
    requires "is_self_terminating" in properties["application_profile"].fields
    ensures !Unshadowed(properties, PLAIN_PROFILE, SHADOWED_COMPONENT.properties.value)
  {
    var c := SHADOWED_COMPONENT.properties.value;
    assert "application_profile" in PLAIN_PROFILE && Merges(properties, c, "application_profile");
    assert "is_self_terminating" !in SUPERVISED_PROFILE by {
      assert |"is_self_terminating"| == 19 != |"application_type"|;
    }
    assert !Covered(properties["application_profile"].fields, c["application_profile"].fields);
  }

  /** Over the built-in defaults, preprocessing this configuration twice adds what preprocessing it once left out. */
  lemma NotIdempotentExample()
    ensures var once := Preprocess(SCORE_DEFAULTS, SHADOWING_CONFIG);
            once.Some? && Preprocess(SCORE_DEFAULTS, once.value) != once
  {
    BuiltInDefaultsAreComplete();
    BuiltInProperties();
    NotIdempotentOver(SCORE_DEFAULTS);
  }

  /** The same over any complete defaults with a self-termination flag in their profile. */
  lemma NotIdempotentOver(g: Dict)
    requires CompleteDefaults(g)
    requires var p := g["component_properties"].fields;
             && Part(p, "ready_condition").Some? && Part(p["ready_condition"].fields, "file_state").None?
             && Part(p, "application_profile").Some? && "is_self_terminating" in p["application_profile"].fields
    ensures var once := Preprocess(g, SHADOWING_CONFIG);
            once.Some? && Preprocess(g, once.value) != once
  {
    ShadowingConfigFills(g, SHADOWING_CONFIG.defaults);
    DefaultsAreMigrated();
    LayersDisagree(g, SHADOWING_CONFIG.defaults);
    PreprocessIsIdempotentIff(g, SHADOWING_CONFIG);
  }

  lemma DefaultsAreMigrated()
    ensures MigrateDefaults(SHADOWING_CONFIG.defaults) == Some(SHADOWING_CONFIG.defaults)
  {
    assert "deployment_config" !in SHADOWING_CONFIG.defaults by {
      assert |"deployment_config"| == 17 != |"component_properties"|;
    }
  }

  lemma LayersDisagree(g: Dict, d: Dict)
    requires CompleteDefaults(g) && d == SHADOWING_CONFIG.defaults
    requires var p := g["component_properties"].fields;
             && Part(p, "ready_condition").Some? && Part(p["ready_condition"].fields, "file_state").None?
             && Part(p, "application_profile").Some? && "is_self_terminating" in p["application_profile"].fields
    ensures !InputLayersAgree(g, d, SHADOWING_CONFIG)
  {
    var p := g["component_properties"].fields;
    ShadowedComponentFills(p);
    ProfileIsShadowed(p);
    assert Layer(d, "component_properties") == PLAIN_PROFILE;
    assert !PropertiesAgree(p, PLAIN_PROFILE, SHADOWED_COMPONENT.properties.value);
    assert "component" in SHADOWING_CONFIG.components && SHADOWING_CONFIG.components["component"] == SHADOWED_COMPONENT;
    assert !ComponentLayersAgree(g, d, SHADOWED_COMPONENT);
  }

  lemma BuiltInProperties()
    ensures Part(SCORE_DEFAULTS, "component_properties").Some?
    ensures var p := SCORE_DEFAULTS["component_properties"].fields;
            && Part(p, "ready_condition").Some? && Part(p["ready_condition"].fields, "file_state").None?
            && Part(p, "application_profile").Some? && "is_self_terminating" in p["application_profile"].fields
  {
  }

  lemma ShadowingConfigFills(g: Dict, d: Dict)
    requires CompleteDefaults(g) && d == SHADOWING_CONFIG.defaults
    requires var p := g["component_properties"].fields;
             Part(p, "ready_condition").Some? && Part(p["ready_condition"].fields, "file_state").None?
    ensures PartsPresent(Merge(g, d), SHADOWING_CONFIG)
  {
    var merged := Merge(g, d);
    MergedWithPlainProfile(g, d);
    ShadowedComponentFills(g["component_properties"].fields);
    ComponentFills(merged);
    assert AllFill(merged, SHADOWING_CONFIG.components);
  }

  lemma MergedWithPlainProfile(g: Dict, d: Dict)
    requires CompleteDefaults(g) && d == SHADOWING_CONFIG.defaults
    ensures Part(Merge(g, d), "component_properties") == Some(Merge(g["component_properties"].fields, PLAIN_PROFILE))
    ensures Part(Merge(g, d), "deployment_config").Some?
    ensures Part(Merge(g, d), "alive_supervision").Some? && Part(Merge(g, d), "watchdog").Some?
  {
    assert forall key :: key in g && key != "component_properties" ==> key !in d && Merge(g, d)[key] == g[key];
  }

  lemma ComponentFills(merged: Dict)
    requires Part(merged, "component_properties").Some? && Part(merged, "deployment_config").Some?
    requires CleanProperties(Merge(merged["component_properties"].fields, SHADOWED_COMPONENT.properties.value)).Some?
    ensures FillComponent(merged, SHADOWED_COMPONENT).Some?
  {
    assert Migrate(map[]) == Some(map[]);
  }
}
