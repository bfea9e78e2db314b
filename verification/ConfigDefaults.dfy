/** Preprocessing of a configuration: migration of the deprecated retry key, layered defaults for
    components and run targets, and the clean-up steps after the merge. `None` stands for the
    exception Python raises when a part is missing or is not a dictionary. */
module ConfigDefaults {
  import opened Common
  import opened Json
  import opened ConfigMerge

  /** The parts of one component's configuration. */
  datatype Component = Component(description: Option<Json>, properties: Option<Dict>, deployment: Option<Dict>)

  /** A configuration; an absent dictionary is the empty one, as the code reads it. */
  datatype Config = Config(schemaVersion: Json, defaults: Dict, components: map<string, Component>,
                           runTargets: map<string, Dict>, aliveSupervision: Dict, watchdog: Dict,
                           initialRunTarget: Option<Json>, fallbackRunTarget: Option<Dict>)

  const DEPRECATED := "ready_recovery_action"
  const ATTEMPTS := "activation_retry_attempts"
  const DELAY := "activation_retry_delay_ms"

  /** A dictionary stored under a key. */
  function Part(d: Dict, key: string): Option<Dict> {
    if key in d && d[key].Obj? then Some(d[key].fields) else None
  }

  /** The same, with the empty dictionary for anything else. */
  function Layer(d: Dict, key: string): Dict {
    if key in d && d[key].Obj? then d[key].fields else map[]
  }

  function GetOr(d: Dict, key: string, default: Json): Json {
    if key in d then d[key] else default
  }

  // ---- Migration of the deprecated key ----------------------------------------------------------

  /** `ready_recovery_action.restart` of a deployment configuration that has the deprecated key. */
  function Restart(deployment: Dict): Option<Json>
    requires DEPRECATED in deployment
  {
    if deployment[DEPRECATED].Obj? then Some(GetOr(deployment[DEPRECATED].fields, "restart", Obj(map[]))) else None
  }

  /** The deprecated name of a retry key. */
  function OldKey(newKey: string): string {
    if newKey == ATTEMPTS then "number_of_attempts" else "delay_before_restart_ms"
  }

  /** Converts the deprecated key into the two retry keys; explicit ones take precedence. */
  method MigrateReadyRecoveryAction(deployment: Dict) returns (migrated: Option<Dict>)
    ensures migrated == Migrate(deployment)
  {
    if DEPRECATED !in deployment {
      return Some(deployment);
    }
    var action := deployment[DEPRECATED];
    var rest := deployment - {DEPRECATED};
    if !action.Obj? {
      return None;
    }
    var restart := GetOr(action.fields, "restart", Obj(map[]));
    var newKeys := [ATTEMPTS, DELAY];
    for i := 0 to 2
      invariant i == 0 ==> rest == deployment - {DEPRECATED}
      invariant i == 1 ==> MigrateKey(deployment - {DEPRECATED}, restart, ATTEMPTS) == Some(rest)
      invariant i == 2 ==> Migrate(deployment) == Some(rest)
    {
      if newKeys[i] !in rest {
        if !restart.Obj? {
          return None;
        }
        rest := rest[newKeys[i] := GetOr(restart.fields, OldKey(newKeys[i]), Num(0))];
      }
    }
    migrated := Some(rest);
  }

  function MigrateKey(rest: Dict, restart: Json, newKey: string): Option<Dict> {
    if newKey in rest then Some(rest)
    else if !restart.Obj? then None
    else Some(rest[newKey := GetOr(restart.fields, OldKey(newKey), Num(0))])
  }

  function Migrate(deployment: Dict): Option<Dict> {
    if DEPRECATED !in deployment then Some(deployment)
    else if Restart(deployment).None? then None
    else
      var restart := Restart(deployment).value;
      var first := MigrateKey(deployment - {DEPRECATED}, restart, ATTEMPTS);
      if first.None? then None else MigrateKey(first.value, restart, DELAY)
  }

  /** The value a deployment configuration gives to a retry key: the explicit one, or the one of the
      deprecated key (0 if absent there). */
  function Declared(deployment: Dict, newKey: string): Option<Json> {
    if newKey in deployment then Some(deployment[newKey])
    else if DEPRECATED in deployment && Restart(deployment).Some? && Restart(deployment).value.Obj? then
      Some(GetOr(Restart(deployment).value.fields, OldKey(newKey), Num(0)))
    else None
  }

  /** A migrated configuration declares what it held before, by the new keys alone, and leaves
      every other key alone. */
  lemma MigrationDeclares(deployment: Dict)
    requires Migrate(deployment).Some?
    ensures var m := Migrate(deployment).value;
            && DEPRECATED !in m
            && (forall newKey :: newKey in {ATTEMPTS, DELAY} ==>
                  (newKey in m <==> Declared(deployment, newKey).Some?) &&
                  (newKey in m ==> Declared(deployment, newKey) == Some(m[newKey])))
            && (forall key :: key !in {DEPRECATED, ATTEMPTS, DELAY} ==>
                  (key in m <==> key in deployment) && (key in m ==> m[key] == deployment[key]))
            && Migrate(m) == Some(m)
  {
    assert ATTEMPTS != DELAY && ATTEMPTS != DEPRECATED && DELAY != DEPRECATED by {
      assert |ATTEMPTS| == 25 && |DEPRECATED| == 21 && ATTEMPTS[17] == 'a';
      assert DELAY[17] == 'd';
    }
  }

  /** The migrated `defaults` section. */
  function MigrateDefaults(defaults: Dict): Option<Dict> {
    if "deployment_config" !in defaults then Some(defaults)
    else if !defaults["deployment_config"].Obj? then None
    else
      var migrated := Migrate(defaults["deployment_config"].fields);
      if migrated.None? then None else Some(defaults["deployment_config" := Obj(migrated.value)])
  }

  // ---- One component ------------------------------------------------------------------------------

  const FILE_STATE_DEFAULTS: Dict := map["state" := Str("Exists"), "polling_interval_ms" := Num(10)]

  /** `apply_file_state_defaults` on the component properties. */
  function ApplyFileStateDefaults(properties: Dict): Option<Dict> {
    if "ready_condition" !in properties then Some(properties)
    else if !properties["ready_condition"].Obj? then None
    else
      var condition := properties["ready_condition"].fields;
      if Part(condition, "file_state").None? then Some(properties)
      else
        var filled := FILE_STATE_DEFAULTS + condition["file_state"].fields;
        Some(properties["ready_condition" := Obj(condition["file_state" := Obj(filled)])])
  }

  predicate IsSupervised(applicationType: Json) {
    applicationType == Str("State_Manager") || applicationType == Str("Reporting_And_Supervised")
  }

  /** Removes `alive_supervision` from the profile of an application that is not supervised. */
  function DropAliveSupervision(properties: Dict): Option<Dict> {
    if Part(properties, "application_profile").None? then None
    else
      var profile := properties["application_profile"].fields;
      if IsSupervised(GetOr(profile, "application_type", Null)) then Some(properties)
      else Some(properties["application_profile" := Obj(profile - {"alive_supervision"})])
  }

  function CleanProperties(properties: Dict): Option<Dict> {
    var filled := ApplyFileStateDefaults(properties);
    if filled.None? then None else DropAliveSupervision(filled.value)
  }

  function FillComponent(merged: Dict, c: Component): Option<Component> {
    var deployment := Migrate(if c.deployment.Some? then c.deployment.value else map[]);
    if deployment.None? || c.properties.None? then None
    else if Part(merged, "component_properties").None? || Part(merged, "deployment_config").None? then None
    else
      var properties := CleanProperties(Merge(merged["component_properties"].fields, c.properties.value));
      if properties.None? then None
      else Some(Component(Some(if c.description.Some? then c.description.value else Str("")), properties,
                          Some(Merge(merged["deployment_config"].fields, deployment.value))))
  }

  // ---- The whole configuration -------------------------------------------------------------------

  function FallbackDefaults(runTargetDefaults: Dict): Dict {
    map["description" := Str(""), "depends_on" := Arr([]),
        "transition_timeout_ms" := GetOr(runTargetDefaults, "transition_timeout_ms", Num(3000))]
  }

  /** The parts of the merged defaults that the configuration makes the code read. */
  predicate PartsPresent(merged: Dict, config: Config) {
    && Part(merged, "alive_supervision").Some? && Part(merged, "watchdog").Some?
    && (config.runTargets != map[] || config.fallbackRunTarget.Some? ==> Part(merged, "run_target").Some?)
    && AllFill(merged, config.components)
  }

  predicate AllFill(merged: Dict, components: map<string, Component>) {
    forall name :: name in components ==> FillComponent(merged, components[name]).Some?
  }

  function FillAll(merged: Dict, components: map<string, Component>): map<string, Component>
    requires AllFill(merged, components)
  {
    map name | name in components :: FillComponent(merged, components[name]).value
  }

  function FillTargets(defaults: Dict, runTargets: map<string, Dict>): map<string, Dict> {
    map name | name in runTargets :: Merge(defaults, runTargets[name])
  }

  function Preprocess(globalDefaults: Dict, config: Config): Option<Config> {
    var defaults := MigrateDefaults(config.defaults);
    if defaults.None? then None
    else
      var merged := Merge(globalDefaults, defaults.value);
      if !PartsPresent(merged, config) then None
      else Some(Fill(merged, config))
  }

  function Fill(merged: Dict, config: Config): Config
    requires PartsPresent(merged, config)
  {
    Config(
      config.schemaVersion,
      map[],
      FillAll(merged, config.components),
      FillTargets(Layer(merged, "run_target"), config.runTargets),
      Merge(merged["alive_supervision"].fields, config.aliveSupervision),
      Merge(merged["watchdog"].fields, config.watchdog),
      if config.initialRunTarget.Some? then config.initialRunTarget
      else if "initial_run_target" in merged then Some(merged["initial_run_target"]) else None,
      if config.fallbackRunTarget.Some? then
        Some(Merge(FallbackDefaults(Layer(merged, "run_target")), config.fallbackRunTarget.value))
      else None)
  }

  /** `preprocess_defaults` itself: migrates first, merges the layers, then fills the new
      configuration component by component and run target by run target, in any order. */
  method PreprocessDefaults(globalDefaults: Dict, config: Config) returns (result: Option<Config>)
    ensures result == Preprocess(globalDefaults, config)
  {
    var defaults := config.defaults;
    if "deployment_config" in defaults {
      if !defaults["deployment_config"].Obj? {
        return None;
      }
      var migrated := MigrateReadyRecoveryAction(defaults["deployment_config"].fields);
      if migrated.None? {
        return None;
      }
      defaults := defaults["deployment_config" := Obj(migrated.value)];
    }
    var merged := DictMerge(globalDefaults, defaults);
    result := FillConfig(merged, config);
  }

  method FillConfig(merged: Dict, config: Config) returns (result: Option<Config>)
    ensures result == if PartsPresent(merged, config) then Some(Fill(merged, config)) else None
  {
    var components := FillComponents(merged, config.components);
    if components.None? {
      return None;
    }
    if Part(merged, "alive_supervision").None? || Part(merged, "watchdog").None? {
      return None;
    }
    if Part(merged, "run_target").None? && (config.runTargets != map[] || config.fallbackRunTarget.Some?) {
      return None;
    }
    var runTargets := FillRunTargets(Layer(merged, "run_target"), config.runTargets);
    var alive := DictMerge(merged["alive_supervision"].fields, config.aliveSupervision);
    var watchdog := DictMerge(merged["watchdog"].fields, config.watchdog);
    var initial: Option<Json> := None;
    if config.initialRunTarget.Some? || "initial_run_target" in merged {
      initial := if config.initialRunTarget.Some? then config.initialRunTarget else Some(merged["initial_run_target"]);
    }
    var fallback: Option<Dict> := None;
    if config.fallbackRunTarget.Some? {
      var filled := DictMerge(FallbackDefaults(Layer(merged, "run_target")), config.fallbackRunTarget.value);
      fallback := Some(filled);
    }
    result :=
      Some(Config(config.schemaVersion, map[], components.value, runTargets, alive, watchdog, initial, fallback));
  }

  /** The component loop. */
  method FillComponents(merged: Dict, components: map<string, Component>)
    returns (filled: Option<map<string, Component>>)
    ensures filled == if AllFill(merged, components) then Some(FillAll(merged, components)) else None
  {
    var done: map<string, Component> := map[];
    var todo := components.Keys;
    while todo != {}
      invariant todo <= components.Keys && done.Keys == components.Keys - todo
      invariant forall name :: name in done ==> FillsTo(merged, components[name], done[name])
    {
      var name :| name in todo;
      var one := FillOne(merged, components[name]);
      if one.None? {
        assert !AllFill(merged, components);
        return None;
      }
      done := done[name := one.value];
      todo := todo - {name};
    }
    AllFillTo(merged, components, done);
    filled := Some(done);
  }

  /** The run-target loop. */
  method FillRunTargets(defaults: Dict, runTargets: map<string, Dict>) returns (filled: map<string, Dict>)
    ensures filled == FillTargets(defaults, runTargets)
  {
    filled := map[];
    var todo := runTargets.Keys;
    while todo != {}
      invariant todo <= runTargets.Keys && filled.Keys == runTargets.Keys - todo
      invariant forall name :: name in filled ==> filled[name] == Merge(defaults, runTargets[name])
    {
      var name :| name in todo;
      var one := DictMerge(defaults, runTargets[name]);
      filled := filled[name := one];
      todo := todo - {name};
    }
  }

  /** The body of the component loop. */
  method FillOne(merged: Dict, c: Component) returns (filled: Option<Component>)
    ensures filled == FillComponent(merged, c)
  {
    var deployment := MigrateReadyRecoveryAction(if c.deployment.Some? then c.deployment.value else map[]);
    if deployment.None? || c.properties.None? {
      return None;
    }
    if Part(merged, "component_properties").None? || Part(merged, "deployment_config").None? {
      return None;
    }
    var properties := DictMerge(merged["component_properties"].fields, c.properties.value);
    var deploymentConfig := DictMerge(merged["deployment_config"].fields, deployment.value);
    var clean := CleanProperties(properties);
    if clean.None? {
      return None;
    }
    filled :=
      Some(Component(Some(if c.description.Some? then c.description.value else Str("")), clean,
                     Some(deploymentConfig)));
  }

  // ---- Results ------------------------------------------------------------------------------------

  /** What the built-in defaults provide. */
  predicate CompleteDefaults(g: Dict) {
    && Part(g, "component_properties").Some? && Part(g, "deployment_config").Some? && Part(g, "run_target").Some?
    && Part(g, "alive_supervision").Some? && Part(g, "watchdog").Some?
    && DEPRECATED !in g["deployment_config"].fields
    && !GetOr(g["run_target"].fields, "transition_timeout_ms", Num(3000)).Obj?
  }

  lemma MergedPart(g: Dict, d: Dict, key: string)
    requires Part(g, key).Some? && !NotMerging(key)
    ensures Part(Merge(g, d), key).Some? ==> Part(Merge(g, d), key).value == Merge(g[key].fields, Layer(d, key))
    ensures key !in d ==> Part(Merge(g, d), key).Some?
  {
    MergeEmpty(g[key].fields);
  }

  /** The layers of every part agree on which paths are dictionaries, as far as it matters. */
  ghost predicate LayersAgree(g: Dict, d: Dict, config: Config)
    requires CompleteDefaults(g)
  {
    && (forall name :: name in config.components ==> ComponentAgrees(g, d, config.components[name]))
    && (forall name :: name in config.runTargets ==>
          Unshadowed(g["run_target"].fields, Layer(d, "run_target"), config.runTargets[name]))
    && Unshadowed(g["alive_supervision"].fields, Layer(d, "alive_supervision"), config.aliveSupervision)
    && Unshadowed(g["watchdog"].fields, Layer(d, "watchdog"), config.watchdog)
  }

  ghost predicate ComponentAgrees(g: Dict, d: Dict, c: Component)
    requires CompleteDefaults(g)
  {
    var deployment := Migrate(if c.deployment.Some? then c.deployment.value else map[]);
    && (c.properties.Some? ==>
          Unshadowed(g["component_properties"].fields, Layer(d, "component_properties"), c.properties.value))
    && (deployment.Some? ==>
          Unshadowed(g["deployment_config"].fields, Layer(d, "deployment_config"), deployment.value))
  }

  /** Filling in the file-state defaults a second time changes nothing. */
  lemma FileStateIdempotent(properties: Dict)
    requires ApplyFileStateDefaults(properties).Some?
    ensures var p := ApplyFileStateDefaults(properties).value;
            && ApplyFileStateDefaults(p) == Some(p)
            && p.Keys == properties.Keys
            && forall key :: key in p && key != "ready_condition" ==> p[key] == properties[key]
  {
    var p := ApplyFileStateDefaults(properties).value;
    if "ready_condition" in properties && Part(properties["ready_condition"].fields, "file_state").Some? {
      var condition := properties["ready_condition"].fields;
      var filled := FILE_STATE_DEFAULTS + condition["file_state"].fields;
      assert FILE_STATE_DEFAULTS + filled == filled;
      var again := condition["file_state" := Obj(filled)];
      assert again["file_state" := Obj(filled)] == again;
      assert p["ready_condition" := Obj(again)] == p;
    }
  }

  /** What a second application of the file-state defaults sees: only `ready_condition` matters. */
  lemma FileStateDependsOnCondition(p: Dict, q: Dict)
    requires ApplyFileStateDefaults(p) == Some(p) && p.Keys == q.Keys
    requires "ready_condition" in p ==> q["ready_condition"] == p["ready_condition"]
    ensures ApplyFileStateDefaults(q) == Some(q)
  {
    if "ready_condition" in p && Part(p["ready_condition"].fields, "file_state").Some? {
      var condition := p["ready_condition"].fields;
      var filled := FILE_STATE_DEFAULTS + condition["file_state"].fields;
      assert p["ready_condition" := Obj(condition["file_state" := Obj(filled)])]["ready_condition"] ==
             p["ready_condition"];
      assert q["ready_condition" := Obj(condition["file_state" := Obj(filled)])] == q;
    }
  }

  /** Clean properties stay the same when the defaults below them are merged in again and the result
      is cleaned again: `alive_supervision` comes back and goes again. */
  lemma CleanIsStable(g: Dict, r: Dict)
    requires Covered(g, r) && CleanProperties(r).Some?
    ensures CleanProperties(Merge(g, CleanProperties(r).value)) == CleanProperties(r)
  {
    var f := ApplyFileStateDefaults(r).value;
    var p := CleanProperties(r).value;
    var q := Merge(g, p);
    FileStateIdempotent(r);
    assert p.Keys == f.Keys == r.Keys == q.Keys;
    forall key | key in p && key != "application_profile"
      ensures q[key] == p[key]
    {
      if Merges(g, p, key) {
        assert p[key] == r[key] && Merges(g, r, key);
        MergeIsUpperIffCovered(g[key].fields, r[key].fields);
      }
    }
    FileStateDependsOnCondition(f, q);
    ProfileIsStable(g, f, p, q);
  }

  /** Merging the defaults into a profile without `alive_supervision` brings back that key alone. */
  lemma OnlyAliveComesBack(lower: Dict, before: Dict)
    requires Covered(lower, before)
    ensures var after := before - {"alive_supervision"};
            && Merge(lower, after) - {"alive_supervision"} == after
            && forall key :: key != "alive_supervision" ==>
                 GetOr(Merge(lower, after), key, Null) == GetOr(before, key, Null) == GetOr(after, key, Null)
  {
    var after := before - {"alive_supervision"};
    var again := Merge(lower, after);
    MergeIsUpperIffCovered(lower, before);
    forall key | key != "alive_supervision"
      ensures key in again <==> key in before
      ensures key in again ==> again[key] == before[key] == after[key]
    {
      assert key in Merge(lower, before) <==> key in before;
    }
  }

  lemma ProfileIsStable(g: Dict, f: Dict, p: Dict, q: Dict)
    requires DropAliveSupervision(f) == Some(p) && q == Merge(g, p)
    requires q.Keys == p.Keys && forall key :: key in p && key != "application_profile" ==> q[key] == p[key]
    requires Merges(g, f, "application_profile") ==>
               Covered(g["application_profile"].fields, f["application_profile"].fields)
    ensures DropAliveSupervision(q) == Some(p)
  {
    var before := f["application_profile"].fields;
    var lower := if Merges(g, f, "application_profile") then g["application_profile"].fields else map[];
    MergeIsUpperIffCovered(lower, before);
    if IsSupervised(GetOr(before, "application_type", Null)) {
      assert q["application_profile"] == p["application_profile"] && q == p;
    } else {
      UnsupervisedProfileIsStable(lower, before, p, q);
    }
  }

  lemma UnsupervisedProfileIsStable(lower: Dict, before: Dict, p: Dict, q: Dict)
    requires Covered(lower, before) && !IsSupervised(GetOr(before, "application_type", Null))
    requires "application_profile" in p && p["application_profile"] == Obj(before - {"alive_supervision"})
    requires q.Keys == p.Keys && forall key :: key in p && key != "application_profile" ==> q[key] == p[key]
    requires q["application_profile"] == Obj(Merge(lower, before - {"alive_supervision"}))
    ensures DropAliveSupervision(q) == Some(p)
  {
    OnlyAliveComesBack(lower, before);
    assert "application_type" != "alive_supervision" by {
      assert "application_type"[1] == 'p' && "alive_supervision"[1] == 'l';
    }
    assert q["application_profile" := p["application_profile"]] == p;
  }

  /** The built-in defaults. */
  const SCORE_DEFAULTS: Dict := map[
    "deployment_config" := Obj(map[
      "ready_timeout_ms" := Num(500),
      "shutdown_timeout_ms" := Num(500),
      "environmental_variables" := Obj(map[]),
      "bin_dir" := Str("/opt"),
      "activation_retry_attempts" := Num(0),
      "activation_retry_delay_ms" := Num(0),
      "recovery_action" := SWITCH_TO_FALLBACK,
      "sandbox" := Obj(map[
        "uid" := Num(1000),
        "gid" := Num(1000),
        "supplementary_group_ids" := Arr([]),
        "security_policy" := Str(""),
        "scheduling_policy" := Str("SCHED_OTHER"),
        "scheduling_priority" := Num(0)])]),
    "component_properties" := Obj(map[
      "binary_name" := Str(""),
      "application_profile" := Obj(map[
        "application_type" := Str("Reporting_And_Supervised"),
        "is_self_terminating" := Bool(false),
        "alive_supervision" := Obj(map[
          "reporting_cycle_ms" := Num(500),
          "failed_cycles_tolerance" := Num(2),
          "min_indications" := Num(1),
          "max_indications" := Num(3)])]),
      "depends_on" := Arr([]),
      "process_arguments" := Arr([]),
      "ready_condition" := Obj(map["process_state" := Str("Running")])]),
    "run_target" := Obj(map[
      "description" := Str(""),
      "depends_on" := Arr([]),
      "transition_timeout_ms" := Num(3000),
      "recovery_action" := SWITCH_TO_FALLBACK]),
    "initial_run_target" := Str("Startup"),
    "alive_supervision" := Obj(map["evaluation_cycle_ms" := Num(500)]),
    "watchdog" := Obj(map[])]

  const SWITCH_TO_FALLBACK := Obj(map["switch_run_target" := Obj(map["run_target" := Str("fallback_run_target")])])

  /** The built-in defaults are complete, so the results below apply to them. */
  lemma BuiltInDefaultsAreComplete()
    ensures CompleteDefaults(SCORE_DEFAULTS)
  {
    assert Part(SCORE_DEFAULTS, "component_properties").Some?;
  }

  /** The same defaults below an already filled layer change nothing, exactly when the layers do not
      shadow each other. */
  lemma PartIsStable(g: Dict, d: Dict, c: Dict)
    ensures Merge(g, Merge(Merge(g, d), c)) == Merge(Merge(g, d), c) <==> Unshadowed(g, d, c)
  {
    LayersCoverIff(g, d, c);
    MergeIsUpperIffCovered(g, Merge(Merge(g, d), c));
  }

  lemma ComponentIsStable(g: Dict, d: Dict, c: Component)
    requires CompleteDefaults(g) && MigrateDefaults(d) == Some(d) && DEPRECATED !in Layer(d, "deployment_config")
    requires FillComponent(Merge(g, d), c).Some? && ComponentAgrees(g, d, c)
    ensures FillComponent(g, FillComponent(Merge(g, d), c).value) == FillComponent(Merge(g, d), c)
  {
    var out := FillComponent(Merge(g, d), c).value;
    var deployment := Migrate(if c.deployment.Some? then c.deployment.value else map[]).value;
    MigrationDeclares(if c.deployment.Some? then c.deployment.value else map[]);
    MergedPart(g, d, "component_properties");
    MergedPart(g, d, "deployment_config");
    var lower, layer := g["deployment_config"].fields, Layer(d, "deployment_config");
    PartIsStable(lower, layer, deployment);
    MostSpecificWins(lower, layer, deployment, DEPRECATED);
    assert Migrate(out.deployment.value) == out.deployment;
    var gp, dp := g["component_properties"].fields, Layer(d, "component_properties");
    LayersCoverIff(gp, dp, c.properties.value);
    CleanIsStable(gp, Merge(Merge(gp, dp), c.properties.value));
  }

  lemma FallbackIsStable(g: Dict, runTargetDefaults: Dict, fallback: Dict)
    requires !GetOr(g, "transition_timeout_ms", Num(3000)).Obj?
    ensures var out := Merge(FallbackDefaults(runTargetDefaults), fallback);
            Merge(FallbackDefaults(g), out) == out
  {
    var out := Merge(FallbackDefaults(runTargetDefaults), fallback);
    assert FallbackDefaults(g).Keys == {"description", "depends_on", "transition_timeout_ms"} <= out.Keys;
    assert forall key :: key in FallbackDefaults(g) ==> !FallbackDefaults(g)[key].Obj?;
    MergeIsUpperIffCovered(FallbackDefaults(g), out);
  }

  /** The migrated defaults hold no deprecated key, and migrating them again changes nothing. */
  lemma MigratedDefaults(defaults: Dict)
    requires MigrateDefaults(defaults).Some?
    ensures var d := MigrateDefaults(defaults).value;
            DEPRECATED !in Layer(d, "deployment_config") && MigrateDefaults(d) == Some(d)
  {
    if "deployment_config" in defaults {
      MigrationDeclares(defaults["deployment_config"].fields);
      var d := MigrateDefaults(defaults).value;
      assert d["deployment_config" := d["deployment_config"]] == d;
    }
  }

  lemma ComponentsAreStable(g: Dict, d: Dict, components: map<string, Component>)
    requires CompleteDefaults(g) && MigrateDefaults(d) == Some(d) && DEPRECATED !in Layer(d, "deployment_config")
    requires AllFill(Merge(g, d), components)
    requires forall name :: name in components ==> ComponentAgrees(g, d, components[name])
    ensures var out := FillAll(Merge(g, d), components); AllFill(g, out) && FillAll(g, out) == out
  {
    var out := FillAll(Merge(g, d), components);
    forall name | name in out
      ensures FillsTo(g, out[name], out[name])
    {
      ComponentIsStable(g, d, components[name]);
    }
    AllFillTo(g, out, out);
  }

  predicate FillsTo(merged: Dict, c: Component, filled: Component) {
    FillComponent(merged, c) == Some(filled)
  }

  lemma AllFillTo(merged: Dict, components: map<string, Component>, filled: map<string, Component>)
    requires filled.Keys == components.Keys
             && forall name :: name in components ==> FillsTo(merged, components[name], filled[name])
    ensures AllFill(merged, components) && FillAll(merged, components) == filled
  {
    assert forall name :: name in components ==> FillComponent(merged, components[name]).Some? by {
      assert forall name :: name in components ==> FillsTo(merged, components[name], filled[name]);
    }
    assert FillAll(merged, components).Keys == filled.Keys;
  }

  lemma FillIsStable(g: Dict, d: Dict, config: Config)
    requires CompleteDefaults(g) && MigrateDefaults(d) == Some(d) && DEPRECATED !in Layer(d, "deployment_config")
    requires PartsPresent(Merge(g, d), config) && LayersAgree(g, d, config)
    ensures PartsPresent(g, Fill(Merge(g, d), config))
    ensures Fill(g, Fill(Merge(g, d), config)) == Fill(Merge(g, d), config)
  {
    var out := Fill(Merge(g, d), config);
    assert AllFill(g, out.components) && FillAll(g, out.components) == out.components by {
      ComponentsAreStable(g, d, config.components);
    }
    var again := Fill(g, out);
    assert again.runTargets == out.runTargets && again.fallbackRunTarget == out.fallbackRunTarget by {
      RunTargetsAreStable(g, d, config.runTargets, config.fallbackRunTarget);
    }
    assert again.aliveSupervision == out.aliveSupervision && again.watchdog == out.watchdog by {
      SectionsAreStable(g, d, config, Merge(g, d));
    }
    assert again.initialRunTarget == out.initialRunTarget;
  }

  /** Preprocessing is idempotent: where the layers agree on which paths are dictionaries, running it
      on its own output gives that output again. */
  lemma PreprocessIsIdempotent(g: Dict, config: Config)
    requires CompleteDefaults(g) && Preprocess(g, config).Some?
    requires LayersAgree(g, MigrateDefaults(config.defaults).value, config)
    ensures Preprocess(g, Preprocess(g, config).value) == Preprocess(g, config)
  {
    var d := MigrateDefaults(config.defaults).value;
    MigratedDefaults(config.defaults);
    FillIsStable(g, d, config);
    PreprocessWithoutDefaults(g, Fill(Merge(g, d), config));
  }

  /** A configuration without defaults of its own is filled from the given ones. */
  lemma PreprocessWithoutDefaults(g: Dict, config: Config)
    requires config.defaults == map[] && PartsPresent(g, config)
    ensures Preprocess(g, config) == Some(Fill(g, config))
  {
    MergeEmpty(g);
    assert MigrateDefaults(config.defaults) == Some(map[]);
  }

  lemma TargetsAreStable(lower: Dict, layer: Dict, runTargets: map<string, Dict>)
    requires forall name :: name in runTargets ==> Unshadowed(lower, layer, runTargets[name])
    ensures FillTargets(lower, FillTargets(Merge(lower, layer), runTargets)) ==
            FillTargets(Merge(lower, layer), runTargets)
  {
    forall name | name in runTargets
      ensures Merge(lower, Merge(Merge(lower, layer), runTargets[name])) == Merge(Merge(lower, layer), runTargets[name])
    {
      PartIsStable(lower, layer, runTargets[name]);
    }
  }

  lemma RunTargetsAreStable(g: Dict, d: Dict, runTargets: map<string, Dict>, fallback: Option<Dict>)
    requires Part(g, "run_target").Some?
    requires !GetOr(g["run_target"].fields, "transition_timeout_ms", Num(3000)).Obj?
    requires runTargets != map[] || fallback.Some? ==> Part(Merge(g, d), "run_target").Some?
    requires forall name :: name in runTargets ==>
               Unshadowed(g["run_target"].fields, Layer(d, "run_target"), runTargets[name])
    ensures var out := FillTargets(Layer(Merge(g, d), "run_target"), runTargets);
            FillTargets(Layer(g, "run_target"), out) == out
    ensures fallback.Some? ==>
              var out := Merge(FallbackDefaults(Layer(Merge(g, d), "run_target")), fallback.value);
              Merge(FallbackDefaults(Layer(g, "run_target")), out) == out
  {
    MergedPart(g, d, "run_target");
    if runTargets != map[] {
      TargetsAreStable(Layer(g, "run_target"), Layer(d, "run_target"), runTargets);
    }
    if fallback.Some? {
      FallbackIsStable(Layer(g, "run_target"), Layer(Merge(g, d), "run_target"), fallback.value);
    }
  }

  lemma SectionsAreStable(g: Dict, d: Dict, config: Config, merged: Dict)
    requires CompleteDefaults(g) && merged == Merge(g, d) && PartsPresent(merged, config) && LayersAgree(g, d, config)
    ensures var out := Merge(merged["alive_supervision"].fields, config.aliveSupervision);
            Merge(g["alive_supervision"].fields, out) == out
    ensures var out := Merge(merged["watchdog"].fields, config.watchdog);
            Merge(g["watchdog"].fields, out) == out
  {
    MergedPart(g, d, "alive_supervision");
    MergedPart(g, d, "watchdog");
    PartIsStable(g["alive_supervision"].fields, Layer(d, "alive_supervision"), config.aliveSupervision);
    PartIsStable(g["watchdog"].fields, Layer(d, "watchdog"), config.watchdog);
  }

  /** Each retry value is the component's explicit one, else the component's deprecated one (0 if
      absent there), else the explicit one of the defaults, else their deprecated one, else the
      built-in one. */
  function ResolvedRetry(g: Dict, defaults: Dict, deployment: Dict, newKey: string): Option<Json> {
    var layer := Layer(defaults, "deployment_config");
    if Declared(deployment, newKey).Some? then Declared(deployment, newKey)
    else if Declared(layer, newKey).Some? then Declared(layer, newKey)
    else if newKey in Layer(g, "deployment_config") then Some(Layer(g, "deployment_config")[newKey])
    else None
  }

  lemma RetryResolution(g: Dict, config: Config, name: string, newKey: string)
    requires CompleteDefaults(g) && Preprocess(g, config).Some? && name in config.components
    requires newKey == ATTEMPTS || newKey == DELAY
    ensures var c := config.components[name];
            var out := Preprocess(g, config).value.components[name].deployment;
            var resolved :=
              ResolvedRetry(g, config.defaults, if c.deployment.Some? then c.deployment.value else map[], newKey);
            && out.Some? && DEPRECATED !in out.value
            && (newKey in out.value <==> resolved.Some?)
            && (resolved.Some? && !resolved.value.Obj? ==> out.value[newKey] == resolved.value)
  {
    var d := MigrateDefaults(config.defaults).value;
    var c := config.components[name];
    var deployment := if c.deployment.Some? then c.deployment.value else map[];
    assert FillComponent(Merge(g, d), c).Some?;
    MigrationDeclares(deployment);
    MigratedDefaults(config.defaults);
    MergedPart(g, d, "deployment_config");
    LayerDeclares(config.defaults, newKey);
    var lower, layer := g["deployment_config"].fields, Layer(d, "deployment_config");
    MostSpecificWins(lower, layer, Migrate(deployment).value, newKey);
    MostSpecificWins(lower, layer, Migrate(deployment).value, DEPRECATED);
    assert !NotMerging(newKey);
  }

  lemma LayerDeclares(defaults: Dict, newKey: string)
    requires MigrateDefaults(defaults).Some? && (newKey == ATTEMPTS || newKey == DELAY)
    ensures var layer := Layer(MigrateDefaults(defaults).value, "deployment_config");
            && (newKey in layer <==> Declared(Layer(defaults, "deployment_config"), newKey).Some?)
            && (newKey in layer ==> Declared(Layer(defaults, "deployment_config"), newKey) == Some(layer[newKey]))
  {
    if "deployment_config" in defaults {
      MigrationDeclares(defaults["deployment_config"].fields);
    }
  }
}
