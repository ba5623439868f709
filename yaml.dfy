/**
 * The YAML document records of a configuration file and their conversion
 * into the configuration model (configuration/yaml.go). As on the JSON side,
 * an absent field is `None` and an absent list is `[]`.
 */
module Yaml {
  import opened Wrappers
  import opened Settings
  import opened Conditions
  import opened Hooks
  import Json

  /** `YamlAppSettings`: the optional `config` block; note `run-async` precedes `run-path` here. */
  datatype YamlAppSettings = YamlAppSettings(
    allowFailure: Option<bool>,
    ansiColors: Option<bool>,
    custom: Option<map<string, string>>,
    failOnFirstError: Option<bool>,
    gitDirectory: Option<string>,
    includes: Option<seq<string>>,
    includeLevel: Option<int>,
    runAsync: Option<bool>,
    runPath: Option<string>,
    verbosity: Option<string>)

  /** `YamlActionSettings`: the `config` block of an action (`failure-allowed`, `working-directory`). */
  datatype YamlActionSettings = YamlActionSettings(
    labelText: Option<string>,
    allowFailure: Option<bool>,
    runAsync: Option<bool>,
    workingDir: Option<string>)

  /** `YamlCondition`. */
  datatype YamlCondition = YamlCondition(
    run: string,
    options: Option<map<string, Value>>,
    conditions: seq<YamlCondition>)

  /** `YamlAction`. */
  datatype YamlAction = YamlAction(
    run: string,
    options: Option<map<string, Value>>,
    settings: Option<YamlActionSettings>,
    conditions: seq<YamlCondition>)

  /** `YamlHook`. */
  datatype YamlHook = YamlHook(actions: seq<YamlAction>)

  /** One key of the `hooks` mapping, in the order the map is iterated. */
  datatype YamlHookEntry = YamlHookEntry(name: string, hook: YamlHook)

  /** `YamlConfiguration`: a whole configuration file. */
  datatype YamlConfiguration = YamlConfiguration(
    settings: Option<YamlAppSettings>,
    hooks: Option<seq<YamlHookEntry>>)

  /** `createOptionsFromYaml`: the given map as it is, or an empty map when there is none. */
  function OptionsFromYaml(yaml: Option<map<string, Value>>): (o: Options)
    ensures yaml.None? ==> o.values == map[]
    ensures yaml.Some? ==> o.values == yaml.value
  {
    var options := if yaml.Some? then yaml.value else map[];
    NewOptions(options)
  }

  /** `createActionSettingsFromYaml`: the defaults, overwritten by every present field; `run-async` is dropped. */
  function ActionSettingsFromYaml(yaml: Option<YamlActionSettings>): (a: ActionSettings)
    ensures yaml.None? ==> a == NewDefaultActionSettings()
    ensures yaml.Some? ==> a.allowFailure == yaml.value.allowFailure.GetOr(NewDefaultActionSettings().allowFailure)
    ensures yaml.Some? ==> a.workingDir == yaml.value.workingDir.GetOr(NewDefaultActionSettings().workingDir)
    ensures yaml.Some? ==> a.labelText == yaml.value.labelText.GetOr(NewDefaultActionSettings().labelText)
  {
    var a := NewDefaultActionSettings();
    match yaml
    case None => a
    case Some(s) =>
      var a1 := if s.allowFailure.Some? then a.(allowFailure := s.allowFailure.value) else a;
      var a2 := if s.workingDir.Some? then a1.(workingDir := s.workingDir.value) else a1;
      if s.labelText.Some? then a2.(labelText := s.labelText.value) else a2
  }

  /** `createConditionsFromYaml`: every condition converted, in order. */
  function ConditionsFromYaml(yaml: seq<YamlCondition>): (conditions: seq<Condition>)
    ensures |conditions| == |yaml|
    ensures forall i :: 0 <= i < |yaml| ==> conditions[i] == ConditionFromYaml(yaml[i])
    decreases yaml, 0
  {
    if yaml == [] then [] else [ConditionFromYaml(yaml[0])] + ConditionsFromYaml(yaml[1..])
  }

  /**
   * `createConditionFromYaml`: the run string as it is, options defaulting
   * to an empty map (converted by the JSON side's `createOptionsFromJson`),
   * nested conditions converted recursively.
   */
  function ConditionFromYaml(yaml: YamlCondition): (c: Condition)
    ensures c.run == yaml.run
    ensures c.options == OptionsFromYaml(yaml.options)
    ensures c.conditions == ConditionsFromYaml(yaml.conditions)
    decreases yaml, 1
  {
    var o := if yaml.options.Some? then Json.OptionsFromJson(yaml.options) else NewOptions(map[]);
    var c := if yaml.conditions != [] then ConditionsFromYaml(yaml.conditions) else [];
    NewCondition(yaml.run, o, c)
  }

  /** `createActionFromYaml`. */
  function ActionFromYaml(yaml: YamlAction): (a: Action)
    ensures a.run == yaml.run
    ensures a.settings == ActionSettingsFromYaml(yaml.settings)
    ensures a.options == OptionsFromYaml(yaml.options)
    ensures |a.conditions| == |yaml.conditions|
    ensures forall i :: 0 <= i < |yaml.conditions| ==> a.conditions[i] == ConditionFromYaml(yaml.conditions[i])
  {
    Action(yaml.run, ActionSettingsFromYaml(yaml.settings), ConditionsFromYaml(yaml.conditions), OptionsFromYaml(yaml.options))
  }

  /**
   * `createNullableAppSettingsFromYaml`: all ten fields copied by name. Like
   * the JSON version it dereferences its argument, so callers must check
   * that a `config` block is present.
   */
  function NullableFromYaml(yaml: YamlAppSettings): (n: NullableAppSettings)
    ensures n.allowFailure == yaml.allowFailure && n.ansiColors == yaml.ansiColors
    ensures n.custom == yaml.custom && n.failOnFirstError == yaml.failOnFirstError
    ensures n.gitDirectory == yaml.gitDirectory && n.includes == yaml.includes
    ensures n.includeLevel == yaml.includeLevel && n.runPath == yaml.runPath
    ensures n.runAsync == yaml.runAsync && n.verbosity == yaml.verbosity
  {
    NewNullableAppSettings().(
      allowFailure := yaml.allowFailure,
      ansiColors := yaml.ansiColors,
      custom := yaml.custom,
      failOnFirstError := yaml.failOnFirstError,
      gitDirectory := yaml.gitDirectory,
      includes := yaml.includes,
      includeLevel := yaml.includeLevel,
      runPath := yaml.runPath,
      runAsync := yaml.runAsync,
      verbosity := yaml.verbosity)
  }

  /** The same logical condition tree written as a JSON document. */
  function ConditionToJson(y: YamlCondition): (j: Json.JsonCondition)
    ensures j.run == y.run && j.options == y.options && |j.conditions| == |y.conditions|
    decreases y, 1
  {
    Json.JsonCondition(y.run, y.options, ConditionsToJson(y.conditions))
  }

  function ConditionsToJson(ys: seq<YamlCondition>): (js: seq<Json.JsonCondition>)
    ensures |js| == |ys|
    ensures forall i :: 0 <= i < |ys| ==> js[i] == ConditionToJson(ys[i])
    decreases ys, 0
  {
    if ys == [] then [] else [ConditionToJson(ys[0])] + ConditionsToJson(ys[1..])
  }

  /** The YAML and the JSON conversion build the same `Condition` tree from the same logical tree. */
  lemma {:induction false} ConditionParity(y: YamlCondition)
    ensures ConditionFromYaml(y) == Json.ConditionFromJson(ConditionToJson(y))
    decreases y, 1
  {
    ConditionsParity(y.conditions);
  }

  lemma {:induction false} ConditionsParity(ys: seq<YamlCondition>)
    ensures ConditionsFromYaml(ys) == Json.ConditionsFromJson(ConditionsToJson(ys))
    decreases ys, 0
  {
    forall i | 0 <= i < |ys|
      ensures ConditionsFromYaml(ys)[i] == Json.ConditionsFromJson(ConditionsToJson(ys))[i]
    {
      ConditionParity(ys[i]);
    }
  }

  /** The same logical settings block written as a JSON document. */
  function AppSettingsToJson(y: YamlAppSettings): Json.JsonAppSettings {
    Json.JsonAppSettings(y.allowFailure, y.ansiColors, y.custom, y.failOnFirstError, y.gitDirectory,
      y.includes, y.includeLevel, y.runPath, y.runAsync, y.verbosity)
  }

  /** Both formats read the same settings block into the same overrides, despite the different field order. */
  lemma SettingsParity(y: YamlAppSettings)
    ensures NullableFromYaml(y) == Json.NullableFromJson(AppSettingsToJson(y))
  {
  }
}
