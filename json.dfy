/**
 * The JSON document records of a configuration file and their conversion
 * into the configuration model (configuration/json.go). A document is taken
 * as already decoded: a field that the JSON text leaves out, or sets to
 * null, is `None`.
 */
module Json {
  import opened Wrappers
  import opened Settings
  import opened Conditions
  import opened Hooks

  /** `JsonActionSettings`: the optional `config` block of an action. */
  datatype JsonActionSettings = JsonActionSettings(
    labelText: Option<string>,
    allowFailure: Option<bool>,
    runAsync: Option<bool>,
    workingDir: Option<string>)

  /**
   * `JsonCondition`: a condition with optional options and nested
   * conditions. An absent (nil) condition list and an empty one are both
   * `[]`: every converter treats them alike.
   */
  datatype JsonCondition = JsonCondition(
    run: string,
    options: Option<map<string, Value>>,
    conditions: seq<JsonCondition>)

  /** `JsonAction`: one entry of a hook's `actions` list. */
  datatype JsonAction = JsonAction(
    run: string,
    conditions: seq<JsonCondition>,
    options: Option<map<string, Value>>,
    settings: Option<JsonActionSettings>)

  /** `JsonHook`: the actions of one hook. */
  datatype JsonHook = JsonHook(actions: seq<JsonAction>)

  /** One key of the `hooks` object, in the order the map is iterated. */
  datatype JsonHookEntry = JsonHookEntry(name: string, hook: JsonHook)

  /** `JsonAppSettings`: the optional `config` block of a configuration file. */
  datatype JsonAppSettings = JsonAppSettings(
    allowFailure: Option<bool>,
    ansiColors: Option<bool>,
    custom: Option<map<string, string>>,
    failOnFirstError: Option<bool>,
    gitDirectory: Option<string>,
    includes: Option<seq<string>>,
    includeLevel: Option<int>,
    runPath: Option<string>,
    runAsync: Option<bool>,
    verbosity: Option<string>)

  /** `JsonConfiguration`: a whole configuration file. */
  datatype JsonConfiguration = JsonConfiguration(
    settings: Option<JsonAppSettings>,
    hooks: Option<seq<JsonHookEntry>>)

  /** `createOptionsFromJson`: the given map as it is, or an empty map when there is none. */
  function OptionsFromJson(json: Option<map<string, Value>>): (o: Options)
    ensures json.None? ==> o.values == map[]
    ensures json.Some? ==> o.values == json.value
  {
    var options := if json.Some? then json.value else map[];
    NewOptions(options)
  }

  /** `createActionSettingsFromJson`: the defaults, overwritten by every present field; `run-async` is dropped. */
  function ActionSettingsFromJson(json: Option<JsonActionSettings>): (a: ActionSettings)
    ensures json.None? ==> a == NewDefaultActionSettings()
    ensures json.Some? ==> a.allowFailure == json.value.allowFailure.GetOr(NewDefaultActionSettings().allowFailure)
    ensures json.Some? ==> a.workingDir == json.value.workingDir.GetOr(NewDefaultActionSettings().workingDir)
    ensures json.Some? ==> a.labelText == json.value.labelText.GetOr(NewDefaultActionSettings().labelText)
  {
    var a := NewDefaultActionSettings();
    match json
    case None => a
    case Some(s) =>
      var a1 := if s.allowFailure.Some? then a.(allowFailure := s.allowFailure.value) else a;
      var a2 := if s.workingDir.Some? then a1.(workingDir := s.workingDir.value) else a1;
      if s.labelText.Some? then a2.(labelText := s.labelText.value) else a2
  }

  /** `createConditionsFromJson`: every condition converted, in order; nil (`[]`) gives an empty list. */
  function ConditionsFromJson(json: seq<JsonCondition>): (conditions: seq<Condition>)
    ensures |conditions| == |json|
    ensures forall i :: 0 <= i < |json| ==> conditions[i] == ConditionFromJson(json[i])
    decreases json, 0
  {
    if json == [] then [] else [ConditionFromJson(json[0])] + ConditionsFromJson(json[1..])
  }

  /** `createConditionFromJson`: the run string as it is, options defaulting to an empty map, and nested conditions converted recursively. */
  function ConditionFromJson(json: JsonCondition): (c: Condition)
    ensures c.run == json.run
    ensures c.options == OptionsFromJson(json.options)
    ensures c.conditions == ConditionsFromJson(json.conditions)
    decreases json, 1
  {
    var o := if json.options.Some? then OptionsFromJson(json.options) else NewOptions(map[]);
    var c := if json.conditions != [] then ConditionsFromJson(json.conditions) else [];
    NewCondition(json.run, o, c)
  }

  /** `createActionFromJson`. */
  function ActionFromJson(json: JsonAction): (a: Action)
    ensures a.run == json.run
    ensures a.settings == ActionSettingsFromJson(json.settings)
    ensures a.options == OptionsFromJson(json.options)
    ensures |a.conditions| == |json.conditions|
    ensures forall i :: 0 <= i < |json.conditions| ==> a.conditions[i] == ConditionFromJson(json.conditions[i])
  {
    Action(json.run, ActionSettingsFromJson(json.settings), ConditionsFromJson(json.conditions), OptionsFromJson(json.options))
  }

  /**
   * `createNullableAppSettingsFromJson`: all ten fields copied, absent ones
   * included. The source dereferences its argument, so a file without a
   * `config` block makes it fail; callers must check for that first.
   */
  function NullableFromJson(json: JsonAppSettings): (n: NullableAppSettings)
    ensures n.allowFailure == json.allowFailure && n.ansiColors == json.ansiColors
    ensures n.custom == json.custom && n.failOnFirstError == json.failOnFirstError
    ensures n.gitDirectory == json.gitDirectory && n.includes == json.includes
    ensures n.includeLevel == json.includeLevel && n.runPath == json.runPath
    ensures n.runAsync == json.runAsync && n.verbosity == json.verbosity
  {
    NewNullableAppSettings().(
      allowFailure := json.allowFailure,
      ansiColors := json.ansiColors,
      custom := json.custom,
      failOnFirstError := json.failOnFirstError,
      gitDirectory := json.gitDirectory,
      includes := json.includes,
      includeLevel := json.includeLevel,
      runPath := json.runPath,
      runAsync := json.runAsync,
      verbosity := json.verbosity)
  }

  /**
   * The JSON document that a condition tree is written as, with its
   * options always present.
   */
  function ConditionToJson(c: Condition): (json: JsonCondition)
    ensures json.run == c.run && json.options == Some(c.options.values)
    decreases c, 1
  {
    JsonCondition(c.run, Some(c.options.values), ConditionsToJson(c.conditions))
  }

  function ConditionsToJson(cs: seq<Condition>): (json: seq<JsonCondition>)
    ensures |json| == |cs|
    ensures forall i :: 0 <= i < |cs| ==> json[i] == ConditionToJson(cs[i])
    decreases cs, 0
  {
    if cs == [] then [] else [ConditionToJson(cs[0])] + ConditionsToJson(cs[1..])
  }

  /** Reading back a written condition tree gives the same tree: the conversion loses nothing. */
  lemma {:induction false} ConditionRoundTrip(c: Condition)
    ensures ConditionFromJson(ConditionToJson(c)) == c
    decreases c, 1
  {
    ConditionsRoundTrip(c.conditions);
  }

  lemma {:induction false} ConditionsRoundTrip(cs: seq<Condition>)
    ensures ConditionsFromJson(ConditionsToJson(cs)) == cs
    decreases cs, 0
  {
    var r := ConditionsFromJson(ConditionsToJson(cs));
    forall i | 0 <= i < |cs|
      ensures r[i] == cs[i]
    {
      ConditionRoundTrip(cs[i]);
    }
  }
}
