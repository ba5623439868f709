/**
 * `JsonFactory` (configuration/jsonfactory.go): loads a JSON configuration
 * file, its local `captainhook.config.json` and the command-line settings,
 * resolving includes under the depth counter held on the factory. Every
 * method is proved to compute the format-neutral loading functions of
 * module `Loading` for the JSON format.
 */
module JsonFactories {
  import opened Wrappers
  import opened Settings
  import opened Hooks
  import opened Configurations
  import opened Factory
  import opened Json
  import opened Loading

  /** Every condition of the list has a non-empty run string. */
  function AllConditionsRun(conditions: seq<JsonCondition>): (ok: bool)
    ensures ok <==> forall i :: 0 <= i < |conditions| ==> conditions[i].run != ""
  {
    if conditions == [] then true
    else if |conditions[0].run| == 0 then false
    else AllConditionsRun(conditions[1..])
  }

  /** An action as the loading procedure sees it. */
  function ActionDeclOf(a: JsonAction): ActionDecl {
    ActionDecl(JsonFactory.IsValidAction(a), ActionFromJson(a))
  }

  function ActionDeclsOf(actions: seq<JsonAction>): (decls: seq<ActionDecl>)
    ensures |decls| == |actions|
    ensures forall i :: 0 <= i < |actions| ==> decls[i] == ActionDeclOf(actions[i])
  {
    if actions == [] then [] else [ActionDeclOf(actions[0])] + ActionDeclsOf(actions[1..])
  }

  function HookDeclsOf(hooks: seq<JsonHookEntry>): (decls: seq<HookDecl>)
    ensures |decls| == |hooks|
    ensures forall i :: 0 <= i < |hooks| ==> decls[i] == HookDecl(hooks[i].name, ActionDeclsOf(hooks[i].hook.actions))
  {
    if hooks == [] then [] else [HookDecl(hooks[0].name, ActionDeclsOf(hooks[0].hook.actions))] + HookDeclsOf(hooks[1..])
  }

  /** A JSON configuration document as the loading procedure sees it. */
  function ConfigDocOf(doc: JsonConfiguration): ConfigDoc {
    ConfigDoc(
      if doc.settings.Some? then Some(NullableFromJson(doc.settings.value)) else None,
      if doc.hooks.Some? then Some(HookDeclsOf(doc.hooks.value)) else None)
  }

  type JsonFiles = FileSystem<JsonConfiguration, JsonAppSettings>

  /** A file as the loading procedure sees it: its documents projected, failures kept. */
  function DocEntry(e: FileEntry<JsonConfiguration, JsonAppSettings>): (d: FileEntry<ConfigDoc, NullableAppSettings>)
    ensures d.Directory? == e.Directory? && d.Unreadable? == e.Unreadable?
  {
    match e
    case Directory => Directory
    case Unreadable => Unreadable
    case Regular(config, settings) =>
      Regular(
        match config
        case Parsed(doc) => Parsed(ConfigDocOf(doc))
        case Unparsable(reason) => Unparsable(reason),
        match settings
        case Parsed(doc) => Parsed(NullableFromJson(doc))
        case Unparsable(reason) => Unparsable(reason))
  }

  /** The file system as the loading procedure sees it. */
  function DocsOf(files: JsonFiles): (docs: Docs)
    ensures docs.Keys == files.Keys
    ensures forall p :: p in files ==> docs[p] == DocEntry(files[p])
  {
    map p | p in files :: DocEntry(files[p])
  }

  class JsonFactory {
    var includeLevel: nat
    var maxIncludeLevel: int
    /** The file system the factory reads. */
    const files: JsonFiles
    /** The same file system, projected for the loading procedure. */
    const docs: Docs := DocsOf(files)
    /** `info.GetValidHooks()`. */
    const validHooks: seq<string>
    /** The name of the local settings file, `captainhook.config.json`. */
    const localSettingsFile: string
    /** A configuration file that does not decode is an error, not an abort. */
    const format: Format := Format(localSettingsFile, false)

    /** `NewJsonFactory`: the include level starts at 0. */
    constructor (files: JsonFiles, validHooks: seq<string>)
      ensures includeLevel == 0 && maxIncludeLevel == 0
      ensures this.files == files && this.validHooks == validHooks
      ensures localSettingsFile == "captainhook.config.json"
    {
      includeLevel := 0;
      maxIncludeLevel := 0;
      this.files := files;
      this.validHooks := validHooks;
      localSettingsFile := "captainhook.config.json";
    }

    function DepthState(): Depth
      reads this
    {
      Depth(includeLevel, maxIncludeLevel)
    }

    /** A configuration this factory may load into. */
    ghost predicate Owns(c: Configuration)
      reads c
    {
      c.Valid() && c.validHooks == validHooks
    }

    /**
     * `isValidAction`: an action needs a run string, and so does each of its
     * top-level conditions; nested conditions are not looked at.
     */
    static function IsValidAction(actionJson: JsonAction): (valid: bool)
      ensures valid <==> actionJson.run != "" && forall i :: 0 <= i < |actionJson.conditions| ==> actionJson.conditions[i].run != ""
    {
      if |actionJson.run| == 0 then false else AllConditionsRun(actionJson.conditions)
    }

    /** `CreateConfig`: the file, then the local settings file, then the command-line settings. */
    method CreateConfig(path: string, cliSettings: Option<NullableAppSettings>) returns (c: Configuration, err: Option<LoadError>)
      modifies this`includeLevel, this`maxIncludeLevel
      ensures fresh(c) && fresh(c.hooks.Values) && Owns(c)
      ensures var r := Loading.CreateConfig(format, docs, validHooks, path, cliSettings, old(DepthState()));
        c.State() == r.config && err == r.err && DepthState() == r.depth
    {
      var cErr;
      c, cErr := SetupConfig(path);
      if cErr.Some? {
        return c, cErr;
      }
      var sErr := LoadSettingsFile(c);
      if sErr.Some? {
        return c, sErr;
      }
      c.OverwriteSettings(cliSettings);
      return c, None;
    }

    /** `setupConfig`: a new configuration, loaded from its file when the file exists. */
    method SetupConfig(path: string) returns (c: Configuration, err: Option<LoadError>)
      modifies this`includeLevel, this`maxIncludeLevel
      ensures fresh(c) && fresh(c.hooks.Values) && Owns(c)
      ensures var r := Setup(format, docs, validHooks, path, old(DepthState()));
        c.State() == r.config && err == r.err && DepthState() == r.depth
      decreases Fresh(DepthState()), Budget(DepthState()), 2, 0
    {
      err := None;
      c := new Configuration(path, FileExists(files, path), validHooks);
      if c.fileExists {
        err := LoadFromFile(c);
      }
    }

    /**
     * `loadFromFile`: read and decode the file, apply its settings, then run
     * the include pass and enable and fill every hook the file names.
     */
    method LoadFromFile(c: Configuration) returns (err: Option<LoadError>)
      requires Owns(c)
      modifies this`includeLevel, this`maxIncludeLevel, c`settings, c.hooks.Values
      ensures Owns(c)
      ensures var r := Loading.LoadFromFile(format, docs, validHooks, old(c.State()), old(DepthState()));
        c.State() == r.config && err == r.err && DepthState() == r.depth
      decreases Fresh(DepthState()), Budget(DepthState()), 1, 1
    {
      var read := ReadConfigFile(files, c.path);
      if read.Failure? {
        return Some(read.error);
      }
      match read.value.asConfig
      case Unparsable(reason) =>
        return Some(ParseFailed(c.path, reason));
      case Parsed(configurationJson) =>
        ghost var doc := ConfigDocOf(configurationJson);
        assert docs[c.path] == DocEntry(files[c.path]);
        assert ReadConfigFile(docs, c.path) == Success(Regular(Parsed(doc), DocEntry(files[c.path]).asSettings));
        if configurationJson.settings.None? {
          return Some(Panic("nil dereference: no config section in " + c.path));
        }
        ghost var d := DepthState();
        c.OverwriteSettings(Some(NullableFromJson(configurationJson.settings.value)));
        if configurationJson.hooks.None? {
          return Some(NoHooks);
        }
        ghost var c1 := c.State();
        assert Loading.LoadFromFile(format, docs, validHooks, old(c.State()), d) == Loading.LoadHooks(format, docs, validHooks, c1, doc.hooks.value, d);
        err := LoadHooks(c, configurationJson.hooks.value);
    }

    /** The end of `loadFromFile` once the file has a `hooks` section: the include pass, then the file's own hooks. */
    method LoadHooks(c: Configuration, hooks: seq<JsonHookEntry>) returns (err: Option<LoadError>)
      requires Owns(c)
      modifies this`includeLevel, this`maxIncludeLevel, c.hooks.Values
      ensures Owns(c)
      ensures var r := Loading.LoadHooks(format, docs, validHooks, old(c.State()), HookDeclsOf(hooks), old(DepthState()));
        c.State() == r.config && err == r.err && DepthState() == r.depth
      decreases Fresh(DepthState()), Budget(DepthState()), 1, 0
    {
      err := AppendIncludedConfiguration(c);
      if err.Some? {
        return;
      }
      err := AddRootHooks(c, hooks);
    }

    /** The loop of `loadFromFile` over the hooks of the file, in map iteration order. */
    method AddRootHooks(c: Configuration, hooks: seq<JsonHookEntry>) returns (err: Option<LoadError>)
      requires Owns(c)
      modifies c.hooks.Values
      ensures Owns(c)
      ensures var r := ApplyRootHooks(old(c.HookStates()), HookDeclsOf(hooks));
        c.HookStates() == r.hooks && err == r.err
    {
      ghost var decls := HookDeclsOf(hooks);
      ghost var states := c.HookStates();
      ghost var target := ApplyRootHooks(states, decls);
      var i := 0;
      while i < |hooks|
        invariant 0 <= i <= |hooks|
        invariant Owns(c)
        invariant c.HookStates() == states
        invariant ApplyRootHooks(states, decls[i..]) == target
      {
        var hookName := hooks[i].name;
        assert decls[i..][0] == decls[i] && decls[i..][1..] == decls[i + 1..];
        var hookConfig := c.HookConfig(hookName);
        if hookConfig == null {
          return Some(Panic("nil dereference: no hook " + hookName));
        }
        assert states[hookName] == hookConfig.State();
        ghost var added := AddActions(HookState(true, hookConfig.actions), hookName, decls[i].actions);
        err := AddHookActions(c, hookConfig, hookName, hooks[i].hook.actions);
        states := states[hookName := added.hook];
        if err.Some? {
          return;
        }
        i := i + 1;
      }
      return None;
    }

    /** The body of the hooks loop for one hook: enable it, then validate and append each action. */
    method AddHookActions(c: Configuration, hookConfig: Hook, hookName: string, actions: seq<JsonAction>) returns (err: Option<LoadError>)
      requires Owns(c) && hookName in c.hooks && c.hooks[hookName] == hookConfig
      modifies hookConfig
      ensures Owns(c)
      ensures var added := AddActions(HookState(true, old(hookConfig.actions)), hookName, ActionDeclsOf(actions));
        c.HookStates() == old(c.HookStates())[hookName := added.hook] && err == added.err
    {
      ghost var before := c.HookStates();
      hookConfig.enabled := true;
      err := AppendActions(hookConfig, hookName, actions);
      forall k | k in c.hooks
        ensures c.HookStates()[k] == before[hookName := hookConfig.State()][k]
      {
        if k != hookName {
          assert c.hooks[k] != hookConfig;
        }
      }
    }

    /** The inner loop over a hook's actions: the first invalid one stops it. */
    method AppendActions(hookConfig: Hook, hookName: string, actions: seq<JsonAction>) returns (err: Option<LoadError>)
      modifies hookConfig
      ensures var added := AddActions(old(hookConfig.State()), hookName, ActionDeclsOf(actions));
        hookConfig.State() == added.hook && err == added.err
    {
      ghost var decls := ActionDeclsOf(actions);
      ghost var target := AddActions(hookConfig.State(), hookName, decls);
      var j := 0;
      while j < |actions|
        invariant 0 <= j <= |actions|
        invariant AddActions(hookConfig.State(), hookName, decls[j..]) == target
      {
        assert decls[j..][0] == decls[j] && decls[j..][1..] == decls[j + 1..];
        if !IsValidAction(actions[j]) {
          return Some(InvalidAction(hookName));
        }
        hookConfig.AddAction(ActionFromJson(actions[j]));
        j := j + 1;
      }
      return None;
    }

    /** `loadSettingsFile`: the local `captainhook.config.json`, when it exists, overrides the settings. */
    method LoadSettingsFile(c: Configuration) returns (err: Option<LoadError>)
      modifies c`settings
      ensures var r := Loading.LoadSettingsFile(format, docs, old(c.State()));
        c.State() == r.config && err == r.err
    {
      var filePath := DirOf(c.path) + "/" + localSettingsFile;
      assert filePath == LocalSettingsPath(format, c.path);
      if !FileExists(files, filePath) {
        return None;
      }
      var read := ReadConfigFile(files, filePath);
      if read.Failure? {
        return Some(read.error);
      }
      match read.value.asSettings
      case Unparsable(reason) =>
        return Some(ParseFailed(filePath, reason));
      case Parsed(appSettingJson) =>
        assert docs[filePath] == DocEntry(files[filePath]);
        c.OverwriteSettings(Some(NullableFromJson(appSettingJson)));
        return None;
    }

    /**
     * `appendIncludedConfiguration`: below the depth bound, load the
     * included configurations one level deeper and merge them in order.
     */
    method AppendIncludedConfiguration(c: Configuration) returns (err: Option<LoadError>)
      requires Owns(c)
      modifies this`includeLevel, this`maxIncludeLevel, c.hooks.Values
      ensures Owns(c)
      ensures var r := AppendIncluded(format, docs, validHooks, old(c.State()), old(DepthState()));
        c.State() == r.config && err == r.err && DepthState() == r.depth
      decreases Fresh(DepthState()), Budget(DepthState()), 0, 1
    {
      DetectMaxIncludeLevel(c);
      if includeLevel < maxIncludeLevel {
        err := IncludeDeeper(c);
      } else {
        err := None;
      }
    }

    /** The branch of `appendIncludedConfiguration` below the bound: load the includes one level deeper, then merge them. */
    method IncludeDeeper(c: Configuration) returns (err: Option<LoadError>)
      requires Owns(c) && includeLevel < maxIncludeLevel
      modifies this`includeLevel, this`maxIncludeLevel, c.hooks.Values
      ensures Owns(c)
      ensures var r := Loading.IncludeDeeper(format, docs, validHooks, old(c.State()), old(DepthState()));
        c.State() == r.config && err == r.err && DepthState() == r.depth
      decreases Fresh(DepthState()), Budget(DepthState()), 0, 0
    {
      ghost var c0 := c.State();
      ghost var d0 := DepthState();
      includeLevel := includeLevel + 1;
      assert c.State() == c0;
      ghost var inner := Depth(d0.level + 1, d0.max);
      assert DepthState() == inner;
      ghost var r := Loading.LoadAndMerge(format, docs, validHooks, c0, inner);
      err := LoadAndMerge(c);
      if err.None? {
        includeLevel := includeLevel - 1;
        assert Loading.IncludeDeeper(format, docs, validHooks, c0, d0) == r.(depth := DepthState());
      } else {
        assert Loading.IncludeDeeper(format, docs, validHooks, c0, d0) == r;
      }
    }

    /** The includes of `c`, loaded relative to its directory and, when all of them loaded, merged into it in order. */
    method LoadAndMerge(c: Configuration) returns (err: Option<LoadError>)
      requires Owns(c)
      modifies this`includeLevel, this`maxIncludeLevel, c.hooks.Values
      ensures Owns(c)
      ensures var r := Loading.LoadAndMerge(format, docs, validHooks, old(c.State()), old(DepthState()));
        c.State() == r.config && err == r.err && DepthState() == r.depth
      decreases Fresh(DepthState()), Budget(DepthState()), 4, |c.settings.includes| + 1
    {
      ghost var c0 := c.State();
      ghost var loaded := LoadIncluded(format, docs, validHooks, c.Includes(), DirOf(c.path), DepthState());
      var includes;
      includes, err := LoadIncludedConfigs(c.Includes(), c.path, c.hooks.Values);
      assert c.State() == c0;
      if err.Some? {
        return;
      }
      ghost var settings := c.settings;
      MergeIncluded(includes, c, loaded.configs);
      assert c.settings == settings;
    }

    /** The loop of `appendIncludedConfiguration` that merges each loaded configuration into `c`, in order. */
    method MergeIncluded(includes: seq<Configuration>, c: Configuration, ghost states: seq<ConfigState>)
      requires Owns(c) && LoadedAs(includes, states, validHooks, c.hooks.Values)
      requires AllSeeded(states, validHooks)
      modifies c.hooks.Values
      ensures Owns(c)
      ensures c.HookStates() == MergeAll(old(c.HookStates()), states, validHooks)
    {
      ghost var start := c.HookStates();
      label Loaded:
      var i := 0;
      while i < |includes|
        invariant 0 <= i <= |includes|
        invariant Owns(c)
        invariant c.HookStates() == MergeAll(start, states[..i], validHooks)
        modifies c.hooks.Values
      {
        assert old@Loaded(Owns(includes[i]) && includes[i].State() == states[i] && includes[i].hooks.Values !! c.hooks.Values);
        assert unchanged@Loaded(includes[i]);
        assert unchanged@Loaded(includes[i].hooks.Values);
        assert includes[i].State() == states[i];
        MergeNext(includes[i], c, start, states, i);
        i := i + 1;
      }
      assert states[..i] == states;
    }

    /** One turn of that loop: merge the `i`th loaded configuration into `c`. */
    method MergeNext(from: Configuration, c: Configuration, ghost start: map<string, HookState>, ghost states: seq<ConfigState>, ghost i: nat)
      requires Owns(from) && Owns(c) && from.hooks.Values !! c.hooks.Values
      requires AllSeeded(states, validHooks) && forall h :: h in validHooks ==> h in start
      requires i < |states| && from.State() == states[i]
      requires c.HookStates() == MergeAll(start, states[..i], validHooks)
      modifies c.hooks.Values
      ensures Owns(c)
      ensures c.HookStates() == MergeAll(start, states[..i + 1], validHooks)
    {
      MergeHookConfigs(from, c);
      assert states[..i + 1][..i] == states[..i];
      MergeAllSnoc(start, states[..i + 1], validHooks);
    }

    /** `mergeHookConfigs`: every valid hook of `to` is enabled and gets `from`'s actions appended. */
    method MergeHookConfigs(from: Configuration, to: Configuration)
      requires Owns(from) && Owns(to)
      requires from.hooks.Values !! to.hooks.Values
      modifies to.hooks.Values
      ensures Owns(to)
      ensures to.HookStates() == MergeHooks(old(from.HookStates()), old(to.HookStates()), validHooks)
    {
      ghost var fromStates := from.HookStates();
      ghost var target := MergeHooks(fromStates, to.HookStates(), validHooks);
      var i := 0;
      while i < |validHooks|
        invariant 0 <= i <= |validHooks|
        invariant Owns(to)
        invariant unchanged(from.hooks.Values)
        invariant MergeHooks(fromStates, to.HookStates(), validHooks[i..]) == target
        modifies to.hooks.Values
      {
        var hook := validHooks[i];
        assert validHooks[i..][0] == hook && validHooks[i..][1..] == validHooks[i + 1..];
        assert from.hooks[hook].State() == fromStates[hook];
        MergeHookConfig(from, to, hook);
        i := i + 1;
      }
    }

    /** The body of the `mergeHookConfigs` loop for one hook name. */
    method MergeHookConfig(from: Configuration, to: Configuration, hook: string)
      requires Owns(from) && Owns(to) && hook in validHooks
      requires from.hooks.Values !! to.hooks.Values
      modifies to.hooks.Values
      ensures Owns(to)
      ensures to.HookStates() == old(to.HookStates())[hook := HookState(true, old(to.hooks[hook].actions) + from.hooks[hook].actions)]
    {
      ghost var before := to.HookStates();
      var targetHookConfig := to.HookConfig(hook);
      targetHookConfig.Enable();
      CopyActionsFromTo(from.HookConfig(hook), targetHookConfig);
      forall k | k in to.hooks
        ensures to.HookStates()[k] == before[hook := targetHookConfig.State()][k]
      {
        if k != hook {
          assert to.hooks[k] != targetHookConfig;
        }
      }
    }

    /** `detectMaxIncludeLevel`: the bound is read from the configuration only at level 0. */
    method DetectMaxIncludeLevel(c: Configuration)
      modifies this`maxIncludeLevel
      ensures DepthState() == Loading.DetectMaxIncludeLevel(c.State(), old(DepthState()))
    {
      if includeLevel == 0 {
        maxIncludeLevel := c.MaxIncludeLevel();
      }
    }

    /** `loadIncludedConfigs`: every include, relative to the directory of `path`, in order. */
    method LoadIncludedConfigs(includes: seq<string>, path: string, ghost others: set<Hook>) returns (configs: seq<Configuration>, err: Option<LoadError>)
      modifies this`includeLevel, this`maxIncludeLevel
      ensures var r := LoadIncluded(format, docs, validHooks, includes, DirOf(path), old(DepthState()));
        LoadedAs(configs, r.configs, validHooks, others) && err == r.err && DepthState() == r.depth
      decreases Fresh(DepthState()), Budget(DepthState()), 4, |includes|
    {
      var directory := DirOf(path);
      ghost var target := LoadIncluded(format, docs, validHooks, includes, directory, DepthState());
      ghost var states: seq<ConfigState> := [];
      configs := [];
      var i := 0;
      while i < |includes|
        invariant 0 <= i <= |includes|
        invariant DepthState().level == old(DepthState()).level
        invariant old(DepthState()).level != 0 ==> DepthState().max == old(DepthState()).max
        invariant LoadedAs(configs, states, validHooks, others)
        invariant Prepend(states, LoadIncluded(format, docs, validHooks, includes[i..], directory, DepthState())) == target
      {
        var config, includeErr := IncludeNext(directory, includes, i, configs, states, others);
        if includeErr.Some? {
          return [], includeErr;
        }
        PrependTwice(states, [config.State()], LoadIncluded(format, docs, validHooks, includes[i + 1..], directory, DepthState()));
        LoadedAsSnoc(configs, states, validHooks, others, config, config.State());
        states := states + [config.State()];
        configs := configs + [config];
        i := i + 1;
      }
      return configs, None;
    }

    /**
     * One turn of the `loadIncludedConfigs` loop: include `includes[i]`
     * relative to `directory`; the configurations loaded before it are left
     * as they are.
     */
    method IncludeNext(directory: string, includes: seq<string>, i: nat, ghost configs: seq<Configuration>, ghost states: seq<ConfigState>, ghost others: set<Hook>)
      returns (c: Configuration?, err: Option<LoadError>)
      requires i < |includes| && LoadedAs(configs, states, validHooks, others)
      modifies this`includeLevel, this`maxIncludeLevel
      ensures LoadedAs(configs, states, validHooks, others)
      ensures err.None? ==> c != null && Owns(c) && c.hooks.Values !! others
      ensures err.None? ==> DepthState().level == old(DepthState()).level
      ensures old(DepthState()).level != 0 ==> DepthState().max == old(DepthState()).max
      ensures var whole := LoadIncluded(format, docs, validHooks, includes[i..], directory, old(DepthState()));
        if err.Some? then whole == LoadedList([], err, DepthState())
        else c != null && whole == Prepend([c.State()], LoadIncluded(format, docs, validHooks, includes[i + 1..], directory, DepthState()))
      decreases Fresh(DepthState()), Budget(DepthState()), 3, 1
    {
      assert includes[i..][0] == includes[i] && includes[i..][1..] == includes[i + 1..];
      c, err := IncludeConfig(directory + "/" + includes[i]);
    }

    /** `includeConfig`: a missing file is an error; otherwise the file is set up like the main one. */
    method IncludeConfig(path: string) returns (c: Configuration?, err: Option<LoadError>)
      modifies this`includeLevel, this`maxIncludeLevel
      ensures c == null <==> !FileExists(files, path)
      ensures err.None? ==> c != null
      ensures c != null ==> fresh(c) && fresh(c.hooks.Values) && Owns(c)
      ensures var r := Loading.IncludeConfig(format, docs, validHooks, path, old(DepthState()));
        err == r.err && DepthState() == r.depth && (c != null ==> c.State() == r.config)
      decreases Fresh(DepthState()), Budget(DepthState()), 3, 0
    {
      if !FileExists(files, path) {
        return null, Some(IncludeNotFound(path));
      }
      c, err := SetupConfig(path);
    }
  }
}
