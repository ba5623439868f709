/**
 * The loading procedure that `JsonFactory` and `YamlFactory` share
 * (configuration/jsonfactory.go, configuration/yamlfactory.go), stated once
 * over values and independently of the file format. Each factory class is
 * proved to compute exactly these functions, and the properties of loading
 * are proved here.
 *
 * The file system is seen through the projection of each format's
 * documents onto `ConfigDoc` and `NullableAppSettings`; a format
 * contributes the name of its local settings file and whether a
 * configuration file that does not decode aborts the process instead of
 * returning an error.
 */
module Loading {
  import opened Wrappers
  import opened Settings
  import opened Hooks
  import opened Configurations
  import opened Factory

  /** An action of a document: whether `isValidAction` accepts it, and what it converts to. */
  datatype ActionDecl = ActionDecl(valid: bool, action: Action)

  /** A hook of a document, under its name. */
  datatype HookDecl = HookDecl(name: string, actions: seq<ActionDecl>)

  /** A configuration document: its optional `config` block and its optional `hooks` section. */
  datatype ConfigDoc = ConfigDoc(settings: Option<NullableAppSettings>, hooks: Option<seq<HookDecl>>)

  /**
   * What distinguishes the JSON from the YAML factory: the name of the
   * local settings file, and whether a configuration file that does not
   * decode aborts the process instead of returning an error.
   */
  datatype Format = Format(localSettingsFile: string, configParseIsFatal: bool)

  /**
   * The file system with every regular file projected onto what loading
   * reads of it: its configuration document and its settings document.
   */
  type Docs = FileSystem<ConfigDoc, NullableAppSettings>

  /** The factory's `includeLevel` and `maxIncludeLevel`. */
  datatype Depth = Depth(level: nat, max: int)

  /** A configuration, the error its load ended in, and the factory's depth state afterwards. */
  datatype Loaded = Loaded(config: ConfigState, err: Option<LoadError>, depth: Depth)

  /** The result of `loadIncludedConfigs`. */
  datatype LoadedList = LoadedList(configs: seq<ConfigState>, err: Option<LoadError>, depth: Depth)

  /** A configuration and an error, for steps that leave the depth alone. */
  datatype Outcome = Outcome(config: ConfigState, err: Option<LoadError>)

  /** A hook's state and an error. */
  datatype HookResult = HookResult(hook: HookState, err: Option<LoadError>)

  /** A configuration's hooks and an error. */
  datatype HooksResult = HooksResult(hooks: map<string, HookState>, err: Option<LoadError>)

  /** The decoded configuration document at `path`, if there is one. */
  function MainDoc(fmt: Format, fs: Docs, path: string): Option<ConfigDoc> {
    if path in fs && fs[path].Regular? && fs[path].asConfig.Parsed? then
      Some(fs[path].asConfig.doc)
    else None
  }

  /** The settings overrides of the configuration document at `path`. */
  function MainOverrides(fmt: Format, fs: Docs, path: string): Option<NullableAppSettings> {
    match MainDoc(fmt, fs, path)
    case None => None
    case Some(doc) => doc.settings
  }

  /** The path of the local settings file next to the configuration at `path`. */
  function LocalSettingsPath(fmt: Format, path: string): string {
    DirOf(path) + "/" + fmt.localSettingsFile
  }

  /** The settings overrides of the local settings file next to `path`. */
  function LocalOverrides(fmt: Format, fs: Docs, path: string): Option<NullableAppSettings> {
    var p := LocalSettingsPath(fmt, path);
    if p in fs && fs[p].Regular? && fs[p].asSettings.Parsed? then Some(fs[p].asSettings.doc)
    else None
  }

  /** Measures of the include recursion: whether the root pass is still to come, and the levels left. */
  function Fresh(d: Depth): nat {
    if d.level == 0 then 1 else 0
  }

  function Budget(d: Depth): nat {
    if d.level == 0 || d.max <= d.level then 0 else d.max - d.level
  }

  /** `detectMaxIncludeLevel`: the bound is read from the configuration only at level 0. */
  function DetectMaxIncludeLevel(c: ConfigState, d: Depth): (r: Depth)
    ensures r.level == d.level
    ensures d.level == 0 ==> r.max == c.settings.includeLevel
    ensures d.level != 0 ==> r.max == d.max
  {
    if d.level == 0 then d.(max := c.settings.includeLevel) else d
  }

  /** The actions of a list of declarations, in order. */
  function ActionsOf(decls: seq<ActionDecl>): (actions: seq<Action>)
    ensures |actions| == |decls|
    ensures forall i :: 0 <= i < |decls| ==> actions[i] == decls[i].action
  {
    if decls == [] then [] else [decls[0].action] + ActionsOf(decls[1..])
  }

  /** The index of the first declaration `isValidAction` rejects, or the length when there is none. */
  function FirstInvalid(decls: seq<ActionDecl>): (k: nat)
    ensures k <= |decls|
    ensures forall j :: 0 <= j < k ==> decls[j].valid
    ensures k < |decls| ==> !decls[k].valid
  {
    if decls == [] then 0 else if !decls[0].valid then 0 else 1 + FirstInvalid(decls[1..])
  }

  /**
   * The inner loop of the root-hooks pass: each action is validated and
   * then appended; the first invalid one stops the load with
   * "invalid action config in <hook>".
   */
  function AddActions(h: HookState, name: string, decls: seq<ActionDecl>): (r: HookResult)
    ensures r.hook.enabled == h.enabled
    ensures r.err.None? <==> FirstInvalid(decls) == |decls|
    ensures r.err.Some? ==> r.err == Some(InvalidAction(name))
    decreases |decls|
  {
    if decls == [] then HookResult(h, None)
    else if !decls[0].valid then HookResult(h, Some(InvalidAction(name)))
    else AddActions(HookState(h.enabled, h.actions + [decls[0].action]), name, decls[1..])
  }

  /** The load of a hook's actions fails exactly when one of them is invalid. */
  lemma AddActionsFails(h: HookState, name: string, decls: seq<ActionDecl>)
    ensures AddActions(h, name, decls).err.None? <==> forall i :: 0 <= i < |decls| ==> decls[i].valid
  {
    var k := FirstInvalid(decls);
    if k < |decls| {
      assert !decls[k].valid;
    }
  }

  /**
   * The actions appended are those before the first invalid one, in order:
   * an invalid action keeps the actions appended before it.
   */
  lemma {:induction false} AddActionsAppends(h: HookState, name: string, decls: seq<ActionDecl>)
    ensures AddActions(h, name, decls).hook.actions == h.actions + ActionsOf(decls[..FirstInvalid(decls)])
    decreases |decls|
  {
    if decls == [] {
    } else if !decls[0].valid {
      assert decls[..0] == [];
    } else {
      var h' := HookState(h.enabled, h.actions + [decls[0].action]);
      AddActionsAppends(h', name, decls[1..]);
      var k := FirstInvalid(decls[1..]);
      assert FirstInvalid(decls) == 1 + k;
      assert AddActions(h, name, decls) == AddActions(h', name, decls[1..]);
      var tail := ActionsOf(decls[1..][..k]);
      assert decls[..1 + k] == [decls[0]] + decls[1..][..k];
      assert ActionsOf([decls[0]] + decls[1..][..k]) == [decls[0].action] + tail;
      assert h'.actions + tail == h.actions + ([decls[0].action] + tail);
    }
  }

  /**
   * The root-hooks pass: every hook named in the document is enabled and
   * gets its actions appended. A name outside the valid set has no hook
   * object, and the source dereferences it.
   */
  function ApplyRootHooks(hooks: map<string, HookState>, decls: seq<HookDecl>): (r: HooksResult)
    ensures r.hooks.Keys == hooks.Keys
    ensures r.err.Some? ==> r.err.value.Panic? || r.err.value.InvalidAction?
    decreases |decls|
  {
    if decls == [] then HooksResult(hooks, None)
    else
      var name := decls[0].name;
      if name !in hooks then HooksResult(hooks, Some(Panic("nil dereference: no hook " + name)))
      else
        var added := AddActions(HookState(true, hooks[name].actions), name, decls[0].actions);
        var hooks' := hooks[name := added.hook];
        if added.err.Some? then HooksResult(hooks', added.err)
        else ApplyRootHooks(hooks', decls[1..])
  }

  /** The pass disables no hook. */
  lemma {:induction false} RootHooksStayEnabled(hooks: map<string, HookState>, decls: seq<HookDecl>)
    ensures var r := ApplyRootHooks(hooks, decls);
      forall h :: h in hooks && hooks[h].enabled ==> r.hooks[h].enabled
    decreases |decls|
  {
    if decls != [] && decls[0].name in hooks {
      var name := decls[0].name;
      var added := AddActions(HookState(true, hooks[name].actions), name, decls[0].actions);
      if added.err.None? {
        RootHooksStayEnabled(hooks[name := added.hook], decls[1..]);
      }
    }
  }

  /** Every hook the document names ends enabled when the pass succeeds. */
  lemma {:induction false} RootHooksEnabled(hooks: map<string, HookState>, decls: seq<HookDecl>)
    ensures var r := ApplyRootHooks(hooks, decls);
      r.err.None? ==> forall i :: 0 <= i < |decls| ==> decls[i].name in r.hooks && r.hooks[decls[i].name].enabled
    decreases |decls|
  {
    if decls != [] && decls[0].name in hooks {
      var name := decls[0].name;
      var added := AddActions(HookState(true, hooks[name].actions), name, decls[0].actions);
      var hooks' := hooks[name := added.hook];
      if added.err.None? {
        RootHooksEnabled(hooks', decls[1..]);
        RootHooksStayEnabled(hooks', decls[1..]);
        var r := ApplyRootHooks(hooks', decls[1..]);
        if r.err.None? {
          forall i | 0 <= i < |decls|
            ensures decls[i].name in r.hooks && r.hooks[decls[i].name].enabled
          {
            if i > 0 {
              assert decls[1..][i - 1] == decls[i];
            }
          }
        }
      }
    }
  }

  /** Every hook keeps the actions it had (those from includes) ahead of the ones appended here. */
  lemma {:induction false} RootHooksKeepActions(hooks: map<string, HookState>, decls: seq<HookDecl>)
    ensures var r := ApplyRootHooks(hooks, decls);
      forall h :: h in hooks ==> hooks[h].actions <= r.hooks[h].actions
    decreases |decls|
  {
    if decls != [] && decls[0].name in hooks {
      var name := decls[0].name;
      var start := HookState(true, hooks[name].actions);
      var added := AddActions(start, name, decls[0].actions);
      AddActionsAppends(start, name, decls[0].actions);
      var hooks' := hooks[name := added.hook];
      assert hooks[name].actions <= hooks'[name].actions;
      if added.err.None? {
        RootHooksKeepActions(hooks', decls[1..]);
      }
    }
  }

  /** The pass fails exactly when the document names an invalid hook or holds an invalid action. */
  lemma {:induction false} RootHooksFail(hooks: map<string, HookState>, decls: seq<HookDecl>)
    ensures var r := ApplyRootHooks(hooks, decls);
      r.err.None? <==> forall i :: 0 <= i < |decls| ==> decls[i].name in hooks && forall j :: 0 <= j < |decls[i].actions| ==> decls[i].actions[j].valid
    decreases |decls|
  {
    if decls != [] && decls[0].name in hooks {
      var name := decls[0].name;
      var added := AddActions(HookState(true, hooks[name].actions), name, decls[0].actions);
      AddActionsFails(HookState(true, hooks[name].actions), name, decls[0].actions);
      var hooks' := hooks[name := added.hook];
      if added.err.None? {
        RootHooksFail(hooks', decls[1..]);
        assert forall i :: 0 <= i < |decls[1..]| ==> decls[1..][i] == decls[i + 1];
        assert hooks'.Keys == hooks.Keys;
      }
    }
  }

  /** `mergeHookConfigs` over states: each valid hook of `to` is enabled and gets `from`'s actions appended. */
  function MergeHooks(from: map<string, HookState>, to: map<string, HookState>, valid: seq<string>): (r: map<string, HookState>)
    requires forall h :: h in valid ==> h in from && h in to
    ensures r.Keys == to.Keys
    decreases |valid|
  {
    if valid == [] then to
    else
      var h := valid[0];
      MergeHooks(from, to[h := HookState(true, to[h].actions + from[h].actions)], valid[1..])
  }

  /** The valid hook names are pairwise distinct. */
  predicate Distinct(valid: seq<string>) {
    forall i, j :: 0 <= i < j < |valid| ==> valid[i] != valid[j]
  }

  /** For distinct hook names, merging enables each valid hook and appends `from`'s actions once. */
  lemma {:induction false} MergeHooksClosedForm(from: map<string, HookState>, to: map<string, HookState>, valid: seq<string>)
    requires forall h :: h in valid ==> h in from && h in to
    requires Distinct(valid)
    ensures forall h :: h in to ==>
      MergeHooks(from, to, valid)[h] == if h in valid then HookState(true, to[h].actions + from[h].actions) else to[h]
    decreases |valid|
  {
    if valid != [] {
      var h0 := valid[0];
      var to' := to[h0 := HookState(true, to[h0].actions + from[h0].actions)];
      assert Distinct(valid[1..]) by {
        forall i, j | 0 <= i < j < |valid[1..]| ensures valid[1..][i] != valid[1..][j] {
          assert valid[1..][i] == valid[i + 1] && valid[1..][j] == valid[j + 1];
        }
      }
      MergeHooksClosedForm(from, to', valid[1..]);
      forall h | h in to
        ensures MergeHooks(from, to, valid)[h] == if h in valid then HookState(true, to[h].actions + from[h].actions) else to[h]
      {
        if h != h0 {
          assert h in valid <==> h in valid[1..] by {
            if h in valid {
              var j :| 0 <= j < |valid| && valid[j] == h;
              assert valid[1..][j - 1] == h;
            }
          }
        }
      }
    }
  }

  /** Every configuration in the list has a hook for every valid name. */
  predicate AllSeeded(configs: seq<ConfigState>, valid: seq<string>) {
    forall i :: 0 <= i < |configs| ==> configs[i].hooks.Keys == HookNames(valid)
  }

  /** The loop of `appendIncludedConfiguration` that merges every included configuration, in order. */
  function MergeAll(to: map<string, HookState>, configs: seq<ConfigState>, valid: seq<string>): (r: map<string, HookState>)
    requires forall h :: h in valid ==> h in to
    requires AllSeeded(configs, valid)
    ensures r.Keys == to.Keys
    decreases |configs|
  {
    if configs == [] then to
    else MergeAll(MergeHooks(configs[0].hooks, to, valid), configs[1..], valid)
  }

  /** The actions of hook `h` over a list of configurations, in list order. */
  function IncludedActions(configs: seq<ConfigState>, h: string): seq<Action>
    requires forall i :: 0 <= i < |configs| ==> h in configs[i].hooks
  {
    if configs == [] then [] else configs[0].hooks[h].actions + IncludedActions(configs[1..], h)
  }

  /**
   * After merging the included configurations, a valid hook is enabled and
   * holds its own actions followed by the included ones in include-list
   * order; nothing changes when no configuration was included.
   */
  lemma {:induction false} MergeAllClosedForm(to: map<string, HookState>, configs: seq<ConfigState>, valid: seq<string>, h: string)
    requires forall k :: k in valid ==> k in to
    requires AllSeeded(configs, valid)
    requires Distinct(valid)
    requires h in valid
    ensures configs == [] ==> MergeAll(to, configs, valid)[h] == to[h]
    ensures configs != [] ==> MergeAll(to, configs, valid)[h] == HookState(true, to[h].actions + IncludedActions(configs, h))
    decreases |configs|
  {
    if configs != [] {
      var to' := MergeHooks(configs[0].hooks, to, valid);
      MergeHooksClosedForm(configs[0].hooks, to, valid);
      MergeAllClosedForm(to', configs[1..], valid, h);
      if configs[1..] != [] {
        assert IncludedActions(configs, h) == configs[0].hooks[h].actions + IncludedActions(configs[1..], h);
      }
    }
  }

  /** Merging one more configuration at the end merges it last, on top of the rest. */
  lemma {:induction false} MergeAllSnoc(to: map<string, HookState>, configs: seq<ConfigState>, valid: seq<string>)
    requires forall k :: k in valid ==> k in to
    requires AllSeeded(configs, valid) && configs != []
    ensures var last := configs[|configs| - 1];
      MergeAll(to, configs, valid) == MergeHooks(last.hooks, MergeAll(to, configs[..|configs| - 1], valid), valid)
    decreases |configs|
  {
    if |configs| > 1 {
      var to' := MergeHooks(configs[0].hooks, to, valid);
      MergeAllSnoc(to', configs[1..], valid);
      assert configs[1..][..|configs| - 2] == configs[..|configs| - 1][1..];
    }
  }

  /** `setupConfig`: a fresh configuration, loaded from its file when the file exists. */
  function Setup(fmt: Format, fs: Docs, valid: seq<string>, path: string, d: Depth): (r: Loaded)
    ensures r.config.path == path && r.config.fileExists == FileExists(fs, path)
    ensures r.config.hooks.Keys == HookNames(valid)
    ensures r.config.settings.includes == [] && r.config.settings.includeLevel == 1
    ensures r.depth.level >= d.level
    ensures d.level != 0 ==> r.depth.max == d.max
    ensures r.err.None? ==> r.depth.level == d.level
    ensures fmt.configParseIsFatal && r.err.Some? ==> !r.err.value.ParseFailed?
    decreases Fresh(d), Budget(d), 2, 0
  {
    var c := NewConfigState(path, FileExists(fs, path), valid);
    if c.fileExists then LoadFromFile(fmt, fs, valid, c, d) else Loaded(c, None, d)
  }

  /**
   * `loadFromFile`: read and decode the file, apply its settings, then
   * (only when it has a `hooks` section) run the include pass and the
   * root-hooks pass.
   */
  function LoadFromFile(fmt: Format, fs: Docs, valid: seq<string>, c: ConfigState, d: Depth): (r: Loaded)
    requires c.hooks.Keys == HookNames(valid)
    ensures r.config.path == c.path && r.config.fileExists == c.fileExists
    ensures r.config.hooks.Keys == c.hooks.Keys
    ensures r.config.settings.includes == c.settings.includes
    ensures r.config.settings.includeLevel == c.settings.includeLevel
    ensures r.err.None? ==> MainDoc(fmt, fs, c.path).Some?
    ensures r.err.None? ==> r.config.settings == Overwritten(c.settings, MainOverrides(fmt, fs, c.path))
    ensures r.depth.level >= d.level
    ensures d.level != 0 ==> r.depth.max == d.max
    ensures r.err.None? ==> r.depth.level == d.level
    ensures fmt.configParseIsFatal && r.err.Some? ==> !r.err.value.ParseFailed?
    decreases Fresh(d), Budget(d), 1, 1
  {
    match ReadConfigFile(fs, c.path)
    case Failure(e) => Loaded(c, Some(e), d)
    case Success(entry) =>
      match entry.asConfig
      case Unparsable(reason) =>
        if fmt.configParseIsFatal then Loaded(c, Some(Fatal(reason)), d)
        else Loaded(c, Some(ParseFailed(c.path, reason)), d)
      case Parsed(doc) =>
        if doc.settings.None? then Loaded(c, Some(Panic("nil dereference: no config section in " + c.path)), d)
        else
          var c1 := c.(settings := Overwritten(c.settings, doc.settings));
          if doc.hooks.None? then Loaded(c1, Some(NoHooks), d)
          else LoadHooks(fmt, fs, valid, c1, doc.hooks.value, d)
  }

  /**
   * The end of `loadFromFile` for a document with a `hooks` section: the
   * include pass, then the root-hooks pass over the document's hooks.
   */
  function LoadHooks(fmt: Format, fs: Docs, valid: seq<string>, c: ConfigState, hooks: seq<HookDecl>, d: Depth): (r: Loaded)
    requires c.hooks.Keys == HookNames(valid)
    ensures r.config.path == c.path && r.config.fileExists == c.fileExists && r.config.settings == c.settings
    ensures r.config.hooks.Keys == c.hooks.Keys
    ensures r.depth.level >= d.level
    ensures d.level != 0 ==> r.depth.max == d.max
    ensures r.err.None? ==> r.depth.level == d.level
    ensures fmt.configParseIsFatal && r.err.Some? ==> !r.err.value.ParseFailed?
    decreases Fresh(d), Budget(d), 1, 0
  {
    var inc := AppendIncluded(fmt, fs, valid, c, d);
    if inc.err.Some? then inc
    else
      var root := ApplyRootHooks(inc.config.hooks, hooks);
      Loaded(inc.config.(hooks := root.hooks), root.err, inc.depth)
  }

  /**
   * `appendIncludedConfiguration`: below the depth bound, the included
   * configurations are loaded one level deeper and merged in order; the
   * level is decremented again only when that succeeded.
   */
  function AppendIncluded(fmt: Format, fs: Docs, valid: seq<string>, c: ConfigState, d: Depth): (r: Loaded)
    requires c.hooks.Keys == HookNames(valid)
    ensures r.config.path == c.path && r.config.fileExists == c.fileExists && r.config.settings == c.settings
    ensures r.config.hooks.Keys == c.hooks.Keys
    ensures r.depth.level >= d.level
    ensures d.level == 0 ==> r.depth.max == c.settings.includeLevel
    ensures d.level != 0 ==> r.depth.max == d.max
    ensures r.err.None? ==> r.depth.level == d.level
    ensures r.err.Some? ==> r.depth.level > d.level
    ensures fmt.configParseIsFatal && r.err.Some? ==> !r.err.value.ParseFailed?
    decreases Fresh(d), Budget(d), 0, 1
  {
    var d1 := DetectMaxIncludeLevel(c, d);
    if d1.level < d1.max then IncludeDeeper(fmt, fs, valid, c, d1) else Loaded(c, None, d1)
  }

  /**
   * The branch of `appendIncludedConfiguration` below the bound: one level
   * deeper, load every include, then merge them in order and step back up.
   */
  function IncludeDeeper(fmt: Format, fs: Docs, valid: seq<string>, c: ConfigState, d: Depth): (r: Loaded)
    requires c.hooks.Keys == HookNames(valid)
    requires d.level < d.max
    ensures r.config.path == c.path && r.config.fileExists == c.fileExists && r.config.settings == c.settings
    ensures r.config.hooks.Keys == c.hooks.Keys
    ensures r.depth.max == d.max
    ensures r.err.None? ==> r.depth == d
    ensures r.err.Some? ==> r.config == c && r.depth.level > d.level
    ensures fmt.configParseIsFatal && r.err.Some? ==> !r.err.value.ParseFailed?
    decreases Fresh(d), Budget(d), 0, 0
  {
    var r := LoadAndMerge(fmt, fs, valid, c, Depth(d.level + 1, d.max));
    if r.err.Some? then r else r.(depth := Depth(r.depth.level - 1, r.depth.max))
  }

  /** The includes of `c`, loaded relative to its directory and, when all of them loaded, merged into it in order. */
  function LoadAndMerge(fmt: Format, fs: Docs, valid: seq<string>, c: ConfigState, d: Depth): (r: Loaded)
    requires c.hooks.Keys == HookNames(valid)
    ensures r.config.path == c.path && r.config.fileExists == c.fileExists && r.config.settings == c.settings
    ensures r.config.hooks.Keys == c.hooks.Keys
    ensures r.depth.level >= d.level
    ensures d.level != 0 ==> r.depth.max == d.max
    ensures r.err.None? ==> r.depth.level == d.level
    ensures r.err.Some? ==> r.config == c
    ensures fmt.configParseIsFatal && r.err.Some? ==> !r.err.value.ParseFailed?
    decreases Fresh(d), Budget(d), 4, |c.settings.includes| + 1
  {
    var r := LoadIncluded(fmt, fs, valid, c.settings.includes, DirOf(c.path), d);
    if r.err.Some? then Loaded(c, r.err, r.depth)
    else Loaded(c.(hooks := MergeAll(c.hooks, r.configs, valid)), None, r.depth)
  }

  /** `loadIncludedConfigs`: every include, relative to `dir`, in order; the first error stops the loop. */
  function LoadIncluded(fmt: Format, fs: Docs, valid: seq<string>, includes: seq<string>, dir: string, d: Depth): (r: LoadedList)
    ensures r.err.None? ==> |r.configs| == |includes| && AllSeeded(r.configs, valid)
    ensures r.depth.level >= d.level
    ensures d.level != 0 ==> r.depth.max == d.max
    ensures r.err.None? ==> r.depth.level == d.level
    ensures fmt.configParseIsFatal && r.err.Some? ==> !r.err.value.ParseFailed?
    ensures r.err.None? && d.level != 0 ==> r.depth == d
    ensures r.err.None? && d.level != 0 ==>
      forall i :: 0 <= i < |includes| ==> r.configs[i] == IncludeConfig(fmt, fs, valid, dir + "/" + includes[i], d).config
    decreases Fresh(d), Budget(d), 4, |includes|
  {
    if includes == [] then LoadedList([], None, d)
    else
      var first := IncludeConfig(fmt, fs, valid, dir + "/" + includes[0], d);
      if first.err.Some? then LoadedList([], first.err, first.depth)
      else
        Prepend([first.config], LoadIncluded(fmt, fs, valid, includes[1..], dir, first.depth))
  }

  /** The configurations loaded so far, put in front of the result of the rest of the list. */
  function Prepend(done: seq<ConfigState>, r: LoadedList): (p: LoadedList)
    ensures p.err == r.err && p.depth == r.depth
    ensures r.err.None? ==> p.configs == done + r.configs
    ensures r.err.Some? ==> p.configs == []
  {
    if r.err.Some? then LoadedList([], r.err, r.depth) else LoadedList(done + r.configs, None, r.depth)
  }

  lemma PrependTwice(a: seq<ConfigState>, b: seq<ConfigState>, r: LoadedList)
    ensures Prepend(a, Prepend(b, r)) == Prepend(a + b, r)
  {
    if r.err.None? {
      assert a + (b + r.configs) == (a + b) + r.configs;
    }
  }

  /**
   * `includeConfig`: a missing file is an error ("config to include not
   * found: <path>"); the source then returns no configuration, represented
   * here by an unused empty one.
   */
  function IncludeConfig(fmt: Format, fs: Docs, valid: seq<string>, path: string, d: Depth): (r: Loaded)
    ensures r.config.hooks.Keys == HookNames(valid)
    ensures !FileExists(fs, path) ==> r.err == Some(IncludeNotFound(path)) && r.depth == d
    ensures r.depth.level >= d.level
    ensures d.level != 0 ==> r.depth.max == d.max
    ensures r.err.None? ==> r.depth.level == d.level
    ensures fmt.configParseIsFatal && r.err.Some? ==> !r.err.value.ParseFailed?
    decreases Fresh(d), Budget(d), 3, 0
  {
    if !FileExists(fs, path) then Loaded(NewConfigState(path, false, valid), Some(IncludeNotFound(path)), d)
    else Setup(fmt, fs, valid, path, d)
  }

  /** `loadSettingsFile`: the local settings file, when it exists, overrides the settings. */
  function LoadSettingsFile(fmt: Format, fs: Docs, c: ConfigState): (r: Outcome)
    ensures r.config.path == c.path && r.config.fileExists == c.fileExists && r.config.hooks == c.hooks
    ensures !FileExists(fs, LocalSettingsPath(fmt, c.path)) ==> r == Outcome(c, None)
    ensures r.err.None? ==> r.config.settings == Overwritten(c.settings, LocalOverrides(fmt, fs, c.path))
  {
    var filePath := LocalSettingsPath(fmt, c.path);
    if !FileExists(fs, filePath) then Outcome(c, None)
    else
      match ReadConfigFile(fs, filePath)
      case Failure(e) => Outcome(c, Some(e))
      case Success(entry) =>
        match entry.asSettings
        case Unparsable(reason) => Outcome(c, Some(ParseFailed(filePath, reason)))
        case Parsed(n) => Outcome(c.(settings := Overwritten(c.settings, Some(n))), None)
  }

  /**
   * `CreateConfig`: the configuration file, then the local settings file,
   * then the command-line settings; the first error ends the load.
   */
  function CreateConfig(fmt: Format, fs: Docs, valid: seq<string>, path: string, cli: Option<NullableAppSettings>, d: Depth): (r: Loaded)
    ensures r.config.path == path && r.config.hooks.Keys == HookNames(valid)
    ensures Setup(fmt, fs, valid, path, d).err.Some? ==> r == Setup(fmt, fs, valid, path, d)
    ensures r.err.None? ==> r.depth.level == d.level
  {
    var s := Setup(fmt, fs, valid, path, d);
    if s.err.Some? then s
    else
      var l := LoadSettingsFile(fmt, fs, s.config);
      if l.err.Some? then Loaded(l.config, l.err, s.depth)
      else Loaded(l.config.(settings := Overwritten(l.config.settings, cli)), None, s.depth)
  }

  /**
   * Settings precedence: the defaults, overridden by the configuration
   * file, then by the local settings file, then by the command line.
   */
  lemma SettingsPrecedence(fmt: Format, fs: Docs, valid: seq<string>, path: string, cli: Option<NullableAppSettings>, d: Depth)
    ensures var r := CreateConfig(fmt, fs, valid, path, cli, d);
      r.err.None? ==>
        r.config.settings == Overwritten(Overwritten(Overwritten(NewDefaultAppSettings(), MainOverrides(fmt, fs, path)), LocalOverrides(fmt, fs, path)), cli)
  {
    var s := Setup(fmt, fs, valid, path, d);
    if s.err.None? && !FileExists(fs, path) {
      assert MainOverrides(fmt, fs, path) == None;
    }
  }

  /** The overrides an optional record stands for: none at all when it is absent. */
  function OrNone(n: Option<NullableAppSettings>): NullableAppSettings {
    n.GetOr(NewNullableAppSettings())
  }

  lemma OverwrittenOrNone(s: AppSettings, n: Option<NullableAppSettings>)
    ensures Overwritten(s, n) == Overwritten(s, Some(OrNone(n)))
  {
  }

  /** For every setting, the last source that gives a value wins: command line over local file over configuration file. */
  lemma LastValueWins(fmt: Format, fs: Docs, valid: seq<string>, path: string, cli: Option<NullableAppSettings>, d: Depth)
    ensures var r := CreateConfig(fmt, fs, valid, path, cli, d);
      r.err.None? ==>
        r.config.settings == Overwritten(NewDefaultAppSettings(), Some(Layer(Layer(OrNone(MainOverrides(fmt, fs, path)), OrNone(LocalOverrides(fmt, fs, path))), OrNone(cli))))
  {
    SettingsPrecedence(fmt, fs, valid, path, cli, d);
    var main := MainOverrides(fmt, fs, path);
    var local := LocalOverrides(fmt, fs, path);
    var base := NewDefaultAppSettings();
    OverwrittenOrNone(base, main);
    OverwrittenOrNone(Overwritten(base, main), local);
    OverwrittenOrNone(Overwritten(Overwritten(base, main), local), cli);
    OverwriteTwice(base, OrNone(main), OrNone(local));
    OverwriteTwice(base, Layer(OrNone(main), OrNone(local)), OrNone(cli));
  }

  /**
   * A document without a `hooks` section ends in "no hooks config found",
   * after its settings have been applied.
   */
  lemma NoHooksAfterSettings(fmt: Format, fs: Docs, valid: seq<string>, c: ConfigState, d: Depth)
    requires c.hooks.Keys == HookNames(valid)
    requires MainDoc(fmt, fs, c.path).Some?
    requires MainDoc(fmt, fs, c.path).value.settings.Some? && MainDoc(fmt, fs, c.path).value.hooks.None?
    ensures LoadFromFile(fmt, fs, valid, c, d).err == Some(NoHooks)
    ensures LoadFromFile(fmt, fs, valid, c, d).config.settings == Overwritten(c.settings, MainOverrides(fmt, fs, c.path))
  {
  }

  /** At or above the depth bound the include pass loads nothing and changes nothing. */
  lemma IncludeStopsAtBound(fmt: Format, fs: Docs, valid: seq<string>, c: ConfigState, d: Depth)
    requires c.hooks.Keys == HookNames(valid)
    requires DetectMaxIncludeLevel(c, d).max <= d.level
    ensures AppendIncluded(fmt, fs, valid, c, d) == Loaded(c, None, DetectMaxIncludeLevel(c, d))
  {
  }

  /** With an empty include list the include pass changes no hook and restores the level. */
  lemma EmptyIncludesChangeNothing(fmt: Format, fs: Docs, valid: seq<string>, c: ConfigState, d: Depth)
    requires c.hooks.Keys == HookNames(valid)
    requires c.settings.includes == []
    ensures AppendIncluded(fmt, fs, valid, c, d).config == c
    ensures AppendIncluded(fmt, fs, valid, c, d).err.None?
    ensures AppendIncluded(fmt, fs, valid, c, d).depth.level == d.level
  {
    var d1 := DetectMaxIncludeLevel(c, d);
    if d1.level < d1.max {
      var inner := Depth(d1.level + 1, d1.max);
      assert LoadIncluded(fmt, fs, valid, [], DirOf(c.path), inner) == LoadedList([], None, inner);
      assert LoadAndMerge(fmt, fs, valid, c, inner) == Loaded(c.(hooks := MergeAll(c.hooks, [], valid)), None, inner);
    }
  }

  /**
   * Because settings never take `Includes` from a document, the include
   * pass never loads a file: a loaded configuration's hooks are exactly the
   * seeded hooks after the root-hooks pass of its own document.
   */
  lemma NoIncludeIsLoaded(fmt: Format, fs: Docs, valid: seq<string>, path: string, d: Depth)
    requires FileExists(fs, path)
    ensures var r := Setup(fmt, fs, valid, path, d);
      r.err.None? ==>
        MainDoc(fmt, fs, path).Some? && MainDoc(fmt, fs, path).value.hooks.Some? &&
        r.config.hooks == ApplyRootHooks(SeedHooks(valid), MainDoc(fmt, fs, path).value.hooks.value).hooks
  {
    var c := NewConfigState(path, true, valid);
    var r := Setup(fmt, fs, valid, path, d);
    if r.err.None? {
      assert r == LoadFromFile(fmt, fs, valid, c, d);
      assert MainDoc(fmt, fs, path).Some?;
      var doc := MainDoc(fmt, fs, path).value;
      assert doc.settings.Some? && doc.hooks.Some?;
      var c1 := c.(settings := Overwritten(c.settings, doc.settings));
      assert r == LoadHooks(fmt, fs, valid, c1, doc.hooks.value, d);
      EmptyIncludesChangeNothing(fmt, fs, valid, c1, d);
    }
  }

  /** A configuration path that does not exist gives the seeded hooks and the defaults with the local and command-line overrides. */
  lemma MissingFileGivesDefaults(fmt: Format, fs: Docs, valid: seq<string>, path: string, cli: Option<NullableAppSettings>, d: Depth)
    requires !FileExists(fs, path)
    ensures var r := CreateConfig(fmt, fs, valid, path, cli, d);
      r.config.hooks == SeedHooks(valid) && (r.err.None? ==>
        r.config.settings == Overwritten(Overwritten(NewDefaultAppSettings(), LocalOverrides(fmt, fs, path)), cli))
  {
  }
}
