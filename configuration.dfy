/**
 * The configuration object (configuration/configuration.go): a source path,
 * whether it was loaded from an existing file, the global settings and one
 * hook per valid hook name, plus the verbosity name/level maps.
 */
module Configurations {
  import opened Wrappers
  import opened Settings
  import opened Hooks

  /**
   * The verbosity levels of the io package. Their Go values are not part of
   * this model; the io package compares them as ordered levels, so they are
   * taken to be four distinct, increasing integers.
   */
  const QUIET: int := 0
  const NORMAL: int := 1
  const VERBOSE: int := 2
  const DEBUG: int := 3

  /** `MapVerbosity`: a verbosity name to its level; an unknown name means NORMAL. */
  function MapVerbosity(verbosity: string): (level: int)
    ensures verbosity == "quiet" ==> level == QUIET
    ensures verbosity == "normal" ==> level == NORMAL
    ensures verbosity == "verbose" ==> level == VERBOSE
    ensures verbosity == "debug" ==> level == DEBUG
    ensures verbosity !in {"quiet", "normal", "verbose", "debug"} ==> level == NORMAL
  {
    var verbosityMap := map["quiet" := QUIET, "normal" := NORMAL, "verbose" := VERBOSE, "debug" := DEBUG];
    if verbosity in verbosityMap then verbosityMap[verbosity] else NORMAL
  }

  /** `UnMapVerbosity`: a level to its verbosity name; an unknown level means "normal". */
  function UnMapVerbosity(verbosity: int): (name: string)
    ensures name in {"quiet", "normal", "verbose", "debug"}
    ensures verbosity !in {QUIET, NORMAL, VERBOSE, DEBUG} ==> name == "normal"
  {
    var verbosityMap := map[QUIET := "quiet", NORMAL := "normal", VERBOSE := "verbose", DEBUG := "debug"];
    if verbosity in verbosityMap then verbosityMap[verbosity] else "normal"
  }

  /** `UnMapVerbosity` inverts `MapVerbosity` on the four names, and the reverse on the four levels. */
  lemma VerbosityRoundTrip(name: string, level: int)
    ensures name in {"quiet", "normal", "verbose", "debug"} ==> UnMapVerbosity(MapVerbosity(name)) == name
    ensures level in {QUIET, NORMAL, VERBOSE, DEBUG} ==> MapVerbosity(UnMapVerbosity(level)) == level
  {
  }

  /** The valid hook names as a set. */
  function HookNames(validHooks: seq<string>): set<string> {
    set h | h in validHooks
  }

  /** The hooks of a fresh configuration: one disabled hook without actions per valid name. */
  function SeedHooks(validHooks: seq<string>): (hooks: map<string, HookState>)
    ensures hooks.Keys == HookNames(validHooks)
    ensures forall h :: h in hooks ==> hooks[h] == HookState(false, [])
  {
    map h | h in validHooks :: HookState(false, [])
  }

  /** The observable state of a configuration. */
  datatype ConfigState = ConfigState(
    path: string,
    fileExists: bool,
    settings: AppSettings,
    hooks: map<string, HookState>)

  /** What `NewConfiguration(path, fileExists)` builds. */
  function NewConfigState(path: string, fileExists: bool, validHooks: seq<string>): ConfigState {
    ConfigState(path, fileExists, NewDefaultAppSettings(), SeedHooks(validHooks))
  }

  /**
   * The settings after `overwriteSettings(n)`: every present field of `n`
   * replaces the setting, except `Includes` and `IncludeLevel`, which are
   * never copied; nil changes nothing.
   */
  function Overwritten(s: AppSettings, n: Option<NullableAppSettings>): (r: AppSettings)
    ensures r.includes == s.includes && r.includeLevel == s.includeLevel
    ensures n.None? ==> r == s
  {
    match n
    case None => s
    case Some(o) =>
      s.(
        allowFailure := o.allowFailure.GetOr(s.allowFailure),
        ansiColors := o.ansiColors.GetOr(s.ansiColors),
        custom := o.custom.GetOr(s.custom),
        failOnFirstError := o.failOnFirstError.GetOr(s.failOnFirstError),
        gitDirectory := o.gitDirectory.GetOr(s.gitDirectory),
        runPath := o.runPath.GetOr(s.runPath),
        runAsync := o.runAsync.GetOr(s.runAsync),
        verbosity := o.verbosity.GetOr(s.verbosity))
  }

  /** Applying the same overrides twice is the same as applying them once. */
  lemma OverwriteIdempotent(s: AppSettings, n: Option<NullableAppSettings>)
    ensures Overwritten(Overwritten(s, n), n) == Overwritten(s, n)
  {
  }

  /**
   * The overrides `upper` layered over `lower`: a field present in `upper`
   * wins, otherwise the field of `lower` is kept.
   */
  function Layer(lower: NullableAppSettings, upper: NullableAppSettings): NullableAppSettings {
    NullableAppSettings(
      if upper.allowFailure.Some? then upper.allowFailure else lower.allowFailure,
      if upper.ansiColors.Some? then upper.ansiColors else lower.ansiColors,
      if upper.custom.Some? then upper.custom else lower.custom,
      if upper.failOnFirstError.Some? then upper.failOnFirstError else lower.failOnFirstError,
      if upper.gitDirectory.Some? then upper.gitDirectory else lower.gitDirectory,
      if upper.includes.Some? then upper.includes else lower.includes,
      if upper.includeLevel.Some? then upper.includeLevel else lower.includeLevel,
      if upper.runPath.Some? then upper.runPath else lower.runPath,
      if upper.runAsync.Some? then upper.runAsync else lower.runAsync,
      if upper.verbosity.Some? then upper.verbosity else lower.verbosity)
  }

  /** Two successive overwrites are one overwrite with the later overrides layered on top. */
  lemma OverwriteTwice(s: AppSettings, lower: NullableAppSettings, upper: NullableAppSettings)
    ensures Overwritten(Overwritten(s, Some(lower)), Some(upper))
         == Overwritten(s, Some(Layer(lower, upper)))
  {
  }

  /** All keys of `hooks` map to different hook objects. */
  ghost predicate HooksDistinct(hooks: map<string, Hook>) {
    forall h, k :: h in hooks && k in hooks && h != k ==> hooks[h] != hooks[k]
  }

  /** `Configuration`: its settings and its hooks are updated in place by the loaders. */
  class Configuration {
    const path: string
    const fileExists: bool
    /** The valid hook names, `info.GetValidHooks()` in the source. */
    const validHooks: seq<string>
    var settings: AppSettings
    var hooks: map<string, Hook>

    ghost predicate Valid()
      reads this
    {
      hooks.Keys == HookNames(validHooks) && HooksDistinct(hooks)
    }

    /** `NewConfiguration(path, fileExists)`: default settings and one disabled hook per valid name. */
    constructor (path: string, fileExists: bool, validHooks: seq<string>)
      ensures Valid() && fresh(hooks.Values)
      ensures this.validHooks == validHooks
      ensures State() == NewConfigState(path, fileExists, validHooks)
    {
      this.path := path;
      this.fileExists := fileExists;
      this.validHooks := validHooks;
      settings := NewDefaultAppSettings();
      hooks := map[];
      new;
      Init();
    }

    /** `init`: seeds one disabled hook without actions for every valid hook name. */
    method Init()
      modifies this`hooks
      ensures Valid() && fresh(hooks.Values)
      ensures HookStates() == SeedHooks(validHooks)
    {
      hooks := map[];
      var i := 0;
      while i < |validHooks|
        invariant 0 <= i <= |validHooks|
        invariant hooks.Keys == HookNames(validHooks[..i])
        invariant forall h :: h in hooks ==> fresh(hooks[h]) && hooks[h].State() == HookState(false, [])
        invariant HooksDistinct(hooks)
      {
        var hook := new Hook(validHooks[i], false);
        hooks := hooks[validHooks[i] := hook];
        i := i + 1;
      }
      assert validHooks[..i] == validHooks;
    }

    /** The hook states, keyed by hook name. */
    function HookStates(): map<string, HookState>
      reads this, hooks.Values
    {
      map h | h in hooks :: hooks[h].State()
    }

    function State(): ConfigState
      reads this, hooks.Values
    {
      ConfigState(path, fileExists, settings, HookStates())
    }

    /** `IsLoadedFromFile`: whether the configuration file existed when the configuration was created. */
    function IsLoadedFromFile(): (loaded: bool)
      reads this
      ensures loaded == fileExists
    {
      fileExists
    }

    /** `HookConfig`: the hook object for a name, nil for a name outside the valid set. */
    function HookConfig(hook: string): (h: Hook?)
      reads this
      ensures hook in hooks <==> h != null
      ensures hook in hooks ==> h == hooks[hook]
    {
      if hook in hooks then hooks[hook] else null
    }

    /**
     * `IsHookEnabled`: the enabled flag of the hook's object. The source
     * dereferences the hook without a nil check, so the name must be valid.
     */
    function IsHookEnabled(hook: string): (enabled: bool)
      requires hook in hooks
      reads this, hooks.Values
      ensures enabled == HookStates()[hook].enabled
    {
      HookConfig(hook).IsEnabled()
    }

    /** `Path`: the path the configuration was created for. */
    function Path(): (p: string)
      reads this
      ensures p == path
    {
      path
    }

    /** `RunPath`: the effective run-path setting. */
    function RunPath(): (runPath: string)
      reads this
      ensures runPath == settings.runPath
    {
      settings.runPath
    }

    /** `CustomSettings`: the effective custom settings. */
    function CustomSettings(): (custom: map<string, string>)
      reads this
      ensures custom == settings.custom
    {
      settings.custom
    }

    /** `GitDirectory`: the configured directory, or ".git" when the setting is empty. */
    function GitDirectory(): (gitDir: string)
      reads this
      ensures |gitDir| > 0
      ensures settings.gitDirectory != "" ==> gitDir == settings.gitDirectory
      ensures settings.gitDirectory == "" ==> gitDir == ".git"
    {
      var gitDir := settings.gitDirectory;
      if |gitDir| < 1 then ".git" else gitDir
    }

    /** `AnsiColors`: the effective ansi-colors setting. */
    function AnsiColors(): (colors: bool)
      reads this
      ensures colors == settings.ansiColors
    {
      settings.ansiColors
    }

    /** `Verbosity`: the level of the verbosity setting, NORMAL for an unknown name. */
    function Verbosity(): (level: int)
      reads this
      ensures QUIET <= level <= DEBUG
      ensures settings.verbosity in {"quiet", "normal", "verbose", "debug"} ==> UnMapVerbosity(level) == settings.verbosity
      ensures settings.verbosity !in {"quiet", "normal", "verbose", "debug"} ==> level == NORMAL
    {
      VerbosityRoundTrip(settings.verbosity, QUIET);
      MapVerbosity(settings.verbosity)
    }

    /** `IsFailureAllowed`: the effective allow-failure setting. */
    function IsFailureAllowed(): (allowed: bool)
      reads this
      ensures allowed == settings.allowFailure
    {
      settings.allowFailure
    }

    /** `FailOnFirstError`: the effective fail-on-first-error setting. */
    function FailOnFirstError(): (fail: bool)
      reads this
      ensures fail == settings.failOnFirstError
    {
      settings.failOnFirstError
    }

    /** `RunAsync`: the effective run-async setting. */
    function RunAsync(): (async: bool)
      reads this
      ensures async == settings.runAsync
    {
      settings.runAsync
    }

    /** `Includes`: the include list of the settings; only the file loaded directly sets it. */
    function Includes(): (includes: seq<string>)
      reads this
      ensures includes == settings.includes
    {
      settings.includes
    }

    /** `MaxIncludeLevel`: the include-level setting, the bound on include depth. */
    function MaxIncludeLevel(): (level: int)
      reads this
      ensures level == settings.includeLevel
    {
      settings.includeLevel
    }

    /**
     * `overwriteSettings`: every field present in `n` overwrites the setting,
     * field by field; `Includes` and `IncludeLevel` are never copied.
     */
    method OverwriteSettings(n: Option<NullableAppSettings>)
      modifies this`settings
      ensures settings == Overwritten(old(settings), n)
      ensures n.None? ==> settings == old(settings)
      ensures settings.includes == old(settings.includes)
      ensures settings.includeLevel == old(settings.includeLevel)
      ensures HookStates() == old(HookStates())
    {
      if n.None? {
        return;
      }
      var o := n.value;
      var allowFailure, ansiColors, custom := settings.allowFailure, settings.ansiColors, settings.custom;
      var failOnFirstError, gitDirectory, runPath := settings.failOnFirstError, settings.gitDirectory, settings.runPath;
      var runAsync, verbosity := settings.runAsync, settings.verbosity;
      if o.allowFailure.Some? {
        allowFailure := o.allowFailure.value;
      }
      assert allowFailure == o.allowFailure.GetOr(settings.allowFailure);
      if o.ansiColors.Some? {
        ansiColors := o.ansiColors.value;
      }
      assert ansiColors == o.ansiColors.GetOr(settings.ansiColors);
      if o.custom.Some? {
        custom := o.custom.value;
      }
      assert custom == o.custom.GetOr(settings.custom);
      if o.failOnFirstError.Some? {
        failOnFirstError := o.failOnFirstError.value;
      }
      assert failOnFirstError == o.failOnFirstError.GetOr(settings.failOnFirstError);
      if o.gitDirectory.Some? {
        gitDirectory := o.gitDirectory.value;
      }
      assert gitDirectory == o.gitDirectory.GetOr(settings.gitDirectory);
      if o.runPath.Some? {
        runPath := o.runPath.value;
      }
      assert runPath == o.runPath.GetOr(settings.runPath);
      if o.runAsync.Some? {
        runAsync := o.runAsync.value;
      }
      assert runAsync == o.runAsync.GetOr(settings.runAsync);
      if o.verbosity.Some? {
        verbosity := o.verbosity.value;
      }
      assert verbosity == o.verbosity.GetOr(settings.verbosity);
      settings := settings.(
        allowFailure := allowFailure, ansiColors := ansiColors, custom := custom,
        failOnFirstError := failOnFirstError, gitDirectory := gitDirectory, runPath := runPath,
        runAsync := runAsync, verbosity := verbosity);
    }
  }

  /**
   * Every configuration of the list is a valid one over `validHooks`, has
   * the state given for it, and shares no hook object with `others`.
   */
  ghost predicate LoadedAs(configs: seq<Configuration>, states: seq<ConfigState>, validHooks: seq<string>, others: set<Hook>)
    reads set i | 0 <= i < |configs| :: configs[i]
    reads set i, o | 0 <= i < |configs| && o in configs[i].hooks.Values :: o
  {
    |configs| == |states| &&
    forall i :: 0 <= i < |configs| ==>
      configs[i].Valid() && configs[i].validHooks == validHooks && configs[i].State() == states[i] && configs[i].hooks.Values !! others
  }

  /** One more configuration, valid and with its own hooks, extends the list. */
  lemma LoadedAsSnoc(configs: seq<Configuration>, states: seq<ConfigState>, validHooks: seq<string>, others: set<Hook>, c: Configuration, s: ConfigState)
    requires LoadedAs(configs, states, validHooks, others)
    requires c.Valid() && c.validHooks == validHooks && c.State() == s && c.hooks.Values !! others
    ensures LoadedAs(configs + [c], states + [s], validHooks, others)
  {
  }
}
