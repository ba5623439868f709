/**
 * Application and action settings (configuration/settings.go): the global
 * policy record with its defaults, the per-action settings with theirs, and
 * the all-optional settings record that command-line flags and configuration
 * documents use to override the defaults.
 */
module Settings {
  import opened Wrappers

  /** `AppSettings`: the global policy of a configuration. */
  datatype AppSettings = AppSettings(
    allowFailure: bool,
    ansiColors: bool,
    custom: map<string, string>,
    failOnFirstError: bool,
    gitDirectory: string,
    includes: seq<string>,
    includeLevel: int,
    runPath: string,
    runAsync: bool,
    verbosity: string)

  /** `NewDefaultAppSettings`; `RunPath` is left at Go's zero value "". */
  function NewDefaultAppSettings(): (s: AppSettings)
    ensures !s.allowFailure && s.ansiColors && s.failOnFirstError && !s.runAsync
    ensures s.gitDirectory == ".git" && s.verbosity == "normal" && s.runPath == ""
    ensures s.includeLevel == 1 && s.includes == [] && s.custom == map[]
  {
    AppSettings(
      allowFailure := false,
      ansiColors := true,
      custom := map[],
      failOnFirstError := true,
      gitDirectory := ".git",
      includes := [],
      includeLevel := 1,
      runPath := "",
      runAsync := false,
      verbosity := "normal")
  }

  /** `ActionSettings`: the settings of one action. */
  datatype ActionSettings = ActionSettings(allowFailure: bool, workingDir: string, labelText: string)

  /** `NewDefaultActionSettings`. */
  function NewDefaultActionSettings(): (a: ActionSettings)
    ensures !a.allowFailure && a.workingDir == "" && a.labelText == ""
  {
    ActionSettings(allowFailure := false, workingDir := "", labelText := "")
  }

  /** `NullableAppSettings`: every field may be absent (nil in the source). */
  datatype NullableAppSettings = NullableAppSettings(
    allowFailure: Option<bool>,
    ansiColors: Option<bool>,
    custom: Option<map<string, string>>,
    failOnFirstError: Option<bool>,
    gitDirectory: Option<string>,
    includes: Option<seq<string>>,
    includeLevel: Option<int>,
    runPath: Option<string>,
    runAsync: Option<bool>,
    verbosity: Option<string>)

  /** `NewNullableAppSettings`: a record with every field absent. */
  function NewNullableAppSettings(): (n: NullableAppSettings)
    ensures n.allowFailure.None? && n.ansiColors.None? && n.custom.None?
    ensures n.failOnFirstError.None? && n.gitDirectory.None? && n.includes.None?
    ensures n.includeLevel.None? && n.runPath.None? && n.runAsync.None? && n.verbosity.None?
  {
    NullableAppSettings(None, None, None, None, None, None, None, None, None, None)
  }
}
