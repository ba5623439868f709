# captainhook: configuration loading and action execution, modelled in Dafny

This project models two parts of the captainhook git-hook runner.

The first is the configuration loader. It covers:

- the settings records and their defaults;
- the `Configuration` object, with one hook per valid hook name;
- the JSON and YAML document converters;
- the two factories. Each factory reads a configuration file, layers the local `captainhook.config.*` file and the command-line settings over it, resolves includes under a depth counter, and enables and fills the hooks the file names.

The second is the action engine: the string tests that recognise built-in actions, and `ActionRunner.Run`. `Run` announces an action, checks its conditions as a short-circuit AND, runs the action, reports the outcome on two error channels and logs one entry.

Modules, one per source file:

- `Settings`, `Conditions`, `Configurations`, `Factory`, `Json`, `Yaml`, `JsonFactories`, `YamlFactories`, `ExecHelper` and `ExecAction` follow the source file of the same name.
- `Hooks` gives the `Hook` object and the `Action` record the behaviour the loader relies on; their Go definitions are not part of this model.
- `Strings` holds the subset of Go's `strings` package that is used.
- `Wrappers` holds `Option` and `Result`.

How the source's form is kept:

- Objects whose fields the source updates in place are classes: `Configuration`, `Hook`, the two factories with their include-level counters, the event dispatcher, the action log, the condition runner and the action runner.
- The converters and string helpers are functions.
- Each factory method is proved to compute a value-level function of module `Loading`. That function describes loading once for both formats, and the loading properties are proved about it.
- `ActionRunner` is likewise proved against `ExecAction.RunSpec`. The lemmas `StartFailureStops`, `ConditionFailureSkips`, `FailureOnTwoChannels`, `SuccessLoggedAsSkipped` and `OneLogEntry` state the source's promises one branch at a time. They follow directly from the definition of `RunSpec` and need no proof steps of their own. The proof work is in `RunSpec`'s partners: `ConditionsShortCircuit`, `FirstFailing` and the loop in `DoConditionsApply`.

The model follows the code, including where it departs from the project's own documentation or looks unintended:

- `overwriteSettings` never copies `Includes` or `IncludeLevel`. So no configuration ever has an include list, and the include pass never loads a file (`Loading.NoIncludeIsLoaded`). The include machinery is still modelled in full, with the include list and the depth as inputs.
- The project documentation describes a further dotted form of the internal-action prefix. The code only recognises `::`, and so does the model.
- The action runner tests for `CaptainHook::` case-sensitively, while `isInternalFunctionality` ignores case.
- A successful action is logged with the status `ACTION_SKIPPED`.
- Only the top-level conditions of an action are validated.

Foreign code is represented by oracles:

- the file system is a map from path to an entry, with regular files already decoded;
- the event bus, the exec package's condition runner, the built-in action registry and process spawning are functions given to the model.

## Model

| member | source | states |
|---|---|---|
| Settings.NewDefaultAppSettings | configuration/settings.go:16-28 | Failures not allowed, colours on, stop at the first error, not async; git directory ".git", verbosity "normal", include level 1, no includes, no custom settings, empty run path |
| Settings.NewDefaultActionSettings | configuration/settings.go:36-42 | An action by default does not allow failure and has an empty working directory and label |
| Settings.NewNullableAppSettings | configuration/settings.go:58-60 | Every override is absent |
| Conditions.NewOptions | configuration/json.go:104 | The options hold exactly the given map; the definition of `NewOptions` is not part of this model, and the contract is what its call sites in json.go and yaml.go rely on |
| Conditions.NewCondition | configuration/condition.go:9-23 | The accessors return the run string, options and nested list given, unvalidated (an empty run is accepted), with the same length and order |
| Configurations.MapVerbosity | configuration/configuration.go:121-133 | quiet/normal/verbose/debug map to QUIET/NORMAL/VERBOSE/DEBUG; any other name maps to NORMAL |
| Configurations.UnMapVerbosity | configuration/configuration.go:135-147 | The result is always one of the four names; an unknown level gives "normal" |
| Configurations.VerbosityRoundTrip | configuration/configuration.go:121-147 | UnMapVerbosity inverts MapVerbosity on the four names, and MapVerbosity inverts UnMapVerbosity on the four levels |
| Configurations.SeedHooks | configuration/configuration.go:22-27 | Exactly one hook per valid name, each disabled and without actions |
| Configurations.Overwritten | configuration/configuration.go:90-119 | Includes and include level are never changed; no overrides change nothing |
| Configurations.OverwriteIdempotent | configuration/configuration.go:90-119 | Applying the same overrides twice equals applying them once |
| Configurations.OverwriteTwice | configuration/configuration.go:90-119 | Two successive overwrites equal one with the later overrides layered over the earlier ones |
| Configurations.Configuration.constructor | configuration/configuration.go:16-20 | Records path and file existence, default settings, one fresh disabled hook per valid name |
| Configurations.Configuration.Init | configuration/configuration.go:22-27 | The loop leaves one fresh, distinct, disabled, empty hook under each valid name and no other key |
| Configurations.Configuration.HookConfig | configuration/configuration.go:85-87 | The map's hook object for a valid name, and nil exactly for the names not in the map |
| Configurations.Configuration.IsHookEnabled | configuration/configuration.go:33-35 | The enabled flag of the named hook; the name must be valid, since the source does not check for nil |
| Configurations.Configuration.IsLoadedFromFile | configuration/configuration.go:29-31 | Whether the configuration file existed when the configuration was created |
| Configurations.Configuration.Path | configuration/configuration.go:37-39 | The path the configuration was created for |
| Configurations.Configuration.RunPath | configuration/configuration.go:41-43 | The run-path setting in effect |
| Configurations.Configuration.CustomSettings | configuration/configuration.go:45-47 | The custom settings in effect |
| Configurations.Configuration.AnsiColors | configuration/configuration.go:57-59 | The ansi-colors setting in effect |
| Configurations.Configuration.Verbosity | configuration/configuration.go:61-63 | A level between QUIET and DEBUG; for a known name it is the level that maps back to that name, otherwise NORMAL |
| Configurations.Configuration.IsFailureAllowed | configuration/configuration.go:65-67 | The allow-failure setting in effect |
| Configurations.Configuration.FailOnFirstError | configuration/configuration.go:69-71 | The fail-on-first-error setting in effect |
| Configurations.Configuration.RunAsync | configuration/configuration.go:73-75 | The run-async setting in effect |
| Configurations.Configuration.Includes | configuration/configuration.go:77-79 | The include list of the settings |
| Configurations.Configuration.MaxIncludeLevel | configuration/configuration.go:81-83 | The include-level setting, the bound on include depth |
| Configurations.Configuration.GitDirectory | configuration/configuration.go:49-55 | ".git" when the setting is empty, otherwise the setting; never empty |
| Configurations.Configuration.OverwriteSettings | configuration/configuration.go:90-119 | Every present override replaces its field, an absent one keeps it, nil changes nothing; includes, include level and hooks are unchanged |
| Configurations.LoadedAsSnoc | configuration/jsonfactory.go:158-169 | A valid configuration with its own hook objects extends a list of loaded configurations |
| Factory.ReadConfigFile | configuration/factory.go:13-26 | Content exactly for a regular file; a missing path, a directory and an unreadable file each give their own error |
| Factory.LastSlash | configuration/jsonfactory.go:76 | The index of the last '/', or none when the path has no '/' |
| Factory.DirOf | configuration/jsonfactory.go:76 | "." without a slash, "/" when the only slash is the first character, otherwise the text before the last slash |
| Factory.CopyActionsFromTo | configuration/factory.go:28-32 | `to` ends with its old actions followed by `from`'s in order; its flag and `from`'s actions are unchanged |
| Json.OptionsFromJson | configuration/json.go:98-105 | The given map as it is, or an empty map when absent |
| Json.ActionSettingsFromJson | configuration/json.go:54-69 | Absent settings give the defaults; each present field overwrites its default, an absent one keeps it; run-async is dropped |
| Json.ConditionsFromJson | configuration/json.go:71-80 | Same length, each condition converted in order; an absent list gives an empty one |
| Json.ConditionFromJson | configuration/json.go:82-96 | Run kept, options default to empty, and the nested conditions are exactly ConditionsFromJson of the nested documents |
| Json.ActionFromJson | configuration/json.go:45-52 | Run copied, settings and options converted, conditions converted in order |
| Json.NullableFromJson | configuration/json.go:107-120 | All ten fields copied unchanged, absent ones included |
| Json.ConditionRoundTrip | configuration/json.go:82-96 | Reading back a written condition tree gives the same tree |
| Json.ConditionsRoundTrip | configuration/json.go:71-80 | Reading back a written condition list gives the same list |
| Yaml.OptionsFromYaml | configuration/yaml.go:97-104 | The given map as it is, or an empty map when absent |
| Yaml.ActionSettingsFromYaml | configuration/yaml.go:53-68 | Absent settings give the defaults; each present field overwrites its default; run-async is dropped |
| Yaml.ConditionsFromYaml | configuration/yaml.go:70-79 | Same length, each condition converted in order |
| Yaml.ConditionFromYaml | configuration/yaml.go:81-95 | Run kept, options default to empty (through the JSON options converter), and the nested conditions are exactly ConditionsFromYaml of the nested documents |
| Yaml.ActionFromYaml | configuration/yaml.go:44-51 | Run copied, settings and options converted, conditions converted in order |
| Yaml.NullableFromYaml | configuration/yaml.go:106-119 | All ten fields copied unchanged |
| Yaml.ConditionParity | configuration/yaml.go:81-95 | The YAML and the JSON converter build the same Condition tree from the same logical tree |
| Yaml.ConditionsParity | configuration/yaml.go:70-79 | The same for condition lists |
| Yaml.SettingsParity | configuration/yaml.go:106-119 | Both formats give the same overrides for the same settings block, despite their different field order |
| Loading.DetectMaxIncludeLevel | configuration/jsonfactory.go:151-156 | The bound is read from the configuration only at level 0; the level is unchanged |
| Loading.FirstInvalid | configuration/jsonfactory.go:65-68 | The first action rejected by validation, every earlier one accepted |
| Loading.AddActions | configuration/jsonfactory.go:65-70 | Fails with "invalid action config in <hook>" exactly when some action is invalid; keeps the flag |
| Loading.AddActionsFails | configuration/jsonfactory.go:65-68 | Appending a hook's actions fails exactly when one of them is invalid |
| Loading.AddActionsAppends | configuration/jsonfactory.go:65-70 | The actions before the first invalid one are appended in order and stay in place |
| Loading.ApplyRootHooks | configuration/jsonfactory.go:62-71 | Keeps the hook names; a failure is an invalid action or a panic on a name without a hook |
| Loading.RootHooksStayEnabled | configuration/jsonfactory.go:62-64 | The root-hooks pass disables no hook |
| Loading.RootHooksEnabled | configuration/jsonfactory.go:62-64 | On success every hook the document names is enabled |
| Loading.RootHooksKeepActions | configuration/jsonfactory.go:57-71 | Actions merged from includes stay ahead of those the root document appends |
| Loading.RootHooksFail | configuration/jsonfactory.go:62-71 | The pass fails exactly when a named hook is invalid or an action is invalid |
| Loading.MergeHooks | configuration/jsonfactory.go:113-125 | Keeps the hook names of the target |
| Loading.MergeHooksClosedForm | configuration/jsonfactory.go:113-125 | Every valid hook of the target is enabled and gets the source's actions appended once; other hooks are unchanged |
| Loading.MergeAll | configuration/jsonfactory.go:105-107 | Merging the included configurations keeps the hook names |
| Loading.MergeAllClosedForm | configuration/jsonfactory.go:105-107 | After merging, a valid hook is enabled and holds its own actions followed by the included ones in include-list order; nothing changes with no includes |
| Loading.MergeAllSnoc | configuration/jsonfactory.go:105-107 | Merging one more configuration at the end merges it last |
| Loading.Setup | configuration/jsonfactory.go:34-41 | A fresh configuration with one hook per valid name; the level is restored on success; under YAML no parse error is returned |
| Loading.LoadFromFile | configuration/jsonfactory.go:43-73 | On success the file decoded and its settings were applied; includes and include level untouched; level restored on success |
| Loading.LoadHooks | configuration/jsonfactory.go:54-72 | The include pass and root-hooks pass change only hooks, keeping their names |
| Loading.AppendIncluded | configuration/jsonfactory.go:97-111 | The bound is read at level 0; the level is back on success and stays raised after an error; settings untouched |
| Loading.IncludeDeeper | configuration/jsonfactory.go:99-108 | One level deeper; on success the depth is as before, on error the configuration is untouched and the level stays raised |
| Loading.LoadAndMerge | configuration/jsonfactory.go:101-107 | An include error leaves the configuration untouched; otherwise only hooks change |
| Loading.LoadIncluded | configuration/jsonfactory.go:158-170 | On success one seeded configuration per include, with the level unchanged; below the top level the i-th configuration is the one includeConfig loads from the i-th include, relative to the directory, at the unchanged depth |
| Loading.Prepend | configuration/jsonfactory.go:162-167 | Configurations loaded earlier go in front; an error discards them all |
| Loading.PrependTwice | configuration/jsonfactory.go:162-167 | Prepending in two steps equals prepending once |
| Loading.IncludeConfig | configuration/jsonfactory.go:172-177 | A missing file gives "config to include not found: <path>" with the depth unchanged |
| Loading.LoadSettingsFile | configuration/jsonfactory.go:75-95 | Without the local settings file nothing changes; on success its overrides are applied; hooks untouched |
| Loading.CreateConfig | configuration/jsonfactory.go:18-31 | A failed main load is returned as it is, before the local file and command line are applied |
| Loading.SettingsPrecedence | configuration/jsonfactory.go:18-31 | Settings are the defaults overwritten by the file, then the local settings file, then the command line |
| Loading.LastValueWins | configuration/jsonfactory.go:18-31 | For every field the last source that gives a value wins |
| Loading.NoHooksAfterSettings | configuration/jsonfactory.go:52-56 | A document without hooks gives "no hooks config found" after its settings were applied |
| Loading.IncludeStopsAtBound | configuration/jsonfactory.go:97-111 | At or above the bound the include pass changes nothing |
| Loading.EmptyIncludesChangeNothing | configuration/jsonfactory.go:97-111 | With no includes the pass changes no hook and restores the level |
| Loading.NoIncludeIsLoaded | configuration/configuration.go:90-119 | A loaded configuration's hooks are the seeded hooks after its own root-hooks pass: no include is ever merged |
| Loading.MissingFileGivesDefaults | configuration/yamlfactory.go:19-35 | A missing path gives the seeded hooks and the defaults with the local and command-line overrides |
| JsonFactories.AllConditionsRun | configuration/jsonfactory.go:183-187 | Holds exactly when every listed condition has a run string |
| JsonFactories.JsonFactory.IsValidAction | configuration/jsonfactory.go:179-189 | Valid exactly when the run string and every top-level condition's run string are non-empty |
| JsonFactories.JsonFactory.constructor | configuration/jsonfactory.go:191-193 | The include level starts at 0; the local settings file is captainhook.config.json |
| JsonFactories.JsonFactory.CreateConfig | configuration/jsonfactory.go:18-31 | Computes Loading.CreateConfig for JSON |
| JsonFactories.JsonFactory.SetupConfig | configuration/jsonfactory.go:34-41 | Computes Loading.Setup |
| JsonFactories.JsonFactory.LoadFromFile | configuration/jsonfactory.go:43-73 | Computes Loading.LoadFromFile; a document that does not decode gives "unable to parse json: …" |
| JsonFactories.JsonFactory.LoadHooks | configuration/jsonfactory.go:57-72 | Computes Loading.LoadHooks |
| JsonFactories.JsonFactory.AddRootHooks | configuration/jsonfactory.go:62-71 | Computes Loading.ApplyRootHooks on the hook objects |
| JsonFactories.JsonFactory.AddHookActions | configuration/jsonfactory.go:63-70 | Enables the hook and appends its actions, changing no other hook |
| JsonFactories.JsonFactory.AppendActions | configuration/jsonfactory.go:65-70 | Computes Loading.AddActions on the hook object |
| JsonFactories.JsonFactory.LoadSettingsFile | configuration/jsonfactory.go:75-95 | Computes Loading.LoadSettingsFile |
| JsonFactories.JsonFactory.AppendIncludedConfiguration | configuration/jsonfactory.go:97-111 | Computes Loading.AppendIncluded, depth counter included |
| JsonFactories.JsonFactory.IncludeDeeper | configuration/jsonfactory.go:99-108 | Computes Loading.IncludeDeeper |
| JsonFactories.JsonFactory.LoadAndMerge | configuration/jsonfactory.go:101-107 | Computes Loading.LoadAndMerge |
| JsonFactories.JsonFactory.MergeIncluded | configuration/jsonfactory.go:105-107 | The merge loop computes Loading.MergeAll |
| JsonFactories.JsonFactory.MergeNext | configuration/jsonfactory.go:106 | One turn merges the next configuration last |
| JsonFactories.JsonFactory.MergeHookConfigs | configuration/jsonfactory.go:113-125 | Computes Loading.MergeHooks on the hook objects |
| JsonFactories.JsonFactory.MergeHookConfig | configuration/jsonfactory.go:121-123 | Enables one hook and appends the source's actions for it, changing no other hook |
| JsonFactories.JsonFactory.DetectMaxIncludeLevel | configuration/jsonfactory.go:151-156 | Computes Loading.DetectMaxIncludeLevel on the factory's fields |
| JsonFactories.JsonFactory.LoadIncludedConfigs | configuration/jsonfactory.go:158-170 | Computes Loading.LoadIncluded; the loaded configurations own their hooks |
| JsonFactories.JsonFactory.IncludeNext | configuration/jsonfactory.go:162-167 | One include loaded; the result so far is prepended to the rest |
| JsonFactories.JsonFactory.IncludeConfig | configuration/jsonfactory.go:172-177 | No configuration exactly when the file is missing; otherwise computes Loading.IncludeConfig |
| YamlFactories.AllConditionsRun | configuration/yamlfactory.go:181-185 | Holds exactly when every listed condition has a run string |
| YamlFactories.YamlFactory.IsValidAction | configuration/yamlfactory.go:177-187 | Valid exactly when the run string and every top-level condition's run string are non-empty |
| YamlFactories.YamlFactory.constructor | configuration/yamlfactory.go:189-191 | The include level starts at 0; the local settings file is captainhook.config.yaml |
| YamlFactories.YamlFactory.CreateConfig | configuration/yamlfactory.go:19-36 | Computes Loading.CreateConfig for YAML |
| YamlFactories.YamlFactory.SetupConfig | configuration/yamlfactory.go:39-46 | Computes Loading.Setup |
| YamlFactories.YamlFactory.LoadFromFile | configuration/yamlfactory.go:48-78 | Computes Loading.LoadFromFile; a document that does not decode aborts the process |
| YamlFactories.YamlFactory.LoadHooks | configuration/yamlfactory.go:62-77 | Computes Loading.LoadHooks |
| YamlFactories.YamlFactory.AddRootHooks | configuration/yamlfactory.go:67-76 | Computes Loading.ApplyRootHooks on the hook objects |
| YamlFactories.YamlFactory.AddHookActions | configuration/yamlfactory.go:68-75 | Enables the hook and appends its actions, changing no other hook |
| YamlFactories.YamlFactory.AppendActions | configuration/yamlfactory.go:70-75 | Computes Loading.AddActions on the hook object |
| YamlFactories.YamlFactory.LoadSettingsFile | configuration/yamlfactory.go:80-100 | Computes Loading.LoadSettingsFile |
| YamlFactories.YamlFactory.AppendIncludedConfiguration | configuration/yamlfactory.go:102-116 | Computes Loading.AppendIncluded, depth counter included |
| YamlFactories.YamlFactory.IncludeDeeper | configuration/yamlfactory.go:104-113 | Computes Loading.IncludeDeeper |
| YamlFactories.YamlFactory.LoadAndMerge | configuration/yamlfactory.go:106-112 | Computes Loading.LoadAndMerge |
| YamlFactories.YamlFactory.MergeIncluded | configuration/yamlfactory.go:110-112 | The merge loop computes Loading.MergeAll |
| YamlFactories.YamlFactory.MergeNext | configuration/yamlfactory.go:111 | One turn merges the next configuration last |
| YamlFactories.YamlFactory.MergeHookConfigs | configuration/yamlfactory.go:118-130 | Computes Loading.MergeHooks on the hook objects |
| YamlFactories.YamlFactory.MergeHookConfig | configuration/yamlfactory.go:126-128 | Enables one hook and appends the source's actions for it |
| YamlFactories.YamlFactory.DetectMaxIncludeLevel | configuration/yamlfactory.go:149-154 | Computes Loading.DetectMaxIncludeLevel on the factory's fields |
| YamlFactories.YamlFactory.LoadIncludedConfigs | configuration/yamlfactory.go:156-168 | Computes Loading.LoadIncluded |
| YamlFactories.YamlFactory.IncludeNext | configuration/yamlfactory.go:160-166 | One include loaded; the result so far is prepended to the rest |
| YamlFactories.YamlFactory.IncludeConfig | configuration/yamlfactory.go:170-175 | No configuration exactly when the file is missing; otherwise computes Loading.IncludeConfig |
| ExecHelper.IsLogicCondition | exec/helper.go:9-11 | A logic condition exactly when the first 18 characters lower-case to "captainhook::logic" |
| ExecHelper.IsInternalFunctionality | exec/helper.go:14-16 | Internal exactly when the first 13 characters lower-case to "captainhook::" |
| ExecHelper.InternalHasSeparator | exec/helper.go:14-25 | Internal functionality in any letter case has its first "::" at index 11, so splitting it on "::" has a second piece |
| ExecHelper.LogicIsInternal | exec/helper.go:9-16 | Every logic condition is internal functionality |
| ExecHelper.TestsIgnoreCase | exec/helper.go:10-15 | Both tests give the same answer for an action and its lower-cased form |
| ExecHelper.CasedPrefixHasSeparator | exec/helper.go:24-27 | An action starting with the prefix has its first "::" at index 11 |
| ExecHelper.Segment | exec/helper.go:25 | The text after the first "::" up to the next "::", or to the end |
| ExecHelper.SplitInternalPath | exec/helper.go:24-27 | Dot count plus one pieces, none holding a '.', joining back to the segment |
| ExecHelper.NoOccurrence | exec/helper.go:25-26 | Text without the separator's first character does not contain the separator |
| ExecHelper.CasedPrefixIsInternal | exec/helper.go:14-16 | `CaptainHook::…` is internal functionality |
| ExecHelper.SplitOnDot | exec/helper.go:26 | Two dot-free words joined by '.' split back into the two words |
| ExecHelper.SegmentAfterPrefix | exec/helper.go:25 | After `CaptainHook::`, text without ':' is the whole segment |
| ExecHelper.GroupAndName | exec/helper.go:18-27 | `CaptainHook::<group>.<name>` is internal and splits into its group and name |
| ExecHelper.BranchEnsureNaming | exec/helper.go:22-27 | The documented example splits into ["Branch", "EnsureNaming"] |
| ExecAction.Answer | exec/action.go:33-34 | The bus answers with an error exactly for the failing kinds |
| ExecAction.FirstFailing | exec/action.go:107-117 | The first condition that fails with all earlier ones passing; none exactly when all pass |
| ExecAction.CommandOf | exec/action.go:86-88 | Program and arguments join back with spaces to the run string, none holding a space |
| ExecAction.RunInternal | exec/action.go:66-83 | The action holds "::"; a registry failure is returned as the error with no event; an action not applicable to the hook dispatches ActionSkipped and returns that dispatch's error; otherwise the built-in action's own result is returned with no event |
| ExecAction.RunActionSpec | exec/action.go:58-64 | With the case-sensitive prefix the action runs as built-in functionality (RunInternal); without it, as an external command |
| ExecAction.RunSpec | exec/action.go:29-56 | ActionStarted is dispatched first; at most one entry is logged |
| ExecAction.StartFailureStops | exec/action.go:33-36 | A failed start returns only its dispatch error, checks no condition and logs nothing |
| ExecAction.ConditionsShortCircuit | exec/action.go:107-117 | Conditions are checked in order up to the first failure; the action runs exactly when all hold |
| ExecAction.ConditionFailureSkips | exec/action.go:37-42 | A failing condition dispatches ActionSkipped, logs SKIPPED and returns only the dispatch error |
| ExecAction.FailureOnTwoChannels | exec/action.go:44-54 | An execution error dispatches ActionFailed and logs FAILED; both errors come back separately |
| ExecAction.SuccessLoggedAsSkipped | exec/action.go:49-53 | Success dispatches ActionSucceeded but logs ACTION_SKIPPED |
| ExecAction.OneLogEntry | exec/action.go:37-54 | Exactly one entry for the action once the start is dispatched, none otherwise |
| ExecAction.PrefixIsCaseSensitive | exec/action.go:59 | A lower-case `captainhook::` action is internal functionality, yet runs as an external command |
| ExecAction.NotApplicableCountsAsSuccess | exec/action.go:44-83 | A built-in action that does not apply dispatches ActionSkipped, then counts as success with ActionSucceeded |
| ExecAction.NotApplicableDispatchErrorFails | exec/action.go:44-83 | A failed ActionSkipped dispatch there becomes the action's error |
| ExecAction.Dispatcher.Dispatch | exec/action.go:33 | The event is recorded and answered from the oracle |
| ExecAction.ActionLog.Add | exec/action.go:120 | The entry is appended |
| ExecAction.ConditionRunner.Run | exec/action.go:110 | The condition is recorded and answered from the oracle |
| ExecAction.ActionRunner.constructor | exec/action.go:24-27 | Keeps the dispatcher, log and collaborators given |
| ExecAction.ActionRunner.Run | exec/action.go:29-56 | Errors, dispatched events, log entries and checked conditions are those of RunSpec |
| ExecAction.ActionRunner.RunAction | exec/action.go:58-64 | Computes RunActionSpec, dispatched events included |
| ExecAction.ActionRunner.RunInternalAction | exec/action.go:66-83 | Computes RunInternal, dispatched events included |
| ExecAction.ActionRunner.RunExternalAction | exec/action.go:85-105 | The process error for the program and arguments of CommandOf |
| ExecAction.ActionRunner.DoConditionsApply | exec/action.go:107-117 | True exactly when every condition holds; runs them in order up to the first failure |
| ExecAction.ActionRunner.AppendActionLog | exec/action.go:119-121 | One entry with the action and status is appended |

## Left out

- File access (`os.Stat`, `os.ReadFile`, `io.FileExists`) and JSON/YAML byte decoding are an oracle: a map from path to an entry whose documents are already decoded. `json.Valid`/`json.Unmarshal`/`yaml.Unmarshal` and their messages are the oracle's `reason` text.
- `Factory.DirOf` models `filepath.Dir` for clean paths only: no `..` or repeated-slash cleaning.
- `LoadError.Fatal`: the YAML `log.Fatalf` is an error value that ends the load, not a process exit; its message is the decoder's text without the "could not load yaml to struct" wording.
- `LoadError.Panic`: nil dereferences are modelled as an error value that ends the load. These are a document without a `config` block and a hook name outside the valid set.
- `info.GetValidHooks()` is a parameter; the `Hook` and `Action` types are not part of this model, and are given only append, enable and getter behaviour.
- Go map iteration order over the document's hooks is modelled as the order of a sequence of entries, so every order is covered but no particular one is chosen.
- `Strings.ToLower` lower-cases ASCII letters only; Go's Unicode case mapping is not modelled.
- The factories hold the local settings file name as a field set by their constructors; the value is the constant from the source.
- `YamlFactories.YamlFactory.CreateConfig` writes the steps of `setupConfig` out, as the source does; its result equals the JSON factory's procedure.
- `CollectorIO` and all terminal output (`cIO.Write`, the command output in `runExternalAction`) are not modelled; log entries record only the action and its status.
- `app.NewContext` and the event records carry only the event kind, the action and the error.
- `ExecAction.ActionRunner.DoConditionsApply` uses one condition runner that the action runner holds; the source creates a fresh one per call. The oracle's answers do not depend on that object.
- The built-in action generator is called without the IO, configuration and repository arguments; its result is given directly by the registry oracle.
- `isSymlink` (exec/helper.go:30-36) is an operating-system call and is not modelled.
- Run-async and any concurrency are not modelled.
- `Configurations.QUIET`, `NORMAL`, `VERBOSE` and `DEBUG` are given the values 0 to 3. The io package that defines them is not part of this model. Only their order and distinctness are used.
- `Configurations.Configuration.IsHookEnabled` requires a valid hook name. For an unknown name the source dereferences nil and panics; this member does not return `LoadError.Panic` the way the loader does.
- `ExecHelper.SplitInternalPath` requires that the action contains "::". The source indexes the second piece of the split and panics without it. `ExecHelper.InternalHasSeparator` shows that every action that passes the prefix test meets this requirement.
- JSON `null`: the document datatypes cannot express a `null` entry in the hook map, an action list or a condition list, or a top-level `null` document. For these the source dereferences nil and panics. Only a missing `config` block is modelled as `LoadError.Panic`.
