/**
 * The `Action` record and the `Hook` object of the configuration package.
 * Their Go definitions are not part of this model; they are given the
 * behaviour the loader relies on: `AddAction` appends, `Enable` sets the
 * enabled flag, and the getters return the fields.
 */
module Hooks {
  import opened Settings
  import opened Conditions

  /** `Action`: a run specification, its settings, its top-level conditions and its options. */
  datatype Action = Action(run: string, settings: ActionSettings, conditions: seq<Condition>, options: Options) {
    /** `Action.Action()`: the run specification. */
    function Run(): string {
      run
    }
  }

  /** The observable state of a hook: its enabled flag and its ordered actions. */
  datatype HookState = HookState(enabled: bool, actions: seq<Action>)

  /** `Hook`: a named git hook whose flag and action list are updated in place. */
  class Hook {
    const name: string
    var enabled: bool
    var actions: seq<Action>

    /** `NewHook(name, enabled)`. */
    constructor (name: string, enabled: bool)
      ensures this.name == name && this.enabled == enabled && actions == []
    {
      this.name := name;
      this.enabled := enabled;
      actions := [];
    }

    function State(): HookState
      reads this
    {
      HookState(enabled, actions)
    }

    function IsEnabled(): bool
      reads this
    {
      enabled
    }

    function GetActions(): seq<Action>
      reads this
    {
      actions
    }

    method Enable()
      modifies this
      ensures enabled && actions == old(actions)
    {
      enabled := true;
    }

    method AddAction(a: Action)
      modifies this
      ensures actions == old(actions) + [a] && enabled == old(enabled)
    {
      actions := actions + [a];
    }
  }
}
