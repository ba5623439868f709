/**
 * `ActionRunner` (exec/action.go): runs one configured action of a hook.
 * It announces the start on the event bus, checks the action's conditions
 * in order and stops at the first one that fails, then runs the action as
 * built-in functionality or as an external command, reports the outcome on
 * the bus and appends one entry to the action log.
 *
 * The event bus, the condition runner, the registry of built-in actions and
 * the process runner are foreign code: each is an oracle. The bus and the
 * condition runner are objects that record what they were asked, so the
 * order of dispatches and the conditions checked are part of the state the
 * runner changes.
 */
module ExecAction {
  import opened Wrappers
  import opened Strings
  import opened Conditions
  import opened Hooks
  import opened ExecHelper

  /** The events the runner dispatches. */
  datatype EventKind = ActionStarted | ActionSkipped | ActionFailed | ActionSucceeded

  /** An event: its kind, the action it is about and, for a failure, the error. */
  datatype Event = Event(kind: EventKind, action: Action, cause: Option<string>)

  /** `info.ACTION_SUCCEEDED`, `info.ACTION_FAILED` and `info.ACTION_SKIPPED`. */
  datatype Status = Succeeded | Failed | Skipped

  /** `hooks.NewActionLogItem`; the collected output is not part of this model. */
  datatype LogItem = LogItem(action: Action, status: Status)

  /** A built-in action as the registry generates it: for which hooks it applies and what running it returns. */
  datatype InternalAction = InternalAction(applicable: string -> bool, run: Action -> Option<string>)

  /** What the foreign code answers. */
  datatype Oracles = Oracles(
    /** The error the event bus returns for each kind of event; kinds not in the map succeed. */
    dispatchFailures: map<EventKind, string>,
    /** The exec package's condition runner: an error when the condition does not hold. */
    condition: (string, Condition) -> Option<string>,
    /** `actions.GetActionHookFunc`: the built-in action for an internal path. */
    registry: seq<string> -> Result<InternalAction, string>,
    /** `exec.Command(name, args...).CombinedOutput()`: the error of the process, if any. */
    command: (string, seq<string>) -> Option<string>)

  /** The answer of the event bus to a dispatch of `kind`. */
  function Answer(failures: map<EventKind, string>, kind: EventKind): (err: Option<string>)
    ensures err.Some? <==> kind in failures
    ensures kind in failures ==> err.value == failures[kind]
  {
    if kind in failures then Some(failures[kind]) else None
  }

  /** The index of the first condition that does not hold for `hook`, if any. */
  function FirstFailing(check: (string, Condition) -> Option<string>, hook: string, conditions: seq<Condition>): (r: Option<nat>)
    ensures r.Some? ==> r.value < |conditions| && check(hook, conditions[r.value]).Some?
    ensures r.Some? ==> forall j :: 0 <= j < r.value ==> check(hook, conditions[j]).None?
    ensures r.None? <==> forall j :: 0 <= j < |conditions| ==> check(hook, conditions[j]).None?
  {
    if conditions == [] then None
    else if check(hook, conditions[0]).Some? then Some(0)
    else
      match FirstFailing(check, hook, conditions[1..])
      case None => None
      case Some(k) => Some(k + 1)
  }

  /** The conditions `doConditionsApply` runs: all of them, or those up to and including the first that fails. */
  function Checked(check: (string, Condition) -> Option<string>, hook: string, conditions: seq<Condition>): seq<Condition> {
    match FirstFailing(check, hook, conditions)
    case None => conditions
    case Some(k) => conditions[..k + 1]
  }

  /** The prefix `runAction` tests, case-sensitively, to choose built-in functionality. */
  predicate IsInternalAction(run: string) {
    HasPrefix(run, "CaptainHook::")
  }

  /** A process to start: the program and its arguments. */
  datatype Command = Command(name: string, args: seq<string>)

  /**
   * The command line of an external action: the run string split on single
   * spaces, the first piece being the program. Joining the pieces with
   * spaces gives the run string back, and no piece holds a space.
   */
  function CommandOf(run: string): (cmd: Command)
    ensures Join([cmd.name] + cmd.args, " ") == run
    ensures forall j :: !OccursAt(cmd.name, " ", j)
    ensures forall k, j :: 0 <= k < |cmd.args| ==> !OccursAt(cmd.args[k], " ", j)
  {
    var splits := Split(run, " ");
    JoinSplit(run, " ");
    SplitPiecesAvoidSeparator(run, " ");
    assert [splits[0]] + splits[1..] == splits;
    Command(splits[0], splits[1..])
  }

  /** What `runAction` returns and the events it dispatched on the way. */
  datatype Outcome = Outcome(err: Option<string>, events: seq<Event>)

  /** `runInternalAction`: look the path up, skip an action that does not apply to the hook, otherwise run it. */
  function RunInternal(env: Oracles, hook: string, action: Action): (o: Outcome)
    requires IsInternalAction(action.run)
    ensures IndexOf(action.run, "::").Some?
    ensures var found := env.registry(SplitInternalPath(action.run));
      found.Failure? ==> o == Outcome(Some(found.error), [])
    ensures var found := env.registry(SplitInternalPath(action.run));
      found.Success? && !found.value.applicable(hook) ==>
        o == Outcome(Answer(env.dispatchFailures, ActionSkipped), [Event(ActionSkipped, action, None)])
    ensures var found := env.registry(SplitInternalPath(action.run));
      found.Success? && found.value.applicable(hook) ==> o == Outcome(found.value.run(action), [])
  {
    CasedPrefixHasSeparator(action.run, "CaptainHook::");
    match env.registry(SplitInternalPath(action.run))
    case Failure(e) => Outcome(Some(e), [])
    case Success(internal) =>
      if !internal.applicable(hook) then Outcome(Answer(env.dispatchFailures, ActionSkipped), [Event(ActionSkipped, action, None)])
      else Outcome(internal.run(action), [])
  }

  /** `runExternalAction`: the error of the process started from the run string. */
  function RunExternal(env: Oracles, action: Action): Option<string> {
    var cmd := CommandOf(action.run);
    env.command(cmd.name, cmd.args)
  }

  /** `runAction`: built-in functionality or an external command, chosen by the case-sensitive prefix. */
  function RunActionSpec(env: Oracles, hook: string, action: Action): (o: Outcome)
    ensures IsInternalAction(action.run) ==> o == RunInternal(env, hook, action)
    ensures !IsInternalAction(action.run) ==> o == Outcome(RunExternal(env, action), [])
  {
    if IsInternalAction(action.run) then RunInternal(env, hook, action)
    else Outcome(RunExternal(env, action), [])
  }

  /** Everything one `Run` produces: its two errors, the events, the log entries and the conditions checked. */
  datatype RunResult = RunResult(
    err: Option<string>,
    dispatchErr: Option<string>,
    events: seq<Event>,
    log: seq<LogItem>,
    checked: seq<Condition>)

  /** `ActionRunner.Run` as a function of the oracles. */
  function RunSpec(env: Oracles, hook: string, action: Action): (r: RunResult)
    ensures |r.events| >= 1 && r.events[0] == Event(ActionStarted, action, None)
    ensures |r.log| <= 1
  {
    var started := [Event(ActionStarted, action, None)];
    var startErr := Answer(env.dispatchFailures, ActionStarted);
    if startErr.Some? then RunResult(None, startErr, started, [], [])
    else
      var checked := Checked(env.condition, hook, action.conditions);
      if FirstFailing(env.condition, hook, action.conditions).Some? then
        RunResult(None, Answer(env.dispatchFailures, ActionSkipped), started + [Event(ActionSkipped, action, None)], [LogItem(action, Skipped)], checked)
      else
        var run := RunActionSpec(env, hook, action);
        if run.err.Some? then
          RunResult(run.err, Answer(env.dispatchFailures, ActionFailed), started + run.events + [Event(ActionFailed, action, run.err)], [LogItem(action, Failed)], checked)
        else
          RunResult(None, Answer(env.dispatchFailures, ActionSucceeded), started + run.events + [Event(ActionSucceeded, action, None)], [LogItem(action, Skipped)], checked)
  }

  /** When the start cannot be dispatched, `Run` reports that error alone: no condition is checked and nothing is logged. */
  lemma StartFailureStops(env: Oracles, hook: string, action: Action)
    requires ActionStarted in env.dispatchFailures
    ensures var r := RunSpec(env, hook, action);
      r == RunResult(None, Some(env.dispatchFailures[ActionStarted]), [Event(ActionStarted, action, None)], [], [])
  {
  }

  /**
   * The conditions form a short-circuit AND: they are checked in order, every
   * checked one but the last holds, and the checking stops at the first one
   * that fails; the action runs exactly when all of them hold.
   */
  lemma {:induction false} ConditionsShortCircuit(env: Oracles, hook: string, action: Action)
    requires ActionStarted !in env.dispatchFailures
    ensures RunSpec(env, hook, action).checked <= action.conditions
    ensures var checked := RunSpec(env, hook, action).checked;
      forall j :: 0 <= j < |checked| - 1 ==> env.condition(hook, checked[j]).None?
    ensures var checked := RunSpec(env, hook, action).checked;
      checked != action.conditions ==> |checked| > 0 && env.condition(hook, checked[|checked| - 1]).Some?
    ensures var r := RunSpec(env, hook, action);
      (forall j :: 0 <= j < |action.conditions| ==> env.condition(hook, action.conditions[j]).None?) <==>
      r.events[|r.events| - 1].kind != ActionSkipped
  {
    var conditions := action.conditions;
    var first := FirstFailing(env.condition, hook, conditions);
    var r := RunSpec(env, hook, action);
    if first.Some? {
      var k := first.value;
      assert r.checked == conditions[..k + 1];
      assert r.events == [Event(ActionStarted, action, None), Event(ActionSkipped, action, None)];
    } else {
      var run := RunActionSpec(env, hook, action);
      assert r.checked == conditions;
      assert r.events[|r.events| - 1].kind in {ActionFailed, ActionSucceeded};
    }
  }

  /** A failing condition skips the action: ActionSkipped is dispatched, SKIPPED is logged and only the bus error is returned. */
  lemma ConditionFailureSkips(env: Oracles, hook: string, action: Action, k: nat)
    requires ActionStarted !in env.dispatchFailures
    requires FirstFailing(env.condition, hook, action.conditions) == Some(k)
    ensures RunSpec(env, hook, action) == RunResult(
      None, Answer(env.dispatchFailures, ActionSkipped),
      [Event(ActionStarted, action, None), Event(ActionSkipped, action, None)],
      [LogItem(action, Skipped)], action.conditions[..k + 1])
  {
  }

  /** An execution error and the error of dispatching the failure come back on separate channels; FAILED is logged. */
  lemma FailureOnTwoChannels(env: Oracles, hook: string, action: Action)
    requires ActionStarted !in env.dispatchFailures
    requires FirstFailing(env.condition, hook, action.conditions).None?
    requires RunActionSpec(env, hook, action).err.Some?
    ensures var r := RunSpec(env, hook, action);
      r.err == RunActionSpec(env, hook, action).err &&
      r.dispatchErr == Answer(env.dispatchFailures, ActionFailed) &&
      r.events[|r.events| - 1] == Event(ActionFailed, action, r.err) &&
      r.log == [LogItem(action, Failed)]
  {
  }

  /** On success ActionSucceeded is dispatched, but the log entry records ACTION_SKIPPED. */
  lemma SuccessLoggedAsSkipped(env: Oracles, hook: string, action: Action)
    requires ActionStarted !in env.dispatchFailures
    requires FirstFailing(env.condition, hook, action.conditions).None?
    requires RunActionSpec(env, hook, action).err.None?
    ensures var r := RunSpec(env, hook, action);
      r.err.None? && r.dispatchErr == Answer(env.dispatchFailures, ActionSucceeded) &&
      r.events[|r.events| - 1] == Event(ActionSucceeded, action, None) &&
      r.log == [LogItem(action, Skipped)]
  {
  }

  /** Once the start is dispatched, exactly one entry for the action is logged; otherwise none. */
  lemma OneLogEntry(env: Oracles, hook: string, action: Action)
    ensures var r := RunSpec(env, hook, action);
      (ActionStarted in env.dispatchFailures <==> r.log == []) &&
      (ActionStarted !in env.dispatchFailures ==> |r.log| == 1 && r.log[0].action == action)
  {
  }

  /**
   * The runner's prefix test is case-sensitive although `isInternalFunctionality`
   * is not: a lower-case `captainhook::` action is run as an external command.
   */
  lemma PrefixIsCaseSensitive(rest: string)
    ensures IsInternalFunctionality("captainhook::" + rest)
    ensures !IsInternalAction("captainhook::" + rest)
  {
    var upper := "CaptainHook::" + rest;
    var lower := "captainhook::" + rest;
    assert upper[..13] == "CaptainHook::";
    assert lower[..13] == InternalPrefix;
    CasedPrefixIsInternal(upper);
    forall i | 0 <= i < |InternalPrefix|
      ensures LowerChar(lower[i]) == InternalPrefix[i]
    {
      assert lower[i] == LowerChar(upper[i]);
    }
    assert lower[0] != "CaptainHook::"[0];
  }

  /**
   * A built-in action that does not apply to the hook is not run: ActionSkipped
   * is dispatched and, when that dispatch succeeds, `Run` counts the action as
   * a success and dispatches ActionSucceeded as well.
   */
  lemma NotApplicableCountsAsSuccess(env: Oracles, hook: string, action: Action)
    requires ActionStarted !in env.dispatchFailures && ActionSkipped !in env.dispatchFailures
    requires FirstFailing(env.condition, hook, action.conditions).None?
    requires IsInternalAction(action.run)
    requires IndexOf(action.run, "::").Some?
    requires env.registry(SplitInternalPath(action.run)).Success?
    requires !env.registry(SplitInternalPath(action.run)).value.applicable(hook)
    ensures var r := RunSpec(env, hook, action);
      r.err.None? &&
      r.events == [Event(ActionStarted, action, None), Event(ActionSkipped, action, None), Event(ActionSucceeded, action, None)] &&
      r.log == [LogItem(action, Skipped)]
  {
  }

  /** When dispatching ActionSkipped for a built-in action that does not apply fails, that error becomes the action's error. */
  lemma NotApplicableDispatchErrorFails(env: Oracles, hook: string, action: Action)
    requires ActionStarted !in env.dispatchFailures && ActionSkipped in env.dispatchFailures
    requires FirstFailing(env.condition, hook, action.conditions).None?
    requires IsInternalAction(action.run)
    requires IndexOf(action.run, "::").Some?
    requires env.registry(SplitInternalPath(action.run)).Success?
    requires !env.registry(SplitInternalPath(action.run)).value.applicable(hook)
    ensures var r := RunSpec(env, hook, action);
      r.err == Some(env.dispatchFailures[ActionSkipped]) && r.log == [LogItem(action, Failed)]
  {
  }

  /** `events.Dispatcher`: records every event and answers from its oracle. */
  class Dispatcher {
    var dispatched: seq<Event>
    const failures: map<EventKind, string>

    constructor (failures: map<EventKind, string>)
      ensures dispatched == [] && this.failures == failures
    {
      dispatched := [];
      this.failures := failures;
    }

    /** The `Dispatch...Event` methods. */
    method Dispatch(e: Event) returns (err: Option<string>)
      modifies this`dispatched
      ensures dispatched == old(dispatched) + [e]
      ensures err == Answer(failures, e.kind)
    {
      dispatched := dispatched + [e];
      err := Answer(failures, e.kind);
    }
  }

  /** `hooks.ActionLog`: the entries in the order they were added. */
  class ActionLog {
    var items: seq<LogItem>

    constructor ()
      ensures items == []
    {
      items := [];
    }

    /** `Add`. */
    method Add(item: LogItem)
      modifies this`items
      ensures items == old(items) + [item]
    {
      items := items + [item];
    }
  }

  /** The exec package's condition runner: records each condition it runs and answers from its oracle. */
  class ConditionRunner {
    var ran: seq<Condition>
    const check: (string, Condition) -> Option<string>

    constructor (check: (string, Condition) -> Option<string>)
      ensures ran == [] && this.check == check
    {
      ran := [];
      this.check := check;
    }

    method Run(hook: string, condition: Condition) returns (err: Option<string>)
      modifies this`ran
      ensures ran == old(ran) + [condition]
      ensures err == check(hook, condition)
    {
      ran := ran + [condition];
      err := check(hook, condition);
    }
  }

  /** `ActionRunner`: the bus, the log and the condition runner it reports to, and the oracles it calls. */
  class ActionRunner {
    const eventDispatcher: Dispatcher
    const actionLog: ActionLog
    const conditionRunner: ConditionRunner
    const registry: seq<string> -> Result<InternalAction, string>
    const command: (string, seq<string>) -> Option<string>

    /** `NewActionRunner`. */
    constructor (dispatcher: Dispatcher, log: ActionLog, conditionRunner: ConditionRunner,
                 registry: seq<string> -> Result<InternalAction, string>, command: (string, seq<string>) -> Option<string>)
      ensures eventDispatcher == dispatcher && actionLog == log && this.conditionRunner == conditionRunner
      ensures this.registry == registry && this.command == command
    {
      eventDispatcher := dispatcher;
      actionLog := log;
      this.conditionRunner := conditionRunner;
      this.registry := registry;
      this.command := command;
    }

    /** The oracles the runner and its collaborators answer from. */
    function Env(): Oracles {
      Oracles(eventDispatcher.failures, conditionRunner.check, registry, command)
    }

    /** `Run`: returns the execution error and the dispatch error separately. */
    method Run(hook: string, action: Action) returns (err: Option<string>, dispatchErr: Option<string>)
      modifies eventDispatcher`dispatched, actionLog`items, conditionRunner`ran
      ensures var r := RunSpec(Env(), hook, action);
        err == r.err && dispatchErr == r.dispatchErr &&
        eventDispatcher.dispatched == old(eventDispatcher.dispatched) + r.events &&
        actionLog.items == old(actionLog.items) + r.log &&
        conditionRunner.ran == old(conditionRunner.ran) + r.checked
    {
      ghost var env := Env();
      ghost var d0 := eventDispatcher.dispatched;
      ghost var started := [Event(ActionStarted, action, None)];
      var status := Succeeded;
      var errDispatchStart := eventDispatcher.Dispatch(Event(ActionStarted, action, None));
      if errDispatchStart.Some? {
        return None, errDispatchStart;
      }
      var applies := DoConditionsApply(hook, action.conditions);
      ghost var checked := Checked(env.condition, hook, action.conditions);
      assert conditionRunner.ran == old(conditionRunner.ran) + checked;
      assert eventDispatcher.dispatched == d0 + started;
      if !applies {
        var errDispatchSkipped := eventDispatcher.Dispatch(Event(ActionSkipped, action, None));
        status := Skipped;
        AppendActionLog(action, status);
        assert RunSpec(env, hook, action) == RunResult(None, errDispatchSkipped, started + [Event(ActionSkipped, action, None)], [LogItem(action, Skipped)], checked);
        return None, errDispatchSkipped;
      }
      ghost var run := RunActionSpec(env, hook, action);
      err := RunAction(hook, action);
      assert eventDispatcher.dispatched == d0 + (started + run.events);
      ghost var last;
      if err.Some? {
        dispatchErr := eventDispatcher.Dispatch(Event(ActionFailed, action, err));
        status := Failed;
        last := Event(ActionFailed, action, err);
      } else {
        dispatchErr := eventDispatcher.Dispatch(Event(ActionSucceeded, action, None));
        status := Skipped;
        last := Event(ActionSucceeded, action, None);
      }
      assert eventDispatcher.dispatched == d0 + (started + run.events + [last]);
      AppendActionLog(action, status);
      assert RunSpec(env, hook, action) == RunResult(err, dispatchErr, started + run.events + [last], [LogItem(action, status)], checked);
    }

    /** `runAction`: the case-sensitive `CaptainHook::` prefix selects built-in functionality. */
    method RunAction(hook: string, action: Action) returns (err: Option<string>)
      modifies eventDispatcher`dispatched
      ensures var o := RunActionSpec(Env(), hook, action);
        err == o.err && eventDispatcher.dispatched == old(eventDispatcher.dispatched) + o.events
    {
      if HasPrefix(action.run, "CaptainHook::") {
        err := RunInternalAction(hook, action);
        return;
      }
      err := RunExternalAction(hook, action);
    }

    /** `runInternalAction`. */
    method RunInternalAction(hook: string, action: Action) returns (err: Option<string>)
      requires IsInternalAction(action.run)
      modifies eventDispatcher`dispatched
      ensures var o := RunInternal(Env(), hook, action);
        err == o.err && eventDispatcher.dispatched == old(eventDispatcher.dispatched) + o.events
    {
      CasedPrefixHasSeparator(action.run, "CaptainHook::");
      var actionPath := Split(action.run, "::")[1];
      var path := Split(actionPath, ".");
      var actionGenerator := registry(path);
      if actionGenerator.Failure? {
        return Some(actionGenerator.error);
      }
      var actionToExecute := actionGenerator.value;
      if !actionToExecute.applicable(hook) {
        err := eventDispatcher.Dispatch(Event(ActionSkipped, action, None));
        return;
      }
      return actionToExecute.run(action);
    }

    /** `runExternalAction`: the run string split on spaces gives the program and its arguments. */
    method RunExternalAction(hook: string, action: Action) returns (err: Option<string>)
      ensures err == RunExternal(Env(), action)
    {
      var splits := Split(action.run, " ");
      err := command(splits[0], splits[1..]);
    }

    /** `doConditionsApply`: checks the conditions in order and stops at the first that fails. */
    method DoConditionsApply(hook: string, conditions: seq<Condition>) returns (applies: bool)
      modifies conditionRunner`ran
      ensures applies <==> forall j :: 0 <= j < |conditions| ==> conditionRunner.check(hook, conditions[j]).None?
      ensures conditionRunner.ran == old(conditionRunner.ran) + Checked(conditionRunner.check, hook, conditions)
    {
      var i := 0;
      while i < |conditions|
        invariant 0 <= i <= |conditions|
        invariant conditionRunner.ran == old(conditionRunner.ran) + conditions[..i]
        invariant forall j :: 0 <= j < i ==> conditionRunner.check(hook, conditions[j]).None?
      {
        var err := conditionRunner.Run(hook, conditions[i]);
        if err.Some? {
          assert FirstFailing(conditionRunner.check, hook, conditions) == Some(i);
          assert conditions[..i] + [conditions[i]] == conditions[..i + 1];
          return false;
        }
        assert conditions[..i] + [conditions[i]] == conditions[..i + 1];
        i := i + 1;
      }
      assert conditions[..i] == conditions;
      return true;
    }

    /** `appendActionLog`. */
    method AppendActionLog(action: Action, status: Status)
      modifies actionLog`items
      ensures actionLog.items == old(actionLog.items) + [LogItem(action, status)]
    {
      actionLog.Add(LogItem(action, status));
    }
  }
}
