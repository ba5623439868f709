/**
 * The condition tree of the configuration model (configuration/condition.go)
 * and the opaque option maps that conditions and actions carry.
 */
module Conditions {

  /** A dynamically typed option value, passed through without interpretation. */
  datatype Value =
    | Null
    | Boolean(b: bool)
    | Number(literal: string)
    | Text(s: string)
    | List(items: seq<Value>)
    | Object(fields: map<string, Value>)

  /** `Options`: a string-keyed map of option values. */
  datatype Options = Options(values: map<string, Value>)

  /** `NewOptions`: wraps the given map as it is. */
  function NewOptions(values: map<string, Value>): (o: Options)
    ensures o.values == values
  {
    Options(values)
  }

  /** `Condition`: a run specification, its options and nested conditions. */
  datatype Condition = Condition(run: string, options: Options, conditions: seq<Condition>) {

    function Run(): string {
      run
    }

    function Options(): Options {
      options
    }

    function Conditions(): seq<Condition> {
      conditions
    }
  }

  /**
   * `NewCondition` stores its three arguments without validating them, so an
   * empty run string is accepted, and the accessors give them back unchanged.
   */
  function NewCondition(cmd: string, o: Options, c: seq<Condition>): (r: Condition)
    ensures r.Run() == cmd && r.Options() == o && r.Conditions() == c
    ensures |r.Conditions()| == |c| && forall i :: 0 <= i < |c| ==> r.Conditions()[i] == c[i]
  {
    Condition(cmd, o, c)
  }
}
