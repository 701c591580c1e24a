/**
 * The loosely typed option bag the three core files pass around
 * (`InitOptions` in src/contracts/index.ts, built by object spreads).
 *
 * A key can be absent, or present and hold `undefined`; object spread copies
 * a present-but-undefined key and so overrides an earlier value with it. The
 * map therefore stores `Option<Value>`, with `None` for a present `undefined`.
 */
module Contracts {
  import opened Wrappers

  /** The JavaScript values that reach the option bag. */
  datatype Value =
    | Str(text: string)
    | Bool(flag: bool)
    | Object   // any non-primitive value, such as commander's Command object

  type Options = map<string, Option<Value>>

  /** Whether key `k` is present, and with what (possibly undefined) value. */
  function Entry(o: Options, k: string): (e: Option<Option<Value>>)
    ensures e.Some? <==> k in o
  {
    if k in o then Some(o[k]) else None
  }

  /** Reading `o.k`: an absent key and a key holding `undefined` read alike. */
  function Get(o: Options, k: string): (v: Option<Value>)
    ensures v.Some? ==> k in o && o[k] == v
  {
    if k in o then o[k] else None
  }

  /** JavaScript truthiness of a value. */
  predicate Truthy(v: Option<Value>) {
    match v
    case None => false
    case Some(Str(s)) => s != ""
    case Some(Bool(b)) => b
    case Some(Object) => true
  }

  /** The text a template literal `${v}` produces. */
  function Display(v: Option<Value>): string {
    match v
    case None => "undefined"
    case Some(Str(s)) => s
    case Some(Bool(b)) => if b then "true" else "false"
    case Some(Object) => "[object Object]"
  }
}
