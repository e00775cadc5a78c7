/**
  The JavaScript values the runner utilities inspect, with the few language
  rules they rely on: truthiness (`||`, `!`), `typeof`, `String(v)` and
  object spread (`{...v}`).
 */
module JsValues {
  import opened Wrappers

  /** A JavaScript value. Numbers are integers; arrays and functions are not modelled. */
  datatype JsValue =
    | Undefined
    | Null
    | Bool(b: bool)
    | Num(n: int)
    | Str(s: string)
    | Obj(props: map<string, JsValue>)

  /** An exception a JavaScript operation throws. */
  datatype Thrown = TypeError

  /** The process environment (`process.env`): variable name to value. */
  type Env = map<string, string>

  /** JavaScript truthiness, as used by `||` and `!`. */
  predicate Truthy(v: JsValue) {
    match v
    case Undefined => false
    case Null => false
    case Bool(b) => b
    case Num(n) => n != 0
    case Str(s) => s != ""
    case Obj(_) => true
  }

  /** `a || b`. */
  function Or(a: JsValue, b: JsValue): JsValue {
    if Truthy(a) then a else b
  }

  /** `typeof v`. */
  function TypeOf(v: JsValue): string {
    match v
    case Undefined => "undefined"
    case Null => "object"
    case Bool(_) => "boolean"
    case Num(_) => "number"
    case Str(_) => "string"
    case Obj(_) => "object"
  }

  /** `process.env[name]` is set to a non-empty string (a truthy lookup). */
  predicate EnvSet(env: Env, name: string) {
    name in env && env[name] != ""
  }

  /** `process.env[name]`, which is `undefined` for an unset variable. */
  function EnvGet(env: Env, name: string): Option<string> {
    if name in env then Some(env[name]) else None
  }

  /** `process.env[name] || fallback` on strings. */
  function EnvOr(env: Env, name: string, fallback: string): string {
    if EnvSet(env, name) then env[name] else fallback
  }

  /** Decimal digits of a natural number, as `String(n)` writes it. */
  function NatToString(n: nat): (r: string)
    ensures |r| >= 1
    ensures forall i :: 0 <= i < |r| ==> '0' <= r[i] <= '9'
    decreases n
  {
    var digit := ['0' + (n % 10) as char];
    if n < 10 then digit else NatToString(n / 10) + digit
  }

  /** `String(n)` for an integer. */
  function IntToString(n: int): string {
    if n < 0 then "-" + NatToString(-n) else NatToString(n)
  }

  /** `String(v)`, also what a template literal `${v}` produces. */
  function ToString(v: JsValue): string {
    match v
    case Undefined => "undefined"
    case Null => "null"
    case Bool(b) => if b then "true" else "false"
    case Num(n) => IntToString(n)
    case Str(s) => s
    case Obj(_) => "[object Object]"
  }

  /** The own properties a string spreads into: one per character, keyed by index. */
  function SpreadChars(s: string, from: nat): map<string, JsValue>
    decreases |s|
  {
    if s == [] then map[] else SpreadChars(s[1..], from + 1)[NatToString(from) := Str([s[0]])]
  }

  /** The properties `{...v}` copies: an object's own, a string's characters, nothing otherwise. */
  function Spread(v: JsValue): map<string, JsValue> {
    match v
    case Obj(props) => props
    case Str(s) => SpreadChars(s, 0)
    case _ => map[]
  }
}
