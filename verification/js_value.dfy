/**
 * JSON values as the pages receive and send them, with JavaScript truthiness and the
 * `String(v)` conversion that template literals, `URLSearchParams` and `parseInt` apply.
 */
module JsValue {
  import opened Options
  import opened JsText
  import opened JsNumber

  /** A JSON value; numbers are integers and arrays hold strings. */
  datatype Value = Null | Bool(b: bool) | Num(n: int) | Str(s: string) | StrList(items: seq<string>)

  /** A JSON object: its own keys and their values. A key that is absent reads as `undefined`. */
  type Object = map<string, Value>

  /** JavaScript truthiness: `null`, `false`, `0` and `""` are falsy; every array is truthy. */
  predicate Truthy(v: Value) {
    match v
    case Null => false
    case Bool(b) => b
    case Num(n) => n != 0
    case Str(s) => s != ""
    case StrList(_) => true
  }

  /** `String(v)`; an array prints as its elements joined with commas. */
  function ToString(v: Value): string {
    match v
    case Null => "null"
    case Bool(b) => if b then "true" else "false"
    case Num(n) => IntToDecimal(n)
    case Str(s) => s
    case StrList(items) => Join(items, ',')
  }

  /** `String(o[key])`, where an absent key is `undefined`. */
  function FieldToString(o: Object, key: string): string {
    if key in o then ToString(o[key]) else "undefined"
  }

  /** `o[key]` as an option: absent keys and `null` both read as `None`. */
  function Lookup(o: Object, key: string): Option<Value> {
    if key in o && o[key] != Null then Some(o[key]) else None
  }

  /** A truthy value never prints as the empty string. */
  lemma TruthyPrintsNonEmpty(v: Value)
    requires Truthy(v) && !v.StrList?
    ensures ToString(v) != ""
  {
    if v.Num? {
      assert |Decimal(if v.n < 0 then -v.n else v.n)| >= 1;
    }
  }
}
