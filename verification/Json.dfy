/** JSON values as `serde_json::Value` has them. Numbers are integers or an uninterpreted float literal. */
module Json {
  import opened Prelude

  datatype Value =
    | Null
    | Bool(b: bool)
    | Int(n: int)
    | Float(literal: string)
    | Str(s: string)
    | Arr(elems: seq<Value>)
    | Obj(fields: map<string, Value>)

  /** `Value::get(key)`: absent on anything but an object holding the key. */
  function Get(v: Value, key: string): Option<Value> {
    if v.Obj? && key in v.fields then Some(v.fields[key]) else None
  }

  /** `value[key]`: null where `Get` has nothing. */
  function Index(v: Value, key: string): Value {
    if v.Obj? && key in v.fields then v.fields[key] else Null
  }

  function AsStr(v: Value): Option<string> {
    if v.Str? then Some(v.s) else None
  }

  /** `as_u64().unwrap_or(0)` */
  function AsU64OrZero(v: Value): nat {
    if v.Int? && 0 <= v.n <= U64_MAX then v.n else 0
  }
}
