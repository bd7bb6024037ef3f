/**
 * JavaScript values, as far as the request pipeline looks at them: handler results, exception
 * response bodies and the envelopes written back to the client.  Numbers are integers here.
 */
module JsValue {
  datatype Value =
    | Undefined
    | Null
    | Bool(b: bool)
    | Num(n: int)
    | Str(s: string)
    | Date(ms: int)
    | Arr(items: seq<Value>)
    | Obj(fields: map<string, Value>)

  /** JavaScript truthiness (NaN is not a value of this model). */
  predicate Truthy(v: Value) {
    match v
    case Undefined => false
    case Null => false
    case Bool(b) => b
    case Num(n) => n != 0
    case Str(s) => s != ""
    case _ => true
  }

  /**
   * Property read `v.key` / `v?.key`: a missing property of an object, and any property of a
   * primitive, reads as undefined.  Reading a property of null or undefined throws in JavaScript;
   * callers that can meet those use `v?.key`, which reads as undefined too.
   */
  function Field(v: Value, key: string): Value {
    if v.Obj? && key in v.fields then v.fields[key] else Undefined
  }

  /** `typeof v`. */
  function TypeOf(v: Value): string {
    match v
    case Undefined => "undefined"
    case Bool(_) => "boolean"
    case Num(_) => "number"
    case Str(_) => "string"
    case _ => "object"
  }
}
