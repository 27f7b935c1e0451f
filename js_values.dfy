/** The JavaScript values that cross the wire between the API server and the
    browser client: what `JSON.stringify` writes and `response.json()` reads
    back, plus `undefined`, which a missing property yields. */
module JsValues {
  import opened Wrappers
  import Text

  /** Numbers are integers here; floating point is not modelled. */
  datatype JsValue =
    | Undefined
    | Null
    | Bool(b: bool)
    | Num(n: int)
    | Str(s: string)
    | Arr(elems: seq<JsValue>)
    | Obj(fields: map<string, JsValue>)

  /** A thrown JavaScript error: an `Error` built by the code with a message;
      the `TypeError` the engine raises when a property `reading` is read
      off `null` or `undefined` (its engine-specific message text is not
      modelled); or any other error that reaches the code from outside, such
      as the `TypeError` of a failed `fetch` or the `SyntaxError` of a body
      that does not parse, by its name and message. */
  datatype JsError =
    | Error(message: string)
    | TypeError(reading: string)
    | Other(name: string, message: string)

  /** JavaScript truthiness (`if (v)`, `!v`, `v || w`). */
  predicate Truthy(v: JsValue)
  {
    match v
    case Undefined => false
    case Null => false
    case Bool(b) => b
    case Num(n) => n != 0
    case Str(s) => s != ""
    case Arr(_) => true
    case Obj(_) => true
  }

  /** The value of the property `key` of an object, `undefined` when absent. */
  function Field(fields: map<string, JsValue>, key: string): JsValue
  {
    if key in fields then fields[key] else Undefined
  }

  /** The property access `v.key`: throws on `null` and `undefined`, yields
      the field of an object and `undefined` on any other value (the
      built-in properties of arrays and strings, such as `length`, are not
      read by the modelled code and are not modelled). */
  function Get(v: JsValue, key: string): Result<JsValue, JsError>
  {
    match v
    case Undefined => Failure(TypeError(key))
    case Null => Failure(TypeError(key))
    case Obj(m) => Success(Field(m, key))
    case _ => Success(Undefined)
  }

  /** `String(v)`, as `new Error(v)` applies it to its argument. Arrays are
      joined with commas, their `null`/`undefined` elements rendered empty. */
  function ToJsString(v: JsValue): string
    decreases v, if v.Arr? then |v.elems| + 1 else 0
  {
    match v
    case Undefined => "undefined"
    case Null => "null"
    case Bool(b) => if b then "true" else "false"
    case Num(n) => Text.IntToString(n)
    case Str(s) => s
    case Arr(xs) => JoinElements(v, 0)
    case Obj(_) => "[object Object]"
  }

  /** The comma-joined rendering of the elements of array `v` from index `i` on. */
  function JoinElements(v: JsValue, i: nat): string
    requires v.Arr? && i <= |v.elems|
    decreases v, |v.elems| - i
  {
    if i == |v.elems| then ""
    else
      var x := v.elems[i];
      var head := if x.Undefined? || x.Null? then "" else ToJsString(x);
      if i + 1 == |v.elems| then head else head + "," + JoinElements(v, i + 1)
  }

}
