/** JavaScript values as the dashboard's code sees them: parsed JSON plus
    `undefined`, with the truthiness, property access, string conversion and
    exception behaviour the code depends on. Numbers are integers. */
module JsValues {
  import opened Options
  import opened JsStrings
  import opened JsNumbers

  datatype JsValue =
    | Undefined
    | Null
    | Bool(b: bool)
    | Num(n: int)
    | Str(s: string)
    | Arr(elems: seq<JsValue>)
    | Obj(props: map<string, JsValue>)
  {
    /** `v == null` in JavaScript's loose sense: `null` or `undefined`. */
    predicate IsNullish() {
      Undefined? || Null?
    }
  }

  /** The boolean `!!v`: false exactly for `undefined`, `null`, `false`, `0`
      and the empty string. */
  predicate Truthy(v: JsValue): (r: bool)
    ensures !r <==> v in {Undefined, Null, Bool(false), Num(0), Str("")}
  {
    match v
    case Undefined => false
    case Null => false
    case Bool(b) => b
    case Num(n) => n != 0
    case Str(s) => |s| > 0
    case Arr(_) => true
    case Obj(_) => true
  }

  /** The built-in error classes the code distinguishes. */
  datatype ErrorKind = SyntaxError | TypeError | OtherError

  /** What a `throw` carries: an `Error` instance with its class and message,
      or some other value. */
  datatype Thrown = ErrorObject(kind: ErrorKind, message: string) | NonError(value: JsValue)

  /** The outcome of evaluating JavaScript code: a value or an exception. */
  datatype Completion<+T> = Normal(value: T) | Throw(thrown: Thrown)

  /** The value `v[key]` reads when reading does not throw: an object's
      own field, and `undefined` for a missing key or a value that is not an
      object. */
  function Field(v: JsValue, key: string): JsValue {
    if v.Obj? && key in v.props then v.props[key] else Undefined
  }

  /** `v[key]` for a property the value holds itself: reading any property
      of `null` or `undefined` throws a TypeError; a missing key reads as
      `undefined`. */
  function GetProp(v: JsValue, key: string): (r: Completion<JsValue>)
    ensures r.Throw? <==> v.IsNullish()
    ensures r.Throw? ==> r.thrown.ErrorObject? && r.thrown.kind == TypeError
    ensures v.Obj? ==> r == Normal(if key in v.props then v.props[key] else Undefined)
    ensures r.Normal? ==> r.value == Field(v, key)
  {
    match v
    case Undefined =>
      Throw(ErrorObject(TypeError, "Cannot read properties of undefined (reading '" + key + "')"))
    case Null =>
      Throw(ErrorObject(TypeError, "Cannot read properties of null (reading '" + key + "')"))
    case _ => Normal(Field(v, key))
  }

  /** `String(v)`: arrays print their elements joined by commas, with
      `null` and `undefined` elements printing as nothing. */
  function ToString(v: JsValue): (r: string)
    ensures v.Str? ==> r == v.s
    ensures v.Num? ==> ParseInt(r) == Some(v.n)
    ensures v.Obj? ==> r == "[object Object]"
    decreases v
  {
    match v
    case Undefined => "undefined"
    case Null => "null"
    case Bool(b) => if b then "true" else "false"
    case Num(n) => IntToStringRoundTrip(n); IntToString(n)
    case Str(s) => s
    case Arr(es) =>
      if |es| == 0 then ""
      else Join(seq(|es|, i requires 0 <= i < |es| => if es[i].IsNullish() then "" else ToString(es[i])), ',')
    case Obj(_) => "[object Object]"
  }
}
