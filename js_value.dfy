/** JavaScript values as they come out of `response.json()` and
    `JSON.parse`, with the few operators the client code applies to them:
    truthiness, optional chaining, `??`, `typeof`, and string and number
    conversion. */
module JsValue {
  import opened Wrappers

  /** Numbers are exact reals: NaN and the infinities are not modelled. */
  datatype JsVal =
    | JUndefined
    | JNull
    | JBool(b: bool)
    | JNum(n: real)
    | JStr(s: string)
    | JArr(items: seq<JsVal>)
    | JObj(fields: map<string, JsVal>)

  /** JavaScript truthiness: undefined, null, false, 0 and "" are falsy. */
  predicate Truthy(v: JsVal) {
    match v
    case JUndefined => false
    case JNull => false
    case JBool(b) => b
    case JNum(n) => n != 0.0
    case JStr(s) => s != ""
    case _ => true
  }

  /** `v?.key`: an own property of an object, otherwise undefined (inherited
      properties are not modelled). */
  function Get(v: JsVal, key: string): (r: JsVal)
    ensures !v.JObj? ==> r == JUndefined
    ensures v.JObj? && key in v.fields ==> r == v.fields[key]
  {
    if v.JObj? && key in v.fields then v.fields[key] else JUndefined
  }

  predicate IsNullish(v: JsVal) {
    v.JUndefined? || v.JNull?
  }

  /** Whether `const { ... } = await request.json()` gets past the
      destructuring: None is a request body that is not JSON, and
      destructuring null or undefined throws. */
  predicate Destructures(body: Option<JsVal>) {
    body.Some? && !IsNullish(body.value)
  }

  /** `a ?? b`. */
  function Coalesce(a: JsVal, b: JsVal): (r: JsVal)
    ensures IsNullish(a) ==> r == b
    ensures !IsNullish(a) ==> r == a
  {
    if IsNullish(a) then b else a
  }

  /** `String(v)`, as `+` applies it to a right operand when the left one is a
      string.  How a number is written out is a parameter. */
  function Stringify(v: JsVal, showNum: real -> string): (r: string)
    ensures v.JStr? ==> r == v.s
    decreases v, 1
  {
    match v
    case JUndefined => "undefined"
    case JNull => "null"
    case JBool(b) => if b then "true" else "false"
    case JNum(n) => showNum(n)
    case JStr(s) => s
    case JArr(items) => ItemsText(v, 0, showNum)
    case JObj(_) => "[object Object]"
  }

  /** `Array.prototype.join(",")` from index `i` on: null and undefined
      elements contribute the empty string. */
  function ItemsText(v: JsVal, i: nat, showNum: real -> string): string
    requires v.JArr? && i <= |v.items|
    decreases v, 0, |v.items| - i
  {
    if i == |v.items| then ""
    else
      var item := v.items[i];
      var piece := if IsNullish(item) then "" else Stringify(item, showNum);
      var rest := ItemsText(v, i + 1, showNum);
      if i + 1 == |v.items| then piece else piece + "," + rest
  }

  /** `Number(v)`, the conversion `*`, `Math.max` and the schema's Number
      cast apply: None is NaN.  How strings, arrays and objects convert is a
      parameter. */
  function ToNumber(v: JsVal, otherToNumber: JsVal -> Option<real>): (r: Option<real>)
    ensures v.JNum? ==> r == Some(v.n)
    ensures v.JUndefined? ==> r.None?
    ensures v.JNull? ==> r == Some(0.0)
    ensures v.JBool? ==> r == Some(if v.b then 1.0 else 0.0)
    ensures v.JStr? || v.JArr? || v.JObj? ==> r == otherToNumber(v)
  {
    match v
    case JUndefined => None
    case JNull => Some(0.0)
    case JBool(b) => Some(if b then 1.0 else 0.0)
    case JNum(n) => Some(n)
    case _ => otherToNumber(v)
  }
}
