/** The casts Mongoose applies to a JSON value assigned to a schema path of
    type Number, String, Boolean or Date.  A cast answers None when it fails (a
    CastError), Some(None) when it leaves the path without a value, and
    Some(Some(x)) for the stored value. */
module SchemaCast {
  import opened Wrappers
  import opened JsValue
  import opened Common

  /** A Number path: null and undefined leave it unset, so does the empty
      string; a boolean is 1 or 0; any other string is `Number(s)` and fails
      when that is NaN; arrays and objects fail.  How a string converts is
      `otherToNumber`, as for `Number(...)`. */
  function CastNumber(v: JsVal, otherToNumber: JsVal -> Option<real>): (r: Option<Option<real>>)
    ensures IsNullish(v) || v == JStr("") ==> r == Some(None)
    ensures v.JNum? ==> r == Some(Some(v.n))
    ensures v.JBool? ==> r == Some(Some(if v.b then 1.0 else 0.0))
    ensures v.JStr? && v.s != "" ==> (r.None? <==> otherToNumber(v).None?) && (r.Some? ==> r.value == otherToNumber(v))
    ensures v.JArr? || v.JObj? ==> r.None?
  {
    match v
    case JUndefined => Some(None)
    case JNull => Some(None)
    case JBool(b) => Some(Some(if b then 1.0 else 0.0))
    case JNum(n) => Some(Some(n))
    case JStr(s) =>
      if s == "" then Some(None)
      else if otherToNumber(v).None? then None
      else Some(otherToNumber(v))
    case _ => None
  }

  /** An object's `_id` when it is a non-empty string. */
  predicate HasStringId(v: JsVal) {
    v.JObj? && "_id" in v.fields && v.fields["_id"].JStr? && v.fields["_id"].s != ""
  }

  /** A String path: null and undefined leave it unset; a string is kept; a
      number or boolean becomes its `toString()`; an object with a non-empty
      string `_id` becomes that id; any other object, and an array, fails.
      How a number is written out is `showNum`. */
  function CastString(v: JsVal, showNum: real -> string): (r: Option<Option<string>>)
    ensures IsNullish(v) ==> r == Some(None)
    ensures v.JStr? ==> r == Some(Some(v.s))
    ensures v.JNum? || v.JBool? ==> r == Some(Some(Stringify(v, showNum)))
    ensures v.JObj? ==> (r.Some? <==> HasStringId(v)) && (r.Some? ==> r == Some(Some(v.fields["_id"].s)))
    ensures v.JArr? ==> r.None?
  {
    match v
    case JUndefined => Some(None)
    case JNull => Some(None)
    case JStr(s) => Some(Some(s))
    case JNum(_) => Some(Some(Stringify(v, showNum)))
    case JBool(_) => Some(Some(Stringify(v, showNum)))
    case JObj(fields) => if HasStringId(v) then Some(Some(fields["_id"].s)) else None
    case JArr(_) => None
  }

  /** The values Mongoose reads as true and as false. */
  predicate TrueValue(v: JsVal) {
    v == JBool(true) || v == JStr("true") || v == JNum(1.0) || v == JStr("1") || v == JStr("yes")
  }

  predicate FalseValue(v: JsVal) {
    v == JBool(false) || v == JStr("false") || v == JNum(0.0) || v == JStr("0") || v == JStr("no")
  }

  /** A Boolean path: null and undefined leave it unset, the true and false
      values give true and false, anything else fails. */
  function CastBoolean(v: JsVal): (r: Option<Option<bool>>)
    ensures r == Some(None) <==> IsNullish(v)
    ensures r == Some(Some(true)) <==> TrueValue(v)
    ensures r == Some(Some(false)) <==> FalseValue(v)
    ensures r.None? <==> !IsNullish(v) && !TrueValue(v) && !FalseValue(v)
  {
    if IsNullish(v) then Some(None)
    else if TrueValue(v) then Some(Some(true))
    else if FalseValue(v) then Some(Some(false))
    else None
  }

  /** A non-empty string whose number lies outside the years a Date can be built
      from (at least 275761 or below -271820): the Date cast reads it as
      milliseconds. */
  predicate MillisecondString(v: JsVal, otherToNumber: JsVal -> Option<real>) {
    v.JStr? && v.s != "" && otherToNumber(v).Some? && (otherToNumber(v).value >= 275761.0 || otherToNumber(v).value < -271820.0)
  }

  /** A Date path: null, undefined and "" leave it unset; a boolean fails; a
      millisecond string is `new Date(Number(s))`; any other value is
      `new Date(value)`, `parseDate`, and fails when that is an invalid
      date. */
  function CastDate(v: JsVal, parseDate: JsVal -> Option<Instant>, otherToNumber: JsVal -> Option<real>)
    : (r: Option<Option<Instant>>)
    ensures IsNullish(v) || v == JStr("") ==> r == Some(None)
    ensures v.JBool? ==> r.None?
    ensures MillisecondString(v, otherToNumber) ==>
              var d := parseDate(JNum(otherToNumber(v).value));
              (r.None? <==> d.None?) && (r.Some? ==> r.value == d)
    ensures !IsNullish(v) && v != JStr("") && !v.JBool? && !MillisecondString(v, otherToNumber) ==>
              (r.None? <==> parseDate(v).None?) && (r.Some? ==> r.value == parseDate(v))
  {
    if IsNullish(v) || v == JStr("") then Some(None)
    else if v.JBool? then None
    else
      var d := if MillisecondString(v, otherToNumber) then parseDate(JNum(otherToNumber(v).value)) else parseDate(v);
      if d.None? then None else Some(d)
  }

  /** A string the String cast stores is stored again unchanged: the cast is
      idempotent on what it produces. */
  lemma CastStringIdempotent(v: JsVal, showNum: real -> string)
    requires CastString(v, showNum).Some? && CastString(v, showNum).value.Some?
    ensures CastString(JStr(CastString(v, showNum).value.value), showNum) == CastString(v, showNum)
  {
  }

  /** A number the Number cast stores is stored again unchanged. */
  lemma CastNumberIdempotent(v: JsVal, otherToNumber: JsVal -> Option<real>)
    requires CastNumber(v, otherToNumber).Some? && CastNumber(v, otherToNumber).value.Some?
    ensures CastNumber(JNum(CastNumber(v, otherToNumber).value.value), otherToNumber) == CastNumber(v, otherToNumber)
  {
  }
}
