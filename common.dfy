/** Identifiers, instants and the JSON error responses shared by every
    route handler. */
module Common {
  import opened Wrappers
  import opened JsString

  /** Document ids (ObjectIds) in their string form. */
  type Id = string

  /** The id text Mongoose's ObjectId cast accepts: 24 hexadecimal digits
      (in either letter case). */
  predicate IsObjectIdText(text: string) {
    |text| == 24 && forall k :: 0 <= k < |text| ==> IsHexDigit(text[k])
  }

  /** The cast of `findById` and `findByIdAndDelete` for an id given as text:
      the id in its canonical lower-case form, or None where the query
      throws a CastError. */
  function CastObjectId(text: string): (r: Option<Id>)
    ensures r.Some? <==> IsObjectIdText(text)
    ensures r.Some? ==> |r.value| == 24 && forall k :: 0 <= k < 24 ==> r.value[k] == LowerChar(text[k])
  {
    if IsObjectIdText(text) then Some(Lower(text)) else None
  }

  /** A cast id casts to itself, and texts that differ only in letter case
      name the same document. */
  lemma CastObjectIdCanonical(a: string, b: string)
    requires CastObjectId(a).Some?
    requires Lower(a) == Lower(b)
    ensures CastObjectId(CastObjectId(a).value) == CastObjectId(a)
    ensures CastObjectId(b) == CastObjectId(a)
  {
    var id := CastObjectId(a).value;
    assert |b| == 24;
    forall k | 0 <= k < 24
      ensures IsHexDigit(b[k]) && IsHexDigit(id[k]) && LowerChar(id[k]) == id[k]
    {
      assert LowerChar(b[k]) == LowerChar(a[k]);
      assert IsHexDigit(a[k]);
    }
    assert Lower(id) == id;
  }

  /** An instant, in milliseconds since the epoch; "now" is always a parameter. */
  type Instant = int

  /** A non-2xx response: its HTTP status and the body's `error` string. */
  datatype HttpError = HttpError(status: int, message: string)
}
