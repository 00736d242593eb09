/** The JSONP decorator every query endpoint is wrapped in. */
module Jsonp {
  import opened Wrappers

  /** The error `str` raises on a Unicode text it cannot encode in ASCII. */
  datatype EncodeFailure = UnicodeEncodeError(text: string)

  /** Every character of the text is ASCII, so Python 2's `str` accepts it. */
  predicate Ascii(s: string)
  {
    forall i :: 0 <= i < |s| ==> (s[i] as int) < 128
  }

  /** The response text: `callback(body)` when a callback was given and is non-empty (an empty
      string is false in Python), the body unchanged otherwise. The callback arrives as Unicode
      and is converted with `str`, which fails on a character outside ASCII; the body is the
      endpoint's JSON text, which `json.dumps` writes in ASCII. */
  function Wrap(callback: Option<string>, body: string): (r: Result<string, EncodeFailure>)
    ensures r.Err? <==> callback.Some? && callback.value != "" && !Ascii(callback.value)
    ensures r.Err? ==> r.error == UnicodeEncodeError(callback.value)
    ensures (callback.None? || callback.value == "") ==> r == Ok(body)
    ensures r.Ok? && callback.Some? && callback.value != "" ==>
      && |r.value| == |callback.value| + |body| + 2
      && r.value[..|callback.value|] == callback.value
      && r.value[|callback.value|] == '('
      && r.value[|callback.value| + 1..|r.value| - 1] == body
      && r.value[|r.value| - 1] == ')'
  {
    if callback.Some? && callback.value != "" then
      if Ascii(callback.value) then Ok(callback.value + "(" + body + ")")
      else Err(UnicodeEncodeError(callback.value))
    else
      Ok(body)
  }

  /** The text has the shape `callback(...)`. */
  predicate WrappedBy(callback: string, r: string)
  {
    |r| >= |callback| + 2 && r[..|callback|] == callback && r[|callback|] == '(' && r[|r| - 1] == ')'
  }

  /** The body inside a response wrapped by `callback`. */
  function Unwrap(callback: string, r: string): (body: Option<string>)
    ensures body.Some? <==> WrappedBy(callback, r)
    ensures body.Some? ==> |body.value| == |r| - |callback| - 2
  {
    if WrappedBy(callback, r) then Some(r[|callback| + 1..|r| - 1]) else None
  }

  /** Wrapping with a callback can be undone. */
  lemma UnwrapWrap(callback: string, body: string)
    requires callback != "" && Ascii(callback)
    ensures Wrap(Some(callback), body).Ok?
    ensures Unwrap(callback, Wrap(Some(callback), body).value) == Some(body)
  {
  }

  /** Every text of the wrapped shape is the wrapping of its body. */
  lemma WrapUnwrap(callback: string, r: string)
    requires callback != "" && Ascii(callback) && WrappedBy(callback, r)
    ensures Wrap(Some(callback), Unwrap(callback, r).value) == Ok(r)
  {
    var body := Unwrap(callback, r).value;
    assert r == callback + "(" + body + ")";
  }
}
