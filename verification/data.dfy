/** The default body transforms (src/helpers/data.ts): plain objects are sent
    as JSON text, and response text is read back as JSON when it parses. */
module Data {
  import opened JsValues
  import Util

  /** transformRequest: a plain object becomes its JSON text; anything else is sent as it is. */
  function TransformRequest(h: Host, data: Value): (r: Value)
    ensures Util.IsPlainObject(data) ==> r == Str(h.stringify(data))
    ensures !Util.IsPlainObject(data) ==> r == data
  {
    if Util.IsPlainObject(data) then Str(h.stringify(data)) else data
  }

  /** transformResponse: text that parses as JSON becomes the parsed value; text
      that does not parse, and every value that is not text, comes back as it is. */
  function TransformResponse(h: Host, data: Value): (r: Value)
    ensures !data.Str? ==> r == data
    ensures data.Str? && h.parse(data.s).Some? ==> r == h.parse(data.s).value
    ensures data.Str? && h.parse(data.s).None? ==> r == data
  {
    if data.Str? && h.parse(data.s).Some? then h.parse(data.s).value else data
  }

  /** The request transform is idempotent: the JSON text it produces is not a
      plain object, so a second pass sends it unchanged. */
  lemma TransformRequestIdempotent(h: Host, data: Value)
    ensures TransformRequest(h, TransformRequest(h, data)) == TransformRequest(h, data)
  {
  }

  /** A body sent by the request transform and read back by the response
      transform is the body itself, provided JSON.parse undoes JSON.stringify
      on it; a string body is the one exception, since it goes out as it is and
      comes back parsed. */
  lemma RequestResponseRoundTrip(h: Host, data: Value)
    requires !data.Str?
    requires Util.IsPlainObject(data) ==> h.parse(h.stringify(data)) == Some(data)
    ensures TransformResponse(h, TransformRequest(h, data)) == data
  {
  }
}
