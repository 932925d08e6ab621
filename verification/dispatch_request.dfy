/** Sending one request (src/core/dispatchRequest.ts): the config is rewritten
    in place (url, then headers, then data), handed to the transport, and the
    response body is read back. */
module Dispatch {
  import opened JsValues
  import Url
  import Util
  import Headers
  import Data

  /** transformURL: buildURL(url, params). A url that is not a string survives
      only when there is no query to add; otherwise reading url.indexOf throws. */
  function TransformedURL(h: Host, url: Value, params: Value): (r: Option<Value>)
    ensures url.Str? ==> r == Some(Str(Url.BuiltURL(h, url.s, params)))
    ensures !url.Str? && !Truthy(params) ==> r == Some(url)
  {
    if url.Str? then Some(Str(Url.BuiltURL(h, url.s, params)))
    else if !Truthy(params) || Url.QueryPairs(h, OwnEntries(params)) == [] then Some(url)
    else None
  }

  /** transformHeaders when it returns: processHeaders over the config's
      headers, or over a fresh {} when there are none. A null stays null, and
      other headers that are not an object are passed through. */
  function TransformedHeaders(headers: Value, data: Value): (r: Value)
    ensures headers.Obj? ==> r == Obj(Headers.ProcessedHeaders(headers.props, data), headers.cls)
    ensures headers.Undefined? ==> r == Obj(Headers.ProcessedHeaders([], data), "Object")
    ensures !headers.Obj? && !headers.Undefined? ==> r == headers
  {
    match headers
    case Undefined => Obj(Headers.ProcessedHeaders([], data), "Object")
    case Obj(ps, cls) => Obj(Headers.ProcessedHeaders(ps, data), cls)
    case _ => headers
  }

  /** processHeaders throws for headers that are a truthy primitive (true, a
      non-zero number, a non-empty string) when the body is a plain object:
      Content-Type reads as undefined on the primitive, and assigning it there
      is a TypeError in the strict-mode code the module compiles to. */
  predicate HeadersThrow(headers: Value, data: Value) {
    Util.IsPlainObject(data) && Truthy(headers) && (headers.Bool? || headers.Num? || headers.Str?)
  }

  /** The config after processConfig, or None when it throws. The url is
      written first, so headers and data are read from the config after that
      write; RewriteReads shows those reads see the original values, and the
      headers see the data before transformRequest. */
  function ProcessedConfig(h: Host, ps: seq<Prop>): Option<seq<Prop>> {
    match TransformedURL(h, Lookup(ps, "url"), Lookup(ps, "params"))
    case None => None
    case Some(url) =>
      if HeadersThrow(Lookup(ps, "headers"), Lookup(ps, "data")) then None
      else
        Some(Rewrite(ps, url,
          TransformedHeaders(Lookup(ps, "headers"), Lookup(ps, "data")),
          Data.TransformRequest(h, Lookup(ps, "data"))))
  }

  /** The config once processConfig has thrown: as it was when transformURL
      throws, with the new url already written when transformHeaders throws. */
  function ThrownConfig(h: Host, ps: seq<Prop>): seq<Prop> {
    match TransformedURL(h, Lookup(ps, "url"), Lookup(ps, "params"))
    case None => ps
    case Some(url) => Assign(ps, "url", url)
  }

  /** The three writes of processConfig, in order: url, headers, data. */
  function Rewrite(ps: seq<Prop>, url: Value, headers: Value, data: Value): seq<Prop> {
    Assign(Assign(Assign(ps, "url", url), "headers", headers), "data", data)
  }

  /** Writing the url does not change what headers and data read, and writing
      the headers does not change what data reads. */
  lemma RewriteReads(ps: seq<Prop>, url: Value, headers: Value)
    ensures Lookup(Assign(ps, "url", url), "headers") == Lookup(ps, "headers")
    ensures Lookup(Assign(ps, "url", url), "data") == Lookup(ps, "data")
    ensures Lookup(Assign(Assign(ps, "url", url), "headers", headers), "data") == Lookup(ps, "data")
  {
  }

  /** After the three writes each written key holds what was written. */
  lemma RewriteFields(ps: seq<Prop>, url: Value, headers: Value, data: Value)
    ensures Lookup(Rewrite(ps, url, headers, data), "url") == url
    ensures Lookup(Rewrite(ps, url, headers, data), "headers") == headers
    ensures Lookup(Rewrite(ps, url, headers, data), "data") == data
  {
    var ps1 := Assign(ps, "url", url);
    var ps2 := Assign(ps1, "headers", headers);
    assert Lookup(ps2, "url") == url;
  }

  /** The three writes leave every other key alone and add at most those keys. */
  lemma RewriteFrame(ps: seq<Prop>, url: Value, headers: Value, data: Value)
    ensures forall k :: k !in ["url", "headers", "data"] ==> Lookup(Rewrite(ps, url, headers, data), k) == Lookup(ps, k)
    ensures forall k :: k in Keys(Rewrite(ps, url, headers, data)) <==> k in Keys(ps) || k in ["url", "headers", "data"]
  {
  }

  /** transformURL, reading the config. */
  method TransformURL(h: Host, config: JsObject) returns (r: Option<Value>)
    ensures r == TransformedURL(h, config.Get("url"), config.Get("params"))
  {
    var url := config.Get("url");
    var params := config.Get("params");
    if url.Str? {
      var s := Url.BuildURL(h, url.s, params);
      return Some(Str(s));
    }
    if !Truthy(params) || Url.QueryPairs(h, OwnEntries(params)) == [] {
      return Some(url);
    }
    return None;
  }

  /** transformHeaders, reading the config: processHeaders works on an object
      that it updates in place and returns; None when it throws. */
  method TransformHeaders(config: JsObject) returns (r: Option<Value>)
    ensures HeadersThrow(config.Get("headers"), config.Get("data")) ==> r == None
    ensures !HeadersThrow(config.Get("headers"), config.Get("data"))
            ==> r == Some(TransformedHeaders(config.Get("headers"), config.Get("data")))
  {
    var headers := config.Get("headers");
    var data := config.Get("data");
    if headers.Undefined? || headers.Obj? {
      var target: JsObject;
      if headers.Obj? {
        target := new JsObject(headers.props, headers.cls);
      } else {
        target := new JsObject([], "Object");
      }
      var out := Headers.ProcessHeaders(target, data);
      r := Some(out.Snapshot());
    } else if Util.IsPlainObject(data) && Truthy(headers) && (headers.Bool? || headers.Num? || headers.Str?) {
      r := None;
    } else {
      r := Some(headers);
    }
  }

  /** processConfig: url, then headers, then data, each written back to the
      config; when transformURL throws, nothing is written. */
  method ProcessConfig(h: Host, config: JsObject) returns (thrown: Option<Value>)
    modifies config
    ensures ProcessedConfig(h, old(config.props)).None? ==> thrown == Some(TypeError) && config.props == ThrownConfig(h, old(config.props))
    ensures ProcessedConfig(h, old(config.props)).Some? ==> thrown == None && config.props == ProcessedConfig(h, old(config.props)).value
  {
    var url := TransformURL(h, config);
    if url.None? {
      return Some(TypeError);
    }
    RewriteReads(config.props, url.value, TransformedHeaders(config.Get("headers"), config.Get("data")));
    config.Set("url", url.value);
    var headers := TransformHeaders(config);
    if headers.None? {
      return Some(TypeError);
    }
    config.Set("headers", headers.value);
    config.Set("data", Data.TransformRequest(h, config.Get("data")));
    thrown := None;
  }

  /** transformResponseData: the response's data is read through transformResponse. */
  method TransformResponseData(h: Host, res: JsObject) returns (r: JsObject)
    modifies res
    ensures r == res
    ensures res.props == Assign(old(res.props), "data", Data.TransformResponse(h, Lookup(old(res.props), "data")))
  {
    res.Set("data", Data.TransformResponse(h, res.Get("data")));
    r := res;
  }

  /** The response once its data has been read back. Reading `data` off
      undefined or null throws, and so does assigning it onto a primitive in
      strict-mode code. */
  function ReadResponse(h: Host, res: Value): Outcome {
    match res
    case Obj(ps, cls) => Ok(Obj(Assign(ps, "data", Data.TransformResponse(h, Lookup(ps, "data"))), cls))
    case Undefined => Err(TypeError)
    case Null => Err(TypeError)
    case Bool(_) => Err(TypeError)
    case Num(_) => Err(TypeError)
    case Str(_) => Err(TypeError)
    case _ => Ok(res)
  }

  /** What dispatchRequest settles with for a config: a TypeError when the
      config is not an object or transformURL throws, the transport's error when
      it fails, and otherwise the transport's response with its data read back. */
  function Dispatched(h: Host, config: Value): Outcome {
    if !config.Obj? then Err(TypeError)
    else
      match ProcessedConfig(h, config.props)
      case None => Err(TypeError)
      case Some(ps) =>
        match h.xhr(Obj(ps, config.cls))
        case Err(e) => Err(e)
        case Ok(res) => ReadResponse(h, res)
  }

  /** dispatchRequest: processConfig, then the transport, then the response data. */
  method DispatchRequest(h: Host, config: JsObject) returns (o: Outcome)
    modifies config
    ensures o == Dispatched(h, old(config.Snapshot()))
    ensures ProcessedConfig(h, old(config.props)).Some? ==> config.props == ProcessedConfig(h, old(config.props)).value
    ensures ProcessedConfig(h, old(config.props)).None? ==> config.props == ThrownConfig(h, old(config.props))
  {
    var thrown := ProcessConfig(h, config);
    if thrown.Some? {
      return Err(thrown.value);
    }
    var sent := h.xhr(config.Snapshot());
    if sent.Err? {
      return sent;
    }
    if sent.v.Undefined? || sent.v.Null? || sent.v.Bool? || sent.v.Num? || sent.v.Str? {
      return Err(TypeError);
    }
    if !sent.v.Obj? {
      return sent;
    }
    var res := new JsObject(sent.v.props, sent.v.cls);
    res := TransformResponseData(h, res);
    o := Ok(res.Snapshot());
  }

  // ---------------------------------------------------------------------------
  // Properties of processConfig.

  /** processConfig writes url, headers and data and no other key: every other
      key keeps its value, and the config gains at most those three keys. */
  lemma ProcessedConfigFrame(h: Host, ps: seq<Prop>)
    requires ProcessedConfig(h, ps).Some?
    ensures forall k :: k !in ["url", "headers", "data"] ==> Lookup(ProcessedConfig(h, ps).value, k) == Lookup(ps, k)
    ensures forall k :: k in Keys(ProcessedConfig(h, ps).value) <==> k in Keys(ps) || k in ["url", "headers", "data"]
  {
    var url := TransformedURL(h, Lookup(ps, "url"), Lookup(ps, "params")).value;
    RewriteFrame(ps, url, TransformedHeaders(Lookup(ps, "headers"), Lookup(ps, "data")), Data.TransformRequest(h, Lookup(ps, "data")));
  }

  /** The new url is buildURL(old url, params). */
  lemma ProcessedURL(h: Host, ps: seq<Prop>)
    requires ProcessedConfig(h, ps).Some?
    ensures Some(Lookup(ProcessedConfig(h, ps).value, "url")) == TransformedURL(h, Lookup(ps, "url"), Lookup(ps, "params"))
  {
    var url := TransformedURL(h, Lookup(ps, "url"), Lookup(ps, "params")).value;
    RewriteFields(ps, url, TransformedHeaders(Lookup(ps, "headers"), Lookup(ps, "data")), Data.TransformRequest(h, Lookup(ps, "data")));
  }

  /** The new headers are processHeaders of the old headers (or {}) against
      the ORIGINAL data: they are computed before the data is transformed. */
  lemma ProcessedHeadersField(h: Host, ps: seq<Prop>)
    requires ProcessedConfig(h, ps).Some?
    ensures Lookup(ProcessedConfig(h, ps).value, "headers") == TransformedHeaders(Lookup(ps, "headers"), Lookup(ps, "data"))
  {
    var url := TransformedURL(h, Lookup(ps, "url"), Lookup(ps, "params")).value;
    RewriteFields(ps, url, TransformedHeaders(Lookup(ps, "headers"), Lookup(ps, "data")), Data.TransformRequest(h, Lookup(ps, "data")));
  }

  /** The new data is transformRequest of the old data. */
  lemma ProcessedDataField(h: Host, ps: seq<Prop>)
    requires ProcessedConfig(h, ps).Some?
    ensures Lookup(ProcessedConfig(h, ps).value, "data") == Data.TransformRequest(h, Lookup(ps, "data"))
  {
    var url := TransformedURL(h, Lookup(ps, "url"), Lookup(ps, "params")).value;
    RewriteFields(ps, url, TransformedHeaders(Lookup(ps, "headers"), Lookup(ps, "data")), Data.TransformRequest(h, Lookup(ps, "data")));
  }

  /** processConfig throws exactly for a url that is not a string together
      with a non-empty query, or for truthy primitive headers with a
      plain-object body. */
  lemma ProcessConfigThrows(h: Host, ps: seq<Prop>)
    ensures ProcessedConfig(h, ps).None?
            <==> (!Lookup(ps, "url").Str? && Truthy(Lookup(ps, "params"))
                  && Url.QueryPairs(h, OwnEntries(Lookup(ps, "params"))) != [])
                 || HeadersThrow(Lookup(ps, "headers"), Lookup(ps, "data"))
  {
  }

  /** When transformHeaders throws, the new url has already been written and
      nothing else has changed; when transformURL throws, nothing has. */
  lemma ThrownConfigState(h: Host, ps: seq<Prop>)
    requires ProcessedConfig(h, ps).None?
    ensures TransformedURL(h, Lookup(ps, "url"), Lookup(ps, "params")).None? ==> ThrownConfig(h, ps) == ps
    ensures Lookup(ps, "url").Str?
            ==> Lookup(ThrownConfig(h, ps), "url") == Str(Url.BuiltURL(h, Lookup(ps, "url").s, Lookup(ps, "params")))
    ensures forall k :: k != "url" ==> Lookup(ThrownConfig(h, ps), k) == Lookup(ps, k)
  {
  }

  /** A response object keeps every field but data, and its data is
      transformResponse of the transport's data. */
  lemma ReadResponseFrame(h: Host, res: Value)
    requires res.Obj?
    ensures var r := ReadResponse(h, res);
      && r.Ok? && r.v.Obj? && r.v.cls == res.cls
      && Lookup(r.v.props, "data") == Data.TransformResponse(h, Lookup(res.props, "data"))
      && (forall k :: k != "data" ==> Lookup(r.v.props, k) == Lookup(res.props, k))
  {
  }

  /** Reading the data back throws a TypeError exactly for a response that is
      undefined, null or a primitive. */
  lemma ReadResponseThrows(h: Host, res: Value)
    ensures ReadResponse(h, res).Err? <==> res.Undefined? || res.Null? || res.Bool? || res.Num? || res.Str?
    ensures ReadResponse(h, res).Err? ==> ReadResponse(h, res).e == TypeError
  {
  }
}
