/** The request entry point (src/core/Axios.ts): argument normalisation, the
    promise chain of request interceptors, dispatch and response interceptors,
    and the per-method shorthands. Promises are modelled by their settled
    outcome, and `then` by a synchronous step. */
module AxiosCore {
  import opened JsValues
  import opened Interceptors
  import Dispatch

  /** promise.then(resolved, rejected): a fulfilled value goes to `resolved`; a
      rejection goes to `rejected` when there is one and passes through otherwise. */
  function Then(o: Outcome, link: Interceptor): (r: Outcome)
    ensures o.Ok? ==> r == link.resolved(o.v)
    ensures o.Err? && link.rejected.Some? ==> r == link.rejected.value(o.e)
    ensures o.Err? && link.rejected.None? ==> r == o
  {
    match o
    case Ok(v) => link.resolved(v)
    case Err(e) => if link.rejected.Some? then link.rejected.value(e) else o
  }

  /** The outcome once the links are taken off the front of the chain one by one. */
  function RunChain(o: Outcome, chain: seq<Interceptor>): Outcome
    decreases |chain|
  {
    if chain == [] then o else RunChain(Then(o, chain[0]), chain[1..])
  }

  /** The link that sends the request: dispatchRequest, with no rejection handler. */
  function DispatchLink(h: Host): Interceptor {
    Interceptor((config: Value) => Dispatch.Dispatched(h, config), None)
  }

  function Reversed(xs: seq<Interceptor>): (r: seq<Interceptor>)
    ensures |r| == |xs|
  {
    if xs == [] then [] else [xs[|xs| - 1]] + Reversed(xs[..|xs| - 1])
  }

  /** The chain request builds: request interceptors unshifted one by one (so
      the last registered runs first), dispatch, then response interceptors pushed in order. */
  function Chain(h: Host, requests: seq<Interceptor>, responses: seq<Interceptor>): seq<Interceptor> {
    Reversed(requests) + [DispatchLink(h)] + responses
  }

  /** The config the chain starts from: with a string first argument, the given
      config (or {}) with its url set to it; otherwise the first argument itself. */
  function StartConfig(url: Value, config: Option<Value>): (r: Value)
    ensures url.Str? && config.None? ==> r == Obj([("url", url)], "Object")
    ensures url.Str? && config.Some? && config.value.Obj? ==> r.Obj? && Lookup(r.props, "url") == url
    ensures !url.Str? ==> r == url
  {
    if !url.Str? then url
    else match config
      case None => Obj(Assign([], "url", url), "Object")
      case Some(c) => if c.Obj? then Obj(Assign(c.props, "url", url), c.cls) else c
  }

  /** The config a shorthand without a body sends: the caller's config (or {})
      with method and then url assigned. */
  function MethodConfig(base: seq<Prop>, httpMethod: string, url: string): seq<Prop> {
    Assign(Assign(base, "method", Str(httpMethod)), "url", Str(url))
  }

  /** The config a shorthand with a body sends: method, url and then data assigned. */
  function DataConfig(base: seq<Prop>, httpMethod: string, url: string, data: Value): seq<Prop> {
    Assign(MethodConfig(base, httpMethod, url), "data", data)
  }

  function Base(config: Option<Value>): seq<Prop> {
    if config.Some? && config.value.Obj? then config.value.props else []
  }

  function Cls(config: Option<Value>): string {
    if config.Some? && config.value.Obj? then config.value.cls else "Object"
  }

  class Axios {
    const requestInterceptors: InterceptorManager
    const responseInterceptors: InterceptorManager

    constructor ()
      ensures fresh(requestInterceptors) && fresh(responseInterceptors)
      ensures requestInterceptors != responseInterceptors
      ensures requestInterceptors.interceptors == [] && responseInterceptors.interceptors == []
    {
      requestInterceptors := new InterceptorManager();
      responseInterceptors := new InterceptorManager();
    }

    /** The chain for the interceptors registered now. */
    function CurrentChain(h: Host): seq<Interceptor>
      reads requestInterceptors, responseInterceptors
    {
      Chain(h, Live(requestInterceptors.interceptors), Live(responseInterceptors.interceptors))
    }

    /** request(url, config): with a string url, the config (or a fresh {}) has
        its url set in place; the chain is built and run from the config. */
    method Request(h: Host, url: Value, config: JsObject?) returns (o: Outcome)
      modifies config
      ensures url.Str? && config != null ==> config.props == Assign(old(config.props), "url", url)
      ensures !url.Str? && config != null ==> config.props == old(config.props)
      ensures o == RunChain(Ok(StartConfig(url, if config == null then None else Some(old(config.Snapshot())))), CurrentChain(h))
    {
      var start: Value;
      if url.Str? {
        if config == null {
          var empty := new JsObject([], "Object");
          empty.Set("url", url);
          start := empty.Snapshot();
        } else {
          config.Set("url", url);
          start := config.Snapshot();
        }
      } else {
        start := url;
      }
      var chain := AssembleChain(h);
      o := Fold(start, chain);
    }

    /** The chain assembly: dispatch first, each request interceptor unshifted,
        each response interceptor pushed. */
    method AssembleChain(h: Host) returns (chain: seq<Interceptor>)
      ensures chain == CurrentChain(h)
    {
      chain := [DispatchLink(h)];
      var requests := requestInterceptors.ForEach();
      var i := 0;
      assert requests[..0] == [];
      while i < |requests|
        invariant 0 <= i <= |requests|
        invariant chain == Reversed(requests[..i]) + [DispatchLink(h)]
      {
        assert requests[..i + 1][..i] == requests[..i];
        chain := [requests[i]] + chain;
        i := i + 1;
      }
      assert requests[..i] == requests;
      var responses := responseInterceptors.ForEach();
      i := 0;
      while i < |responses|
        invariant 0 <= i <= |responses|
        invariant chain == Reversed(requests) + [DispatchLink(h)] + responses[..i]
      {
        assert responses[..i + 1] == responses[..i] + [responses[i]];
        chain := chain + [responses[i]];
        i := i + 1;
      }
      assert responses[..i] == responses;
    }

    /** What a shorthand without a body settles with: the chain run from the
        caller's config (or {}) with method and url assigned. */
    function WithoutDataOutcome(h: Host, httpMethod: string, url: string, config: Option<Value>): Outcome
      reads requestInterceptors, responseInterceptors
    {
      RunChain(Ok(Obj(MethodConfig(Base(config), httpMethod, url), Cls(config))), CurrentChain(h))
    }

    /** What a shorthand with a body settles with: as above, with data assigned too. */
    function WithDataOutcome(h: Host, httpMethod: string, url: string, data: Value, config: Option<Value>): Outcome
      reads requestInterceptors, responseInterceptors
    {
      RunChain(Ok(Obj(DataConfig(Base(config), httpMethod, url, data), Cls(config))), CurrentChain(h))
    }

    /** The shorthands without a body: Object.assign(config || {}, { method, url }). */
    method RequestWithoutData(h: Host, httpMethod: string, url: string, config: JsObject?) returns (o: Outcome)
      modifies config
      ensures config != null ==> config.props == MethodConfig(old(config.props), httpMethod, url)
      ensures o == WithoutDataOutcome(h, httpMethod, url, if config == null then None else Some(old(config.Snapshot())))
    {
      var target := config;
      if target == null {
        target := new JsObject([], "Object");
      }
      target.Set("method", Str(httpMethod));
      target.Set("url", Str(url));
      o := Request(h, target.Snapshot(), null);
    }

    /** The shorthands with a body: Object.assign(config || {}, { method, url, data }). */
    method RequestWithData(h: Host, httpMethod: string, url: string, data: Value, config: JsObject?) returns (o: Outcome)
      modifies config
      ensures config != null ==> config.props == DataConfig(old(config.props), httpMethod, url, data)
      ensures o == WithDataOutcome(h, httpMethod, url, data, if config == null then None else Some(old(config.Snapshot())))
    {
      var target := config;
      if target == null {
        target := new JsObject([], "Object");
      }
      target.Set("method", Str(httpMethod));
      target.Set("url", Str(url));
      target.Set("data", data);
      o := Request(h, target.Snapshot(), null);
    }

    method Get(h: Host, url: string, config: JsObject?) returns (o: Outcome)
      modifies config
      ensures config != null ==> config.props == MethodConfig(old(config.props), "get", url)
      ensures o == WithoutDataOutcome(h, "get", url, if config == null then None else Some(old(config.Snapshot())))
    {
      o := RequestWithoutData(h, "get", url, config);
    }

    method Delete(h: Host, url: string, config: JsObject?) returns (o: Outcome)
      modifies config
      ensures config != null ==> config.props == MethodConfig(old(config.props), "delete", url)
      ensures o == WithoutDataOutcome(h, "delete", url, if config == null then None else Some(old(config.Snapshot())))
    {
      o := RequestWithoutData(h, "delete", url, config);
    }

    method Head(h: Host, url: string, config: JsObject?) returns (o: Outcome)
      modifies config
      ensures config != null ==> config.props == MethodConfig(old(config.props), "head", url)
      ensures o == WithoutDataOutcome(h, "head", url, if config == null then None else Some(old(config.Snapshot())))
    {
      o := RequestWithoutData(h, "head", url, config);
    }

    method Options(h: Host, url: string, config: JsObject?) returns (o: Outcome)
      modifies config
      ensures config != null ==> config.props == MethodConfig(old(config.props), "options", url)
      ensures o == WithoutDataOutcome(h, "options", url, if config == null then None else Some(old(config.Snapshot())))
    {
      o := RequestWithoutData(h, "options", url, config);
    }

    method Post(h: Host, url: string, data: Value, config: JsObject?) returns (o: Outcome)
      modifies config
      ensures config != null ==> config.props == DataConfig(old(config.props), "post", url, data)
      ensures o == WithDataOutcome(h, "post", url, data, if config == null then None else Some(old(config.Snapshot())))
    {
      o := RequestWithData(h, "post", url, data, config);
    }

    method Put(h: Host, url: string, data: Value, config: JsObject?) returns (o: Outcome)
      modifies config
      ensures config != null ==> config.props == DataConfig(old(config.props), "put", url, data)
      ensures o == WithDataOutcome(h, "put", url, data, if config == null then None else Some(old(config.Snapshot())))
    {
      o := RequestWithData(h, "put", url, data, config);
    }

    method Patch(h: Host, url: string, data: Value, config: JsObject?) returns (o: Outcome)
      modifies config
      ensures config != null ==> config.props == DataConfig(old(config.props), "patch", url, data)
      ensures o == WithDataOutcome(h, "patch", url, data, if config == null then None else Some(old(config.Snapshot())))
    {
      o := RequestWithData(h, "patch", url, data, config);
    }
  }

  /** The while loop of request: links are shifted off the chain and chained with then. */
  method Fold(start: Value, chain: seq<Interceptor>) returns (o: Outcome)
    ensures o == RunChain(Ok(start), chain)
  {
    o := Ok(start);
    var rest := chain;
    while |rest| > 0
      invariant RunChain(o, rest) == RunChain(Ok(start), chain)
      decreases |rest|
    {
      var link := rest[0];
      rest := rest[1..];
      o := Then(o, link);
    }
  }

  // ---------------------------------------------------------------------------
  // Properties of the shorthand configs.

  /** A shorthand without a body sends the method and url it was given; every
      other key of the caller's config is kept. */
  lemma MethodConfigFields(base: seq<Prop>, httpMethod: string, url: string)
    ensures var c := MethodConfig(base, httpMethod, url);
      && Lookup(c, "method") == Str(httpMethod)
      && Lookup(c, "url") == Str(url)
      && (forall k :: k != "method" && k != "url" ==> Lookup(c, k) == Lookup(base, k))
  {
    AssignLookup(Assign(base, "method", Str(httpMethod)), "url", Str(url), "method");
  }

  /** A shorthand with a body also sends its data; every other key is kept. */
  lemma DataConfigFields(base: seq<Prop>, httpMethod: string, url: string, data: Value)
    ensures var c := DataConfig(base, httpMethod, url, data);
      && Lookup(c, "method") == Str(httpMethod)
      && Lookup(c, "url") == Str(url)
      && Lookup(c, "data") == data
      && (forall k :: k != "method" && k != "url" && k != "data" ==> Lookup(c, k) == Lookup(base, k))
  {
    MethodConfigFields(base, httpMethod, url);
    var m := MethodConfig(base, httpMethod, url);
    AssignLookup(m, "data", data, "method");
    AssignLookup(m, "data", data, "url");
  }

  // ---------------------------------------------------------------------------
  // Properties of the chain.

  lemma {:induction false} ReversedAt(xs: seq<Interceptor>, i: nat)
    requires i < |xs|
    ensures Reversed(xs)[i] == xs[|xs| - 1 - i]
  {
    if i > 0 {
      ReversedAt(xs[..|xs| - 1], i - 1);
    }
  }

  /** The chain holds the request interceptors last-registered first, then
      dispatch, then the response interceptors in registration order. */
  lemma ChainShape(h: Host, requests: seq<Interceptor>, responses: seq<Interceptor>)
    ensures var c := Chain(h, requests, responses);
      && |c| == |requests| + 1 + |responses|
      && (forall i :: 0 <= i < |requests| ==> c[i] == requests[|requests| - 1 - i])
      && c[|requests|] == DispatchLink(h)
      && (forall j :: 0 <= j < |responses| ==> c[|requests| + 1 + j] == responses[j])
  {
    forall i | 0 <= i < |requests| ensures Chain(h, requests, responses)[i] == requests[|requests| - 1 - i] {
      ReversedAt(requests, i);
    }
  }

  /** Running a chain in two parts is running it whole. */
  lemma {:induction false} RunAppend(o: Outcome, a: seq<Interceptor>, b: seq<Interceptor>)
    ensures RunChain(o, a + b) == RunChain(RunChain(o, a), b)
    decreases |a|
  {
    if a == [] {
      assert a + b == b;
    } else {
      assert (a + b)[0] == a[0] && (a + b)[1..] == a[1..] + b;
      RunAppend(Then(o, a[0]), a[1..], b);
    }
  }

  /** With no interceptors, request settles exactly as dispatchRequest does. */
  lemma NoInterceptors(h: Host, config: Value)
    ensures RunChain(Ok(config), Chain(h, [], [])) == Dispatch.Dispatched(h, config)
  {
    assert Chain(h, [], []) == [DispatchLink(h)];
    assert [DispatchLink(h)][1..] == [];
  }

  /** A rejection travels through links without a rejection handler unchanged. */
  lemma {:induction false} RejectionPassesThrough(e: Value, chain: seq<Interceptor>)
    requires forall i :: 0 <= i < |chain| ==> chain[i].rejected.None?
    ensures RunChain(Err(e), chain) == Err(e)
    decreases |chain|
  {
    if chain != [] {
      RejectionPassesThrough(e, chain[1..]);
    }
  }

  /** The request interceptors all run before dispatch, which runs before the
      response interceptors: the outcome is the response interceptors applied
      to dispatch's outcome on the request interceptors' outcome. */
  lemma RunChainStages(h: Host, start: Value, requests: seq<Interceptor>, responses: seq<Interceptor>)
    ensures RunChain(Ok(start), Chain(h, requests, responses))
            == RunChain(Then(RunChain(Ok(start), Reversed(requests)), DispatchLink(h)), responses)
  {
    var pre := Reversed(requests);
    var d := [DispatchLink(h)];
    RunAppend(Ok(start), pre + d, responses);
    RunAppend(Ok(start), pre, d);
    assert d[1..] == [];
  }
}
