# ts-axios request pipeline in Dafny

This project models the request pipeline of ts-axios, a small promise-based
HTTP client written in TypeScript. The XMLHttpRequest transport is left out.
It covers:

- the query-string builder: `buildURL` and its relaxed percent-encoding `encode`;
- the header helpers: `normalizeHeaderName`, `processHeaders`, `parseHeaders`
  and `flattenHeaders`;
- the default body transforms `transformRequest` and `transformResponse`, and
  the user transformer pipeline `transform`;
- the per-key config merge `mergeConfig`;
- the `InterceptorManager` registry;
- the one-shot `CancelToken`;
- `dispatchRequest`, which rewrites a config in place before sending it;
- `Axios.request`, which builds the interceptor chain and folds it
  with `then` semantics, and the per-method shorthands.

The model has one module per source file:

- `Util`, `Url`, `Headers`, `Data`, `Transform`, `MergeConfig`, `Interceptors`,
  `Cancellation`, `Dispatch` and `AxiosCore`, one for each of the files above;
- `JsValues`, a shared JavaScript value model;
- `JsStrings`, the `String.prototype` operations the pipeline uses.

A JavaScript value is a datatype:

- objects keep their own properties in `Object.keys` order, plus the class
  name `Object.prototype.toString` reports;
- an object the source updates in place is a `JsObject`: a class with a
  `props` field that `Set` and `Delete` reassign;
- promises are modelled by their settled `Outcome`, `Ok(v)` or `Err(e)`,
  and `then` by a synchronous step.

Behaviour the pipeline calls but does not define is passed in as a `Host`
value of uninterpreted functions:

- `JSON.stringify` and `JSON.parse`;
- `Date.prototype.toISOString`;
- `String()` of a value that is not a string;
- the `deepMerge` helper;
- the XMLHttpRequest transport.

`encodeURIComponent` is modelled concretely: UTF-8 bytes, and the unescaped
characters of section 2.3 of RFC 3986 plus `! * ' ( )`.

Each imperative function of the source is a method with loops. Each method is
proved equal to a specification function, for example `BuildURL` to
`BuiltURL`, `ParseHeaders` to `ParsedHeaders`, `Merge` to `Merged` and
`ForEach` to `Live`. Lemmas then state what those functions promise.

The plain-object check in src/helpers/util.ts compares against a tag that no
value has (see "## Findings"). Every member that asks whether a value is a
plain object uses the intended check, `Util.IsPlainObject`. These members are
`Data.TransformRequest`, `Headers.ProcessHeaders` and
`Headers.ProcessedContentType`, `MergeConfig.DeepMergeStrat`, `Url.BuildURL`
and the members of `Dispatch` built on them. They describe the code as its
authors meant it, not as it runs.

## Model

| member | source | states |
|---|---|---|
| Util.IsDate | src/helpers/util.ts:4-6 | holds exactly for Date values and objects of class Date |
| Util.DateTagged | src/helpers/util.ts:4-6 | isDate holds exactly when the value's type tag is "[object Date]" |
| Util.IsObject | src/helpers/util.ts:9-11 | holds exactly for dates, arrays and objects, the non-null values whose typeof is "object" |
| Util.IsPlainObject | src/helpers/util.ts:14-16 | the intended check holds exactly for objects of class Object |
| Util.PlainObjectTagged | src/helpers/util.ts:14-16 | the intended check holds exactly when the type tag is "[object Object]" |
| Util.PlainObjectAsWrittenNeverHolds | src/helpers/util.ts:14-16 | the check as written, against "[object, object]", holds for no value at all |
| Util.PlainObjectAsWrittenMissesPlainObject | src/helpers/util.ts:14-16 | `{ a: 1 }` passes the intended check and fails the check as written |
| Util.Extend | src/helpers/util.ts:19-24 | returns the same `to` object, whose properties become `to`'s with each own enumerable property of `from` assigned in order: an object's properties, or an array's or string's indices with their elements |
| Util.ExtendedContents | src/helpers/util.ts:20-22 | after extend, every key of `from` holds from's value and every other key keeps its old value; the old keys keep their places; the key set is the union of both |
| Url.EncodeIsRelaxedEncoding | src/helpers/url.ts:4-13 | the chain of seven global replaces after encodeURIComponent equals a byte-by-byte encoding: unescaped characters as they are, `@ : $ , [ ]` put back, space as `+`, every other UTF-8 byte as `%XX` |
| Url.ReplaceEscape | src/helpers/url.ts:6-12 | one global replace of a `%XX` escape, case-sensitive or not, over encodeURIComponent's output substitutes exactly that escape's tokens |
| Url.ReplaceChainTokens | src/helpers/url.ts:5-12 | a chain of such replaces over encoded text is the chain of token substitutions, in the same order |
| Url.EncodeAlphabet | src/helpers/url.ts:4-13 | encode's output holds only unescaped characters, `%` escapes and `@ : $ , + [ ]`; never `#`, `&` or `=` |
| Url.EncodeLeavesNoRestoredEscape | src/helpers/url.ts:4-13 | encode's output never contains `%40`, `%3A`, `%24`, `%2C`, `%20`, `%5B` or `%5D`, in either letter case |
| Url.EncodeVerbatim | src/helpers/url.ts:4-13 | text made of unescaped characters and `@ : $ , [ ]` comes out of encode unchanged |
| Url.EncodeSpaces | src/helpers/url.ts:10 | each space comes out of encode as one `+` |
| Url.EncodeAppend | src/helpers/url.ts:4-13 | encoding a concatenation is concatenating the encodings, although the replaces run over the whole text |
| Url.PairShape | src/helpers/url.ts:41 | every `key=value` pair is non-empty, holds no `#` or `&`, and splits at `=` into exactly the encoded key and the encoded value |
| Url.ParamPairsOfValues | src/helpers/url.ts:23-42 | a value that is neither null nor undefined gives one pair per array element under `key[]`, in element order, or one pair for itself |
| Url.NullParamsAddNothing | src/helpers/url.ts:20-56 | when every parameter is null or undefined there are no pairs and the url comes back unchanged, fragment included |
| Url.QueryPairsAppend | src/helpers/url.ts:20-43 | the pairs of a sequence of parameters are the pairs of each part, in key order |
| Url.QueryPairsQueryParts | src/helpers/url.ts:20-43 | every pair buildURL collects is a query part: non-empty, with no `#` and no `&` |
| Url.PushPairs | src/helpers/url.ts:33-42 | the inner loop appends one pair per value, in order, to the collected pairs |
| Url.BuildURL | src/helpers/url.ts:16-57 | the loops compute `BuiltURL`; falsy params return the url unchanged |
| Url.BuiltURLFromPairs | src/helpers/url.ts:45-56 | the joined query is empty exactly when there are no pairs, and then the url is returned as it was |
| Url.StripFragmentShape | src/helpers/url.ts:49-52 | the url with its fragment dropped is the longest prefix without `#`: the whole url, or the part before its first `#` |
| Url.BuiltURLQuery | src/helpers/url.ts:45-56 | with at least one pair, the result is the fragment-free url, then `&` if that part holds a `?` and `?` otherwise, then a query that splits at `&` into exactly the pairs |
| Url.BuiltURLNoFragment | src/helpers/url.ts:47-53 | with at least one pair, the result holds no `#` |
| Headers.NormalizeHeaderName | src/helpers/headers.ts:5-13 | missing headers are left alone; otherwise the loop over the starting keys leaves the headers equal to `Normalized` |
| Headers.NormalizedHeaders | src/helpers/headers.ts:7-12 | the keys stay distinct; no key remains that spells the name in another letter case; every key that is not a spelling of the name keeps its presence and value; with no variant spelling the headers are unchanged |
| Headers.NormalizedName | src/helpers/headers.ts:8-10 | when some key is a variant spelling, the name is present and holds the value of the last variant in key order |
| Headers.NormalizeFoldValue | src/helpers/headers.ts:7-12 | over distinct visited keys, the name ends with the starting value of the last variant visited |
| Headers.ProcessHeaders | src/helpers/headers.ts:16-24 | returns the same headers object, whose properties become `ProcessedHeaders` of the old ones |
| Headers.ProcessedContentType | src/helpers/headers.ts:17-22 | a truthy Content-Type is never overwritten; for a plain-object body without one the JSON content type is added, so Content-Type is then truthy; other bodies get only the normalisation; no other key changes |
| Headers.ParseHeaders | src/helpers/headers.ts:27-40 | the loop over the CRLF-split lines computes `ParsedHeaders`; an empty or missing block gives the empty object |
| Headers.ParseLineFirstColon | src/helpers/headers.ts:32-35 | a line's key is the trimmed, lower-cased text before its first `:` and its value the trimmed text after it, colons included; a line with an empty key is skipped |
| Headers.ParseLineKey | src/helpers/headers.ts:33-34 | every parsed key is non-empty, has no upper-case letter and no surrounding white space |
| Headers.CollectDistinct | src/helpers/headers.ts:31-37 | the parsed object never holds a key twice |
| Headers.CollectAbsent | src/helpers/headers.ts:31-37 | a key that no line names is absent |
| Headers.CollectLastWins | src/helpers/headers.ts:35-36 | a key holds the value of the last line that names it |
| Headers.ParsedHeadersFacts | src/helpers/headers.ts:27-40 | a parsed block has distinct, clean keys, each holding a string |
| Headers.FlattenHeaders | src/helpers/headers.ts:43-56 | falsy headers come back as they are; otherwise the host's deep merge of common, the method's group and the headers, with every group key deleted |
| Headers.UngroupedFacts | src/helpers/headers.ts:50-53 | deleting the groups removes exactly those keys; every other key keeps its presence and value |
| Headers.FlattenedHasNoGroups | src/helpers/headers.ts:50-53 | the flattened headers hold none of delete, get, head, options, post, put, patch and common |
| Data.TransformRequest | src/helpers/data.ts:4-9 | a plain object becomes the string JSON.stringify gives; any other value is sent unchanged |
| Data.TransformResponse | src/helpers/data.ts:12-21 | a non-string is kept; a string that parses becomes the parsed value; a string that fails to parse is kept as it is, with no error |
| Data.TransformRequestIdempotent | src/helpers/data.ts:4-9 | transformRequest is idempotent: the JSON text it produces is not a plain object, so a second pass leaves it unchanged |
| Data.RequestResponseRoundTrip | src/helpers/data.ts:4-21 | for a non-string body whose JSON text parses back to it, transformResponse undoes transformRequest |
| Transform.Listed | src/core/transform.ts:12-15 | no transformers give the empty list; a lone function is wrapped as a one-element list; an array is used as given |
| Transform.Run | src/core/transform.ts:7-20 | the loop computes `Transformed`: the transformers run left to right, each on the previous result; the first exception a transformer throws ends the loop and is what transform throws |
| Transform.NothingToRun | src/core/transform.ts:12-19 | with no transformers, or an empty list, transform returns the data unchanged and cannot throw |
| Transform.OneIsMany | src/core/transform.ts:13-15 | a lone function behaves exactly as the one-element list, and is `fn(data, headers)` |
| Transform.FoldAppend | src/core/transform.ts:16-19 | running `f ++ g` is running `g` on the result of `f`, with the same headers; an exception from `f` is the result and `g` never runs |
| Transform.FoldFront | src/core/transform.ts:16-19 | the first transformer runs first, on the original data; the rest run on its result unless it throws |
| Transform.FirstThrowPropagates | src/core/transform.ts:16-19 | when transformer i throws on the result of the ones before it, transform throws that same exception and no later transformer runs |
| Transform.TransformCompose | src/core/transform.ts:16-19 | transform over `f ++ g` is transform over `f`, then, when that returns, transform over `g` on its result; when `f` throws, that exception |
| MergeConfig.DefaultStrat | src/core/mergeConfig.ts:7-9 | the request's value when it is defined, the default's otherwise |
| MergeConfig.FromVal2Strat | src/core/mergeConfig.ts:12-16 | always the request's value, undefined included; the default is never used |
| MergeConfig.DeepMergeStrat | src/core/mergeConfig.ts:23-33 | a plain-object request value is deep-merged over the default; another defined request value wins; without one, a plain-object default is deep-copied and any other default kept |
| MergeConfig.StrategyTable | src/core/mergeConfig.ts:17-37 | url, params and data take the request-only strategy; headers and auth are deep-merged; every other key uses the default strategy |
| MergeConfig.Config2 | src/core/mergeConfig.ts:44-46 | a falsy request config is read as `{}` |
| MergeConfig.Merge | src/core/mergeConfig.ts:40-66 | the two loops fill a fresh plain object equal to `Merged` |
| MergeConfig.MergeEach | src/core/mergeConfig.ts:50-52 | the first loop merges every request key in order |
| MergeConfig.MergeEachMissing | src/core/mergeConfig.ts:54-58 | the second loop merges each default key whose request value is falsy |
| MergeConfig.MergeField | src/core/mergeConfig.ts:60-63 | writes the selected strategy's value for one key and changes nothing else |
| MergeConfig.MergeAllLookup | src/core/mergeConfig.ts:50-52 | after the first loop a visited key holds its merged value and any other key is as before |
| MergeConfig.MergeAllHas | src/core/mergeConfig.ts:50-52 | after the first loop the keys are the old ones plus the visited ones |
| MergeConfig.MergeMissingLookup | src/core/mergeConfig.ts:54-58 | after the second loop a visited key with a falsy request value holds its merged value and any other key is as before |
| MergeConfig.MergeMissingHas | src/core/mergeConfig.ts:54-58 | after the second loop the keys are the old ones plus the visited keys whose request value is falsy |
| MergeConfig.MergedKeys | src/core/mergeConfig.ts:50-58 | the merged keys are exactly the union of the default's keys and the request's keys |
| MergeConfig.MergedValue | src/core/mergeConfig.ts:50-63 | every merged key holds its strategy applied to the two configs' values, even when the second loop merges it again |
| MergeConfig.RequestOnlyKeys | src/core/mergeConfig.ts:17-20 | url, params and data in the result are the request's values, whatever the default holds |
| MergeConfig.DefaultsFillIn | src/core/mergeConfig.ts:54-63 | a default-strategy key that only the default config has keeps the default's value |
| MergeConfig.MissingConfig2 | src/core/mergeConfig.ts:44-46 | merging with a missing request config is merging with `{}` |
| Interceptors.InterceptorManager.constructor | src/core/InterceptorManager.ts:11-14 | a new manager has no slots |
| Interceptors.InterceptorManager.Use | src/core/InterceptorManager.ts:17-23 | appends one slot and leaves the others; the id returned is the old length, the new slot's index |
| Interceptors.InterceptorManager.Eject | src/core/InterceptorManager.ts:36-40 | the slots become `Ejected`: the same length, only slot id emptied |
| Interceptors.Ejected | src/core/InterceptorManager.ts:36-40 | the length never changes, no other slot changes, and an in-range slot is empty afterwards |
| Interceptors.InterceptorManager.ForEach | src/core/InterceptorManager.ts:26-32 | visits exactly the occupied slots, in index order (`Live`) |
| Interceptors.LiveMembers | src/core/InterceptorManager.ts:26-32 | an interceptor is visited exactly when some slot holds it |
| Interceptors.LiveAppend | src/core/InterceptorManager.ts:26-32 | visiting concatenated slots visits the first part, then the second |
| Interceptors.LiveOrder | src/core/InterceptorManager.ts:26-32 | slots before an index are visited before slots after it |
| Interceptors.UseAppendsLive | src/core/InterceptorManager.ts:17-32 | after use, the new interceptor is visited last, after all earlier ones |
| Interceptors.EjectIdempotent | src/core/InterceptorManager.ts:36-40 | ejecting the same id twice is ejecting it once |
| Interceptors.EjectNoOp | src/core/InterceptorManager.ts:37 | ejecting an out-of-range or already empty slot changes nothing |
| Interceptors.EjectDropsOne | src/core/InterceptorManager.ts:36-40 | ejecting an occupied slot removes exactly that interceptor from the visit and keeps the rest in order |
| Cancellation.CancelStep | src/cancel/CancelToken.ts:22-26 | the first cancel sets the reason to `Cancel(message)`; a later cancel keeps the reason it finds |
| Cancellation.FirstCancelWins | src/cancel/CancelToken.ts:22-26 | after any number of cancel calls on a fresh token, the reason holds the first call's message |
| Cancellation.CancelledStaysCancelled | src/cancel/CancelToken.ts:23 | once a reason is set, no number of further calls changes it |
| Cancellation.CancelToken.constructor | src/cancel/CancelToken.ts:12-18 | a fresh token has no reason and a pending promise |
| Cancellation.CancelToken.ThrowIfRequested | src/cancel/CancelToken.ts:29-32 | throws exactly when a reason is set, and throws that reason |
| Cancellation.CancelToken.Resolve | src/cancel/CancelToken.ts:16-18 | called with the reason just recorded, it settles a pending promise with it and leaves a settled one alone; the token stays valid, its promise holding exactly the reason |
| Cancellation.Canceler.Invoke | src/cancel/CancelToken.ts:22-26 | the token's reason steps by `CancelStep`; the promise is resolved exactly when the reason is set, and with it; a later call leaves the promise alone |
| Cancellation.Source | src/cancel/CancelToken.ts:34-45 | a fresh token with no reason, and a cancel function bound to that same token |
| Dispatch.TransformedURL | src/core/dispatchRequest.ts:21-24 | a string url becomes buildURL(url, params); a non-string url is kept when there is no query, and otherwise reading it throws |
| Dispatch.TransformedHeaders | src/core/dispatchRequest.ts:32-35 | when transformHeaders returns: object headers, or `{}` for missing headers, go through processHeaders against the config's data; null, falsy and other non-object headers pass through |
| Dispatch.TransformURL | src/core/dispatchRequest.ts:21-24 | reads url and params from the config and computes `TransformedURL` |
| Dispatch.TransformHeaders | src/core/dispatchRequest.ts:32-35 | reads headers and data from the config; throws exactly for truthy primitive headers with a plain-object body, and otherwise returns `TransformedHeaders` |
| Dispatch.ProcessConfig | src/core/dispatchRequest.ts:14-18 | writes url, then headers, then data into the config, giving `ProcessedConfig`; when it throws, the config is `ThrownConfig`: untouched when transformURL throws, with only the new url written when transformHeaders throws |
| Dispatch.ProcessedConfigFrame | src/core/dispatchRequest.ts:14-18 | processConfig changes no key other than url, headers and data, and adds no other key |
| Dispatch.ProcessedURL | src/core/dispatchRequest.ts:14-24 | the new url is buildURL of the old url and params |
| Dispatch.ProcessedHeadersField | src/core/dispatchRequest.ts:14-35 | the new headers are processHeaders of the old headers, or `{}`, against the original data, not the transformed data |
| Dispatch.ProcessedDataField | src/core/dispatchRequest.ts:14-29 | the new data is transformRequest of the old data |
| Dispatch.ProcessConfigThrows | src/core/dispatchRequest.ts:14-35 | processConfig throws exactly when the url is not a string and the params produce a non-empty query, or when the headers are a truthy primitive and the body a plain object |
| Dispatch.ThrownConfigState | src/core/dispatchRequest.ts:14-18 | after a throw in processConfig, no key other than url has changed; a string url already holds buildURL's result when the throw comes from transformHeaders; a throw from transformURL leaves the config as it was |
| Dispatch.TransformResponseData | src/core/dispatchRequest.ts:38-41 | returns the same response, whose data becomes transformResponse of its data |
| Dispatch.ReadResponseFrame | src/core/dispatchRequest.ts:38-41 | a response object is read back without error; it keeps its class and every key but data, and its data is transformResponse of the transport's data |
| Dispatch.ReadResponseThrows | src/core/dispatchRequest.ts:38-41 | reading the data back throws a TypeError exactly when the transport's response is undefined, null or a primitive |
| Dispatch.DispatchRequest | src/core/dispatchRequest.ts:7-12 | settles with `Dispatched` of the config: a throw from processConfig, the transport's error, a throw while reading the response, or the response with its data read back; the config is left rewritten, or in its `ThrownConfig` state after a throw |
| AxiosCore.Then | src/core/Axios.ts:71-74 | a fulfilled value goes to `resolved`; a rejection goes to `rejected` when there is one and otherwise passes through unchanged |
| AxiosCore.StartConfig | src/core/Axios.ts:35-42 | a string first argument is written as the url of the config, or of `{}` when there is none; any other first argument is itself the config |
| AxiosCore.Axios.constructor | src/core/Axios.ts:27-32 | two distinct, fresh, empty interceptor managers |
| AxiosCore.Axios.Request | src/core/Axios.ts:34-77 | with a string url, the caller's config gets that url in place; with any other first argument, the second argument is left untouched; the outcome is the chain for the current interceptors, run from the start config |
| AxiosCore.Axios.AssembleChain | src/core/Axios.ts:49-64 | unshifting each request interceptor and pushing each response interceptor around dispatch gives `Chain` |
| AxiosCore.Fold | src/core/Axios.ts:67-76 | the while loop shifts every link off the chain and settles with the chain run from `Ok(config)` |
| AxiosCore.ChainShape | src/core/Axios.ts:49-64 | the chain holds the request interceptors last-registered first, then dispatch with no rejection handler, then the response interceptors in registration order; its length is the sum of the two counts plus one |
| AxiosCore.RunAppend | src/core/Axios.ts:71-74 | running a chain in two parts is running it whole |
| AxiosCore.RunChainStages | src/core/Axios.ts:49-76 | the outcome is the response interceptors run over dispatch's outcome, which is run on the request interceptors' outcome |
| AxiosCore.NoInterceptors | src/core/Axios.ts:49-76 | with no interceptors, request settles exactly as dispatchRequest does |
| AxiosCore.RejectionPassesThrough | src/core/Axios.ts:71-74 | a rejection passes unchanged through links without a rejection handler |
| AxiosCore.Axios.RequestWithoutData | src/core/Axios.ts:107-114 | method and url are assigned onto the caller's config, or onto `{}`, and that config runs through the chain |
| AxiosCore.Axios.RequestWithData | src/core/Axios.ts:116-124 | method, url and data are assigned onto the caller's config, or onto `{}`, and that config runs through the chain |
| AxiosCore.MethodConfigFields | src/core/Axios.ts:107-114 | the config sent holds the given method and url, and every other key of the caller's config |
| AxiosCore.DataConfigFields | src/core/Axios.ts:116-124 | the config sent holds the given method, url and data, and every other key of the caller's config |
| AxiosCore.Axios.Get | src/core/Axios.ts:79-81 | the "get" shorthand: the caller's config gains method "get" and the url, and the outcome is that config's run |
| AxiosCore.Axios.Delete | src/core/Axios.ts:83-85 | the same for "delete" |
| AxiosCore.Axios.Head | src/core/Axios.ts:87-89 | the same for "head" |
| AxiosCore.Axios.Options | src/core/Axios.ts:91-93 | the same for "options" |
| AxiosCore.Axios.Post | src/core/Axios.ts:95-97 | the "post" shorthand: the caller's config gains method "post", the url and the data, and the outcome is that config's run |
| AxiosCore.Axios.Put | src/core/Axios.ts:99-101 | the same for "put" |
| AxiosCore.Axios.Patch | src/core/Axios.ts:103-105 | the same for "patch" |

## Left out

- Numbers are integers; floating point, NaN and the text `String()` gives a number are not modelled, and `String()` of every non-string value is the host's.
- Case conversion in `toUpperCase`/`toLowerCase` covers ASCII letters only, which are all that matter for header names.
- `Object.keys` puts integer-like keys first in JavaScript; the model keeps every object's keys in insertion order.
- `for...in` also visits inherited enumerable properties; `extend` and `mergeConfig` visit only own properties.
- MergeConfig.Merge: a null or undefined `config1` makes `config1[key]` throw a TypeError in the source as soon as `config2` has a key; the model reads such a config as having no properties and returns a merged object. The TypeScript signature requires an object for `config1`.
- JSON, `Date.prototype.toISOString`, `deepMerge` and the transport are uninterpreted host functions. `deepMerge` is imported from src/helpers/util.ts, but that file has no such function, so no "later argument wins" rule is assumed.
- MergeConfig.DeepMergeStrat: states only which arguments reach deepMerge, not what the merged object holds, because deepMerge is not part of this model.
- `encodeURIComponent` throws URIError on lone surrogates; Dafny characters are Unicode scalar values, so that case cannot arise.
- Promise asynchrony and microtask order are not modelled: `then` is a synchronous step over `Outcome`, so a throw and a rejected promise are the same.
- Dispatch.Dispatched: arrays and functions used as a config are objects in JavaScript; the model treats every non-object config as one that makes processConfig throw.
- AxiosCore.Axios.Request: the config argument is an object or missing; a truthy config that is not an object is not modelled.
- Dispatch.DispatchRequest: the request chain hands each interceptor a copy of the config. An interceptor that keeps the config object and changes it later is not modelled.
- Request (AxiosCore.Axios.Request, and through it AxiosCore.Axios.RequestWithoutData and AxiosCore.Axios.RequestWithData): the chain runs on a copy of the caller's config, and objects nested in a config are values. In the source, dispatchRequest gets the caller's own object through the chain and rewrites its url, headers and data in place. A caller holding that object sees the rewrite; the model's caller does not.
- TransformHeaders (Dispatch.TransformHeaders): processHeaders runs on a copy of the config's headers object. In the source it renames or adds Content-Type on the caller's own headers object, and a caller reusing that object sees the change; the model does not capture that aliasing.
- TransformedHeaders (Dispatch.TransformedHeaders): arrays, functions and dates carry no properties in the model. With a plain-object body the source adds Content-Type to such headers; the model passes them through unchanged.
- TransformedURL (Dispatch.TransformedURL and Dispatch.ProcessConfigThrows): arrays have indexOf and slice, so an array url with a non-empty query does not throw in the source: it is converted to text and the query is appended. The model treats it like every other non-string url and throws.
- ReadResponse (Dispatch.ReadResponse): an array, function or date response gains an own `data` property in the source; the model returns it unchanged.
- TransformRequest (Data.TransformRequest, and Url.SerializeParam in buildURL): JSON.stringify throws on cyclic objects and toISOString on an invalid date; the host functions are total, so those throws are not modelled. A failed JSON.parse in transformResponse is modelled.
- Cancellation.CancelToken.constructor: the executor is user code; `Source` models the one executor the library itself passes, which keeps the cancel function.
- The `Cancel` class is not part of this model; it is a record holding an optional message.
- `parseHeaders` returns an object created without a prototype; it is modelled as a plain object with the same own properties.
- src/core/xhr.ts, src/xhr.ts, src/helpers/cookie.ts, src/helpers/error.ts, src/axios.ts and src/types/index.ts are not part of this model. They are the transport, browser I/O, an error record, the callable-instance wiring around `extend`, and type declarations.

## Findings

| source | as written | input that shows it | evidently intended | confidence | as-written member | corrected member |
|---|---|---|---|---|---|---|
| src/helpers/util.ts:14-16 | `isPlainObject` compares the type tag against `'[object, object]'`, which no `Object.prototype.toString` tag equals. transformRequest, processHeaders, deepMergeStrat and buildURL then never treat a value as a plain object. | `{ a: 1 }`, whose tag is `[object Object]` | the tag `[object Object]` | not executed | Util.PlainObjectAsWrittenMissesPlainObject | Util.PlainObjectTagged |
