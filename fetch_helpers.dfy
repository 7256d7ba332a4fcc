/**
 * The option fetcher: dispatch on the option-source descriptor, the request
 * each declarative descriptor builds, how a response (or a failure) becomes
 * an option list, and the stock response transformers. The network itself
 * is a parameter: `fetch` and the axios instance are functions from the
 * request to a response or a failure.
 */
module FetchHelpers {
  import opened JsValues
  import opened FilterTypes

  // ---------------------------------------------------------------------------
  // Shared pieces
  // ---------------------------------------------------------------------------

  /** `typeof config.url === "function" ? config.url(dependencies) : config.url` */
  function ResolveUrl(url: UrlSource, deps: Value): (r: Completion<string>)
    ensures url.StaticUrl? ==> r == Normal(url.url)
    ensures url.UrlFunction? ==> r == url.build(deps)
  {
    match url
    case StaticUrl(u) => Normal(u)
    case UrlFunction(build) => build(deps)
  }

  /** A payload field that may be a function of the dependencies. */
  function ResolvePayload(p: PayloadSource, deps: Value): (r: Completion<Value>)
    ensures p.StaticPayload? ==> r == Normal(p.payload)
    ensures p.PayloadFunction? ==> r == p.build(deps)
  {
    match p
    case StaticPayload(v) => Normal(v)
    case PayloadFunction(build) => build(deps)
  }

  /** `config.method || "GET"` */
  function MethodOrGet(httpMethod: Option<string>): (r: string)
    ensures r != ""
    ensures httpMethod.Some? && httpMethod.value != "" ==> r == httpMethod.value
    ensures httpMethod.None? || httpMethod.value == "" ==> r == "GET"
  {
    if httpMethod.Some? && httpMethod.value != "" then httpMethod.value else "GET"
  }

  /** The empty option list every caught failure is reduced to. */
  const NoOptions: Value := Arr([])

  /** Applying an optional `transformResponse`: present, its result; absent, the fallback. */
  function Transformed(transform: Option<Transform>, data: Value, fallback: Value): (r: Completion<Value>)
    ensures transform.Some? ==> r == transform.value(data)
    ensures transform.None? ==> r == Normal(fallback)
  {
    match transform
    case Some(t) => t(data)
    case None => Normal(fallback)
  }

  /** `try { ... } catch { return []; }` around a computation. */
  function Caught(c: Completion<Value>): (r: Value)
    ensures c.Abrupt? ==> r == NoOptions
    ensures c.Normal? ==> r == c.value
  {
    match c
    case Normal(v) => v
    case Abrupt => NoOptions
  }

  // ---------------------------------------------------------------------------
  // handleFetchAPI
  // ---------------------------------------------------------------------------

  /** What `fetch(url, options)` is called with; the body is the value later JSON-encoded. */
  datatype FetchRequest = FetchRequest(url: string, httpMethod: string, headers: seq<Entry<string>>, body: Option<Value>)

  /** A response: its status and what `response.json()` settles to. */
  datatype HttpResponse = HttpResponse(status: int, json: Completion<Value>)

  /** The network: a request settles to a response, or rejects. */
  type FetchTransport = FetchRequest -> Completion<HttpResponse>

  /** `response.ok` */
  predicate Ok(status: int)
  {
    200 <= status <= 299
  }

  const JsonContentType: seq<Entry<string>> := [Entry("Content-Type", "application/json")]

  /** `{ "Content-Type": "application/json", ...config.headers }` */
  function FetchHeaders(headers: Option<seq<Entry<string>>>): (r: seq<Entry<string>>)
  {
    match headers
    case None => JsonContentType
    case Some(hs) => Assign(JsonContentType, hs)
  }

  /** The caller's headers win; `Content-Type` defaults to JSON and nothing else is added. */
  lemma FetchHeadersLookup(headers: Option<seq<Entry<string>>>, k: string)
    ensures Lookup(FetchHeaders(headers), k) ==
      if headers.Some? && LastLookup(headers.value, k).Some? then LastLookup(headers.value, k)
      else if k == "Content-Type" then Some("application/json")
      else None
  {
    if headers.Some? {
      AssignLookup(JsonContentType, headers.value, k);
    }
  }

  /** The body to send: `config.body` (or its result) when `config.body` is truthy, else none. */
  function FetchBody(body: PayloadSource, deps: Value): (r: Completion<Option<Value>>)
    ensures body.StaticPayload? && !Truthy(body.payload) ==> r == Normal(None)
    ensures body.StaticPayload? && Truthy(body.payload) ==> r == Normal(Some(body.payload))
    ensures body.PayloadFunction? ==>
      (r.Abrupt? <==> body.build(deps).Abrupt?) && (r.Normal? ==> r.value == Some(body.build(deps).value))
  {
    match body
    case StaticPayload(v) => if Truthy(v) then Normal(Some(v)) else Normal(None)
    case PayloadFunction(build) =>
      match build(deps)
      case Normal(v) => Normal(Some(v))
      case Abrupt => Abrupt
  }

  /** The request options `handleFetchAPI` builds. */
  function BuildFetchRequest(url: string, httpMethod: Option<string>, headers: Option<seq<Entry<string>>>,
                             body: Option<Value>): (r: FetchRequest)
    ensures r.url == url && r.httpMethod == MethodOrGet(httpMethod) && r.body == body
    ensures r.headers == FetchHeaders(headers)
  {
    FetchRequest(url, MethodOrGet(httpMethod), FetchHeaders(headers), body)
  }

  /** Without a transform, the parsed data is kept only when it is an array. */
  function FetchFallback(data: Value): (r: Value)
    ensures r.Arr?
    ensures data.Arr? ==> r == data
    ensures !data.Arr? ==> r == NoOptions
  {
    if data.Arr? then data else NoOptions
  }

  /**
   * `handleFetchAPI`: resolve the url, build the request, call the network;
   * a non-ok status, any failure along the way (url or body function, the
   * network, `json()`, the transform) gives the empty list.
   */
  function HandleFetchApi(config: FetchOptionsConfig, deps: Value, transport: FetchTransport): (r: Value)
    requires config.FetchConfig?
  {
    match ResolveUrl(config.url, deps)
    case Abrupt => NoOptions
    case Normal(url) =>
      match FetchBody(config.body, deps)
      case Abrupt => NoOptions
      case Normal(body) =>
        var request := BuildFetchRequest(url, config.httpMethod, config.headers, body);
        match transport(request)
        case Abrupt => NoOptions
        case Normal(response) =>
          if !Ok(response.status) then NoOptions
          else
            match response.json
            case Abrupt => NoOptions
            case Normal(data) => Caught(Transformed(config.transformResponse, data, FetchFallback(data)))
  }

  /** The request `handleFetchAPI` sends, when url and body resolve. */
  function SentFetchRequest(config: FetchOptionsConfig, deps: Value): (r: Option<FetchRequest>)
    requires config.FetchConfig?
    ensures r.Some? <==> ResolveUrl(config.url, deps).Normal? && FetchBody(config.body, deps).Normal?
  {
    match ResolveUrl(config.url, deps)
    case Abrupt => None
    case Normal(url) =>
      match FetchBody(config.body, deps)
      case Abrupt => None
      case Normal(body) => Some(BuildFetchRequest(url, config.httpMethod, config.headers, body))
  }

  /**
   * The outcome of `handleFetchAPI` in terms of the response: the empty list
   * unless the request was sent, settled with an ok status and parsed;
   * then the transform's result, or the data when it is an array.
   */
  lemma FetchOutcome(config: FetchOptionsConfig, deps: Value, transport: FetchTransport)
    requires config.FetchConfig?
    ensures var sent := SentFetchRequest(config, deps);
      HandleFetchApi(config, deps, transport) ==
        if sent.None? || transport(sent.value).Abrupt? || !Ok(transport(sent.value).value.status)
           || transport(sent.value).value.json.Abrupt?
        then NoOptions
        else
          var data := transport(sent.value).value.json.value;
          Caught(Transformed(config.transformResponse, data, FetchFallback(data)))
  {
  }

  /** A response with status 404 (or any non-ok status) gives the empty list, whatever its body. */
  lemma FetchNotOkIsEmpty(config: FetchOptionsConfig, deps: Value, transport: FetchTransport)
    requires config.FetchConfig? && SentFetchRequest(config, deps).Some?
    requires transport(SentFetchRequest(config, deps).value).Normal?
    requires !Ok(transport(SentFetchRequest(config, deps).value).value.status)
    ensures HandleFetchApi(config, deps, transport) == NoOptions
  {
  }

  /** `response.ok` holds for 200 and 299 and fails for 404 and 300. */
  lemma OkExamples()
    ensures Ok(200) && Ok(299) && !Ok(404) && !Ok(300)
  {
  }

  /** Without a transform, `handleFetchAPI` always yields an array. */
  lemma FetchWithoutTransformIsArray(config: FetchOptionsConfig, deps: Value, transport: FetchTransport)
    requires config.FetchConfig? && config.transformResponse.None?
    ensures HandleFetchApi(config, deps, transport).Arr?
  {
  }

  // ---------------------------------------------------------------------------
  // handleAxios
  // ---------------------------------------------------------------------------

  /** The request envelope handed to the axios instance; `None` stands for `undefined`. */
  datatype AxiosRequest = AxiosRequest(
    httpMethod: string,
    url: string,
    params: Option<Value>,
    data: Option<Value>,
    headers: Option<seq<Entry<string>>>)

  /** An axios instance: a request settles to a response object, or rejects. */
  type AxiosInstance = AxiosRequest -> Completion<Value>

  /** `{ ...config.params, ...dependencies }` */
  function MergedParams(params: Value, deps: Value): (r: Value)
    ensures r.Obj?
  {
    Obj(Assign(OwnEntries(params), OwnEntries(deps)))
  }

  /** In the merged params the dependencies win over the literal params. */
  lemma MergedParamsLookup(params: Value, deps: Value, k: string)
    ensures Lookup(MergedParams(params, deps).entries, k) ==
      if LastLookup(OwnEntries(deps), k).Some? then LastLookup(OwnEntries(deps), k)
      else Lookup(OwnEntries(params), k)
  {
    AssignLookup(OwnEntries(params), OwnEntries(deps), k);
  }

  /** The params: the function's result, or the literal params merged with the dependencies. */
  function AxiosParams(params: PayloadSource, deps: Value): (r: Completion<Value>)
    ensures params.PayloadFunction? ==> r == params.build(deps)
    ensures params.StaticPayload? ==> r == Normal(MergedParams(params.payload, deps))
  {
    match params
    case PayloadFunction(build) => build(deps)
    case StaticPayload(p) => Normal(MergedParams(p, deps))
  }

  /**
   * The envelope: method defaulting to GET; params only when the configured
   * method is exactly `GET`; data (or the params when data is falsy) only
   * when it is exactly `POST`; the configured headers as they are.
   */
  function BuildAxiosRequest(config: FetchOptionsConfig, url: string, params: Value, data: Value): (r: AxiosRequest)
    requires config.AxiosConfig?
    ensures r.httpMethod == MethodOrGet(config.httpMethod) && r.url == url && r.headers == config.headers
    ensures r.params.Some? <==> config.httpMethod == Some("GET")
    ensures r.params.Some? ==> r.params.value == params
    ensures r.data.Some? <==> config.httpMethod == Some("POST")
    ensures r.data.Some? ==> (Truthy(data) ==> r.data.value == data) && (!Truthy(data) ==> r.data.value == params)
  {
    AxiosRequest(
      MethodOrGet(config.httpMethod),
      url,
      if config.httpMethod == Some("GET") then Some(params) else None,
      if config.httpMethod == Some("POST") then Some(Or(data, params)) else None,
      config.headers)
  }

  /** With the method left unset the request goes out as GET, but without its params. */
  lemma UnsetMethodDropsParams(config: FetchOptionsConfig, url: string, params: Value, data: Value)
    requires config.AxiosConfig? && config.httpMethod.None?
    ensures BuildAxiosRequest(config, url, params, data).httpMethod == "GET"
    ensures BuildAxiosRequest(config, url, params, data).params.None?
    ensures BuildAxiosRequest(config, url, params, data).data.None?
  {
  }

  /** Without a transform: an array `data` as it is, else a truthy `data.data`, else the empty list. */
  function AxiosFallback(data: Value): (r: Value)
    ensures data.Arr? ==> r == data
    ensures !data.Arr? && Truthy(OptionalProperty(data, "data")) ==> r == OptionalProperty(data, "data")
    ensures !data.Arr? && !Truthy(OptionalProperty(data, "data")) ==> r == NoOptions
  {
    if data.Arr? then data else Or(OptionalProperty(data, "data"), NoOptions)
  }

  /**
   * `handleAxios`: without an instance, the empty list; otherwise resolve
   * url, params and data (in that order), send the envelope and shape
   * `response.data`; any failure gives the empty list.
   */
  function HandleAxios(config: FetchOptionsConfig, deps: Value, axiosInstance: Option<AxiosInstance>): (r: Value)
    requires config.AxiosConfig?
    ensures axiosInstance.None? ==> r == NoOptions
  {
    match axiosInstance
    case None => NoOptions
    case Some(instance) =>
      match ResolveUrl(config.url, deps)
      case Abrupt => NoOptions
      case Normal(url) =>
        match AxiosParams(config.params, deps)
        case Abrupt => NoOptions
        case Normal(params) =>
          match ResolvePayload(config.data, deps)
          case Abrupt => NoOptions
          case Normal(data) =>
            match instance(BuildAxiosRequest(config, url, params, data))
            case Abrupt => NoOptions
            case Normal(response) =>
              match Property(response, "data")
              case Abrupt => NoOptions
              case Normal(payload) => Caught(Transformed(config.transformResponse, payload, AxiosFallback(payload)))
  }

  /**
   * The outcome of `handleAxios` in terms of the instance: the empty list
   * without an instance, when resolving the url, params or data throws, when
   * the instance rejects or when the response is nullish; otherwise the
   * transform's result on `response.data`, or the fallback shaping of it,
   * with a throwing transform caught as the empty list.
   */
  lemma AxiosOutcome(config: FetchOptionsConfig, deps: Value, axiosInstance: Option<AxiosInstance>)
    requires config.AxiosConfig?
    ensures HandleAxios(config, deps, axiosInstance) ==
      if axiosInstance.None? || ResolveUrl(config.url, deps).Abrupt? || AxiosParams(config.params, deps).Abrupt?
         || ResolvePayload(config.data, deps).Abrupt?
      then NoOptions
      else
        var response := axiosInstance.value(BuildAxiosRequest(config, ResolveUrl(config.url, deps).value,
                                                              AxiosParams(config.params, deps).value,
                                                              ResolvePayload(config.data, deps).value));
        if response.Abrupt? || response.value.Null? || response.value.Undefined? then NoOptions
        else
          var payload := Property(response.value, "data").value;
          Caught(Transformed(config.transformResponse, payload, AxiosFallback(payload)))
  {
  }

  /** Without a transform, an axios response whose `data` is an array yields that array. */
  lemma AxiosArrayData(config: FetchOptionsConfig, deps: Value, instance: AxiosInstance, items: seq<Value>)
    requires config.AxiosConfig? && config.transformResponse.None?
    requires ResolveUrl(config.url, deps).Normal? && AxiosParams(config.params, deps).Normal?
    requires ResolvePayload(config.data, deps).Normal?
    requires instance(BuildAxiosRequest(config, ResolveUrl(config.url, deps).value,
                                        AxiosParams(config.params, deps).value,
                                        ResolvePayload(config.data, deps).value))
             == Normal(Obj([Entry("data", Arr(items))]))
    ensures HandleAxios(config, deps, Some(instance)) == Arr(items)
  {
  }

  /** Without a transform, an envelope `{data: {data: xs}}` with truthy `xs` yields `xs`. */
  lemma AxiosNestedData(config: FetchOptionsConfig, deps: Value, instance: AxiosInstance, xs: Value)
    requires config.AxiosConfig? && config.transformResponse.None? && Truthy(xs)
    requires ResolveUrl(config.url, deps).Normal? && AxiosParams(config.params, deps).Normal?
    requires ResolvePayload(config.data, deps).Normal?
    requires instance(BuildAxiosRequest(config, ResolveUrl(config.url, deps).value,
                                        AxiosParams(config.params, deps).value,
                                        ResolvePayload(config.data, deps).value))
             == Normal(Obj([Entry("data", Obj([Entry("data", xs)]))]))
    ensures HandleAxios(config, deps, Some(instance)) == xs
  {
  }

  // ---------------------------------------------------------------------------
  // executeFetchOptions
  // ---------------------------------------------------------------------------

  /**
   * `executeFetchOptions`: a function descriptor is called with the
   * dependencies; fetch and axios descriptors never fail; a custom handler's
   * result goes through the transform when there is one, and a failure of
   * either is passed on; anything else gives the empty list.
   */
  function ExecuteFetchOptions(config: FetchOptionsConfig, deps: Value, axiosInstance: Option<AxiosInstance>,
                               transport: FetchTransport): Completion<Value>
  {
    match config
    case FunctionConfig(call) => call(deps)
    case FetchConfig(_, _, _, _, _) => Normal(HandleFetchApi(config, deps, transport))
    case AxiosConfig(_, _, _, _, _, _) => Normal(HandleAxios(config, deps, axiosInstance))
    case UnknownConfig => Normal(NoOptions)
    case CustomConfig(handler, transform) =>
      match handler(deps)
      case Abrupt => Abrupt
      case Normal(result) => Transformed(transform, result, result)
  }

  /** What each kind of descriptor makes `executeFetchOptions` do. */
  lemma ExecuteFetchOptionsDispatch(config: FetchOptionsConfig, deps: Value, axiosInstance: Option<AxiosInstance>,
                                    transport: FetchTransport)
    ensures var r := ExecuteFetchOptions(config, deps, axiosInstance, transport);
      && (config.FunctionConfig? ==> r == config.call(deps))
      && (config.FetchConfig? ==> r == Normal(HandleFetchApi(config, deps, transport)))
      && (config.AxiosConfig? ==> r == Normal(HandleAxios(config, deps, axiosInstance)))
      && (config.UnknownConfig? ==> r == Normal(NoOptions))
      && (config.CustomConfig? && config.handler(deps).Abrupt? ==> r.Abrupt?)
      && (config.CustomConfig? && config.handler(deps).Normal? ==>
            r == Transformed(config.transformResponse, config.handler(deps).value, config.handler(deps).value))
  {
  }

  /** Only function and custom descriptors can make `executeFetchOptions` fail. */
  lemma OnlyCallbacksFail(config: FetchOptionsConfig, deps: Value, axiosInstance: Option<AxiosInstance>,
                          transport: FetchTransport)
    requires ExecuteFetchOptions(config, deps, axiosInstance, transport).Abrupt?
    ensures config.FunctionConfig? || config.CustomConfig?
  {
  }

  // ---------------------------------------------------------------------------
  // defaultTransformers
  // ---------------------------------------------------------------------------

  /** `unwrapData`: `response?.data || response` */
  function UnwrapData(response: Value): (r: Value)
    ensures Truthy(OptionalProperty(response, "data")) ==> r == OptionalProperty(response, "data")
    ensures !Truthy(OptionalProperty(response, "data")) ==> r == response
  {
    Or(OptionalProperty(response, "data"), response)
  }

  /** `direct`: the response itself. */
  function Direct(response: Value): (r: Value)
    ensures r == response
  {
    response
  }

  /**
   * The items the mapping transformers walk: the response when it is an
   * array, else `response?.data || []`, which must be an array for `.map`
   * to exist (otherwise the call throws).
   */
  function ItemsOf(response: Value): (r: Completion<seq<Value>>)
    ensures response.Arr? ==> r == Normal(response.items)
    ensures !response.Arr? && !Truthy(OptionalProperty(response, "data")) ==> r == Normal([])
    ensures !response.Arr? && OptionalProperty(response, "data").Arr? ==>
      r == Normal(OptionalProperty(response, "data").items)
    ensures r.Abrupt? <==> !response.Arr? && Truthy(OptionalProperty(response, "data"))
                           && !OptionalProperty(response, "data").Arr?
  {
    if response.Arr? then Normal(response.items)
    else
      var items := Or(OptionalProperty(response, "data"), NoOptions);
      if items.Arr? then Normal(items.items) else Abrupt
  }

  /** `items.map(f)`: every item mapped in order; a throwing item makes the whole map throw. */
  function MapItems(items: seq<Value>, f: Value -> Completion<Value>): (r: Completion<seq<Value>>)
    ensures r.Abrupt? <==> exists i :: 0 <= i < |items| && f(items[i]).Abrupt?
    ensures r.Normal? ==> |r.value| == |items| && forall i :: 0 <= i < |items| ==> r.value[i] == f(items[i]).value
  {
    if items == [] then Normal([])
    else
      match MapItems(items[..|items| - 1], f)
      case Abrupt => Abrupt
      case Normal(init) =>
        match f(items[|items| - 1])
        case Abrupt => Abrupt
        case Normal(v) => Normal(init + [v])
  }

  /** A mapping transformer: the items of the response, each mapped to an option. */
  function MapResponse(response: Value, f: Value -> Completion<Value>): (r: Completion<Value>)
    ensures ItemsOf(response).Abrupt? ==> r.Abrupt?
    ensures ItemsOf(response).Normal? ==>
      (r.Abrupt? <==> MapItems(ItemsOf(response).value, f).Abrupt?)
    ensures r.Normal? ==> r.value.Arr? && |r.value.items| == |ItemsOf(response).value|
  {
    match ItemsOf(response)
    case Abrupt => Abrupt
    case Normal(items) =>
      match MapItems(items, f)
      case Abrupt => Abrupt
      case Normal(options) => Normal(Arr(options))
  }

  /** `{ label, value }` */
  function OptionObject(shown: Value, value: Value): Value
  {
    Obj([Entry("label", shown), Entry("value", value)])
  }

  /** `item.name || item.label || item.title`; reading a property of null or undefined throws. */
  function LabelOf(item: Value): (r: Completion<Value>)
    ensures r.Abrupt? <==> IsNullish(item)
    ensures r.Normal? ==> r.value == Or(Or(OptionalProperty(item, "name"), OptionalProperty(item, "label")),
                                        OptionalProperty(item, "title"))
  {
    if IsNullish(item) then Abrupt
    else Normal(Or(Or(OptionalProperty(item, "name"), OptionalProperty(item, "label")), OptionalProperty(item, "title")))
  }

  /** `item._id?.toString()`: undefined when `_id` is null or undefined. */
  function MongoId(item: Value): (r: Value)
    requires !IsNullish(item)
    ensures IsNullish(OptionalProperty(item, "_id")) ==> r == Undefined
    ensures !IsNullish(OptionalProperty(item, "_id")) ==> r == Str(ToString(OptionalProperty(item, "_id")))
  {
    var id := OptionalProperty(item, "_id");
    if IsNullish(id) then Undefined else Str(ToString(id))
  }

  /** The option `mongoToOptions` makes of one item. */
  function MongoOption(item: Value): (r: Completion<Value>)
    ensures r.Abrupt? <==> IsNullish(item)
    ensures r.Normal? ==> r.value == OptionObject(LabelOf(item).value,
      Or(Or(MongoId(item), OptionalProperty(item, "id")), OptionalProperty(item, "value")))
  {
    match LabelOf(item)
    case Abrupt => Abrupt
    case Normal(shown) =>
      Normal(OptionObject(shown, Or(Or(MongoId(item), OptionalProperty(item, "id")), OptionalProperty(item, "value"))))
  }

  /** The option `restToOptions` makes of one item. */
  function RestOption(item: Value): (r: Completion<Value>)
    ensures r.Abrupt? <==> IsNullish(item)
    ensures r.Normal? ==> r.value == OptionObject(LabelOf(item).value,
      Or(OptionalProperty(item, "id"), OptionalProperty(item, "value")))
  {
    match LabelOf(item)
    case Abrupt => Abrupt
    case Normal(shown) => Normal(OptionObject(shown, Or(OptionalProperty(item, "id"), OptionalProperty(item, "value"))))
  }

  /** The option `customMapper(labelKey, valueKey)` makes of one item. */
  function MappedOption(labelKey: string, valueKey: string, item: Value): (r: Completion<Value>)
    ensures r.Abrupt? <==> IsNullish(item)
    ensures r.Normal? ==> r.value == OptionObject(OptionalProperty(item, labelKey), OptionalProperty(item, valueKey))
  {
    if IsNullish(item) then Abrupt
    else Normal(OptionObject(OptionalProperty(item, labelKey), OptionalProperty(item, valueKey)))
  }

  /** `mongoToOptions` */
  function MongoToOptions(response: Value): Completion<Value>
  {
    MapResponse(response, MongoOption)
  }

  /** `restToOptions` */
  function RestToOptions(response: Value): Completion<Value>
  {
    MapResponse(response, RestOption)
  }

  /** `customMapper(labelKey, valueKey)` */
  function CustomMapper(labelKey: string, valueKey: string): Transform
  {
    (response: Value) => MapResponse(response, (item: Value) => MappedOption(labelKey, valueKey, item))
  }

  /**
   * The mapping transformers keep the items' number and order: the `i`-th
   * option is made of the `i`-th item, and they fail exactly when the items
   * are not an array or one of them is null or undefined.
   */
  lemma MongoToOptionsShape(response: Value)
    requires ItemsOf(response).Normal?
    ensures MongoToOptions(response).Abrupt? <==> exists i :: 0 <= i < |ItemsOf(response).value| && IsNullish(ItemsOf(response).value[i])
    ensures MongoToOptions(response).Normal? ==>
      |MongoToOptions(response).value.items| == |ItemsOf(response).value|
      && forall i :: 0 <= i < |ItemsOf(response).value| ==>
        MongoToOptions(response).value.items[i] == MongoOption(ItemsOf(response).value[i]).value
  {
  }

  lemma RestToOptionsShape(response: Value)
    requires ItemsOf(response).Normal?
    ensures RestToOptions(response).Abrupt? <==> exists i :: 0 <= i < |ItemsOf(response).value| && IsNullish(ItemsOf(response).value[i])
    ensures RestToOptions(response).Normal? ==>
      |RestToOptions(response).value.items| == |ItemsOf(response).value|
      && forall i :: 0 <= i < |ItemsOf(response).value| ==>
        RestToOptions(response).value.items[i] == RestOption(ItemsOf(response).value[i]).value
  {
  }

  lemma CustomMapperShape(labelKey: string, valueKey: string, response: Value)
    requires ItemsOf(response).Normal?
    ensures CustomMapper(labelKey, valueKey)(response).Abrupt? <==>
      exists i :: 0 <= i < |ItemsOf(response).value| && IsNullish(ItemsOf(response).value[i])
    ensures CustomMapper(labelKey, valueKey)(response).Normal? ==>
      |CustomMapper(labelKey, valueKey)(response).value.items| == |ItemsOf(response).value|
      && forall i :: 0 <= i < |ItemsOf(response).value| ==>
        CustomMapper(labelKey, valueKey)(response).value.items[i]
          == OptionObject(OptionalProperty(ItemsOf(response).value[i], labelKey),
                          OptionalProperty(ItemsOf(response).value[i], valueKey))
  {
  }

  /** The one item of the example below, mapped on its own. */
  lemma MongoDocumentOption()
    ensures MongoOption(Obj([Entry("_id", Num(7)), Entry("name", Str("Ann")), Entry("id", Str("x"))]))
         == Normal(OptionObject(Str("Ann"), Str("7")))
  {
    var item := Obj([Entry("_id", Num(7)), Entry("name", Str("Ann")), Entry("id", Str("x"))]);
    assert OptionalProperty(item, "_id") == Num(7);
    assert Decimal(7) == "7";
    assert MongoId(item) == Str("7");
    assert OptionalProperty(item, "name") == Str("Ann");
    assert LabelOf(item) == Normal(Str("Ann"));
  }

  /** A Mongo-style document: the name labels it and the stringified `_id` wins over `id`. */
  lemma MongoDocumentExample()
    ensures MongoToOptions(Arr([Obj([Entry("_id", Num(7)), Entry("name", Str("Ann")), Entry("id", Str("x"))])]))
         == Normal(Arr([OptionObject(Str("Ann"), Str("7"))]))
  {
    var item := Obj([Entry("_id", Num(7)), Entry("name", Str("Ann")), Entry("id", Str("x"))]);
    MongoDocumentOption();
    var r := MapItems([item], MongoOption);
    assert !(exists i :: 0 <= i < |[item]| && MongoOption([item][i]).Abrupt?);
    assert r.Normal? && |r.value| == 1 && r.value[0] == OptionObject(Str("Ann"), Str("7"));
    assert r.value == [OptionObject(Str("Ann"), Str("7"))];
    assert ItemsOf(Arr([item])) == Normal([item]);
  }
}
