/** `httpClient`: builds the URL (host, endpoint, GET query), the headers
    (caller headers, an override that wins, a default language, a bearer token
    from the `accessToken` cookie, the JSON content type) and the body, calls
    `fetch`, and unwraps the response envelope or throws an `ApiError`. */
module HttpClient {

  import opened Wrappers
  import opened Seqs
  import opened Js
  import opened FetchHeaders
  import opened Fetch
  import opened ApiTypes
  import UrlEncoded

  datatype HttpMethod = GET | POST | PUT | DELETE

  function MethodName(m: HttpMethod): string
  {
    match m
    case GET => "GET"
    case POST => "POST"
    case PUT => "PUT"
    case DELETE => "DELETE"
  }

  /** A query parameter value: `string | number | boolean`. */
  datatype ParamValue = PStr(s: string) | PNum(n: int) | PBool(b: bool)

  /** `String(value)`. */
  function ParamString(v: ParamValue): string
  {
    match v
    case PStr(s) => s
    case PNum(n) => IntString(n)
    case PBool(b) => if b then "true" else "false"
  }

  /** A request body: a plain object sent as JSON, or a `FormData`. */
  datatype Payload = Fields(fields: map<string, JsValue>) | Form(form: FormData)

  /** The options `http` reads; anything else is handed to `fetch` as is. */
  datatype RequestOptions = RequestOptions(params: Option<seq<(string, ParamValue)>>,
                                           headers: Option<seq<Header>>,
                                           isExternal: Option<bool>)

  const NoOptions := RequestOptions(None, None, None)

  /** What the client reads from its surroundings: `NEXT_PUBLIC_API_BASE_URL`
      and the `accessToken` cookie. */
  datatype Env = Env(apiHost: Option<string>, accessToken: Option<string>)

  /** A template literal writes a missing host as `undefined`. */
  function HostText(apiHost: Option<string>): string
  {
    match apiHost
    case Some(h) => h
    case None => "undefined"
  }

  function BaseUrl(endpoint: string, options: RequestOptions, env: Env): string
  {
    if options.isExternal.GetOr(false) then endpoint else HostText(env.apiHost) + endpoint
  }

  /** The entries appended to the search parameters, values as strings. */
  function ParamPairs(params: seq<(string, ParamValue)>): seq<UrlEncoded.Pair>
  {
    seq(|params|, i requires 0 <= i < |params| => (params[i].0, ParamString(params[i].1)))
  }

  /** The URL `http` requests. */
  function RequestUrl(verb: HttpMethod, endpoint: string, options: RequestOptions, env: Env): string
  {
    var base := BaseUrl(endpoint, options, env);
    if options.params.Some? && verb == GET
    then base + "?" + UrlEncoded.Serialize(ParamPairs(options.params.value))
    else base
  }

  /** The caller's headers with every header of the override set over them. */
  function MergedHeaders(custom: Option<seq<Header>>, headersOverride: Option<seq<Header>>): seq<Header>
  {
    var base := Filled(custom.GetOr([]));
    if headersOverride.Some? then SetAll(base, Combine(Filled(headersOverride.value))) else base
  }

  /** The cookie is a truthy string. */
  predicate HasToken(token: Option<string>)
  {
    token.Some? && token.value != ""
  }

  /** `Accept-Language: ko` unless the name is already there. */
  function WithLanguage(list: seq<Header>): seq<Header>
  {
    if Contains(list, "Accept-Language") then list else SetHeader(list, "Accept-Language", "ko")
  }

  /** `Authorization: Bearer <token>` unless the name is already there, and
      only with a token. */
  function WithAuthorization(list: seq<Header>, token: Option<string>): seq<Header>
  {
    if Contains(list, "Authorization") || !HasToken(token) then list
    else SetHeader(list, "Authorization", "Bearer " + token.value)
  }

  /** `Content-Type: application/json` for a plain-object body. */
  function WithContentType(list: seq<Header>, body: Option<Payload>): seq<Header>
  {
    if body.Some? && body.value.Fields? then SetHeader(list, "Content-Type", "application/json") else list
  }

  /** The headers `http` sends. */
  function RequestHeaders(custom: Option<seq<Header>>, headersOverride: Option<seq<Header>>,
                          token: Option<string>, body: Option<Payload>): seq<Header>
  {
    WithContentType(WithAuthorization(WithLanguage(MergedHeaders(custom, headersOverride)), token), body)
  }

  /** The body `http` sends. */
  function RequestBodyOf(body: Option<Payload>): RequestBody
  {
    match body
    case None => NoBody
    case Some(Form(f)) => FormBody(f)
    case Some(Fields(fields)) => JsonText(Obj(fields))
  }

  function RequestOf(verb: HttpMethod, endpoint: string, body: Option<Payload>, options: RequestOptions,
                     headersOverride: Option<seq<Header>>, env: Env): Request
  {
    Request(RequestUrl(verb, endpoint, options, env), MethodName(verb),
            RequestHeaders(options.headers, headersOverride, env.accessToken, body), RequestBodyOf(body))
  }

  /** How a call to `http` settles. A failed response throws an `ApiError`
      built from the message, the status and the error body. */
  datatype HttpOutcome =
    | Returns(value: JsValue)
    | ThrowsApiError(message: string, status: int, data: JsValue)
    | Throws(reason: Thrown)

  const DefaultErrorMessage := "API 요청 실패"

  /** Reading `result` from a JSON `null` body throws this. */
  const NullResultError := Error("TypeError", "Cannot read properties of null (reading 'result')")

  /** What `http` makes of a response. */
  function ResponseOutcome(r: Response): (o: HttpOutcome)
    ensures o.ThrowsApiError? <==> !Ok(r.status)
    ensures o.ThrowsApiError? ==> o.status == r.status && IsJson(o.data)
  {
    if !Ok(r.status) then
      var errorData: JsValue := match r.body case Parsed(j) => j case Unparseable(_) => Null;
      var field := OptionalProperty(errorData, "resultMessage");
      ThrowsApiError(if Truthy(field) then ToString(field) else DefaultErrorMessage, r.status, errorData)
    else if r.status == 204 then Returns(Null)
    else
      match r.body
      case Unparseable(message) => Throws(Error("SyntaxError", message))
      case Parsed(d) =>
        match GetProperty(d, "result")
        case ThrowsTypeError => Throws(NullResultError)
        case Value(res) => Returns(Coalesce(Coalesce(res, OptionalProperty(d, "data")), d))
  }

  function Settle(f: FetchResult): (o: HttpOutcome)
    ensures o.ThrowsApiError? ==> IsJson(o.data)
  {
    match f
    case Rejected(e) => Throws(e)
    case Responded(r) => ResponseOutcome(r)
  }

  /** The URL, with the GET parameters appended one by one. */
  method BuildUrl(verb: HttpMethod, endpoint: string, options: RequestOptions, env: Env) returns (url: string)
    ensures url == RequestUrl(verb, endpoint, options, env)
  {
    url := BaseUrl(endpoint, options, env);
    if options.params.Some? && verb == GET {
      var params := options.params.value;
      var searchParams := new UrlEncoded.SearchParams.Empty();
      var i := 0;
      while i < |params|
        invariant 0 <= i <= |params|
        invariant searchParams.list == ParamPairs(params[..i])
      {
        searchParams.Append(params[i].0, ParamString(params[i].1));
        i := i + 1;
      }
      assert params[..i] == params;
      url := url + "?" + searchParams.ToString();
    }
  }

  /** `new Headers(customHeaders)`, then every header of the override set
      over it. */
  method MergeHeaders(custom: Option<seq<Header>>, headersOverride: Option<seq<Header>>) returns (headers: Headers)
    ensures fresh(headers)
    ensures headers.list == MergedHeaders(custom, headersOverride)
  {
    headers := new Headers(custom.GetOr([]));
    if headersOverride.Some? {
      var overriding := new Headers(headersOverride.value);
      var entries := Combine(overriding.list);
      ghost var base := Filled(custom.GetOr([]));
      var j := 0;
      while j < |entries|
        invariant 0 <= j <= |entries|
        invariant headers.list == SetAll(base, entries[..j])
        modifies headers
      {
        SetAllPrefix(base, entries, j);
        headers.Set(entries[j].0, entries[j].1);
        j := j + 1;
      }
      assert entries[..j] == entries;
    }
  }

  /** The language and bearer-token defaults. */
  method AddDefaultHeaders(headers: Headers, token: Option<string>)
    modifies headers
    ensures headers.list == WithAuthorization(WithLanguage(old(headers.list)), token)
  {
    if !headers.Has("Accept-Language") {
      headers.Set("Accept-Language", "ko");
    }
    if !headers.Has("Authorization") {
      var accessToken := token;
      if HasToken(accessToken) {
        headers.Set("Authorization", "Bearer " + accessToken.value);
      }
    }
  }

  /** The body: a form as is, a plain object as JSON text with its content
      type. */
  method EncodeBody(headers: Headers, body: Option<Payload>) returns (requestBody: RequestBody)
    modifies headers
    ensures requestBody == RequestBodyOf(body)
    ensures headers.list == WithContentType(old(headers.list), body)
  {
    requestBody := NoBody;
    if body.Some? {
      match body.value
      case Form(f) =>
        requestBody := FormBody(f);
      case Fields(fields) =>
        requestBody := JsonText(Obj(fields));
        headers.Set("Content-Type", "application/json");
    }
  }

  /** `http(method, endpoint, body, options, headersOverride)`; `fetch` is the
      network. */
  method Http(verb: HttpMethod, endpoint: string, body: Option<Payload>, options: RequestOptions,
              headersOverride: Option<seq<Header>>, env: Env, fetch: Request -> FetchResult)
    returns (outcome: HttpOutcome, sent: Request, error: ApiError?)
    ensures sent == RequestOf(verb, endpoint, body, options, headersOverride, env)
    ensures outcome == Settle(fetch(sent))
    ensures error != null <==> outcome.ThrowsApiError?
    ensures error != null ==> fresh(error) && error.name == "ApiError" && error.message == outcome.message
                              && error.status == outcome.status && error.data == outcome.data
  {
    var url := BuildUrl(verb, endpoint, options, env);
    var headers := MergeHeaders(options.headers, headersOverride);
    AddDefaultHeaders(headers, env.accessToken);

    var requestBody := EncodeBody(headers, body);
    sent := Request(url, MethodName(verb), headers.list, requestBody);
    outcome := Settle(fetch(sent));
    if outcome.ThrowsApiError? {
      error := new ApiError(outcome.message, outcome.status, outcome.data);
    } else {
      error := null;
    }
  }

  /** `httpClient.get`. */
  method Get(endpoint: string, options: Option<RequestOptions>, headersOverride: Option<seq<Header>>,
             env: Env, fetch: Request -> FetchResult)
    returns (outcome: HttpOutcome, sent: Request, error: ApiError?)
    ensures sent == RequestOf(GET, endpoint, None, options.GetOr(NoOptions), headersOverride, env)
    ensures sent.verb == "GET" && sent.body == NoBody
    ensures outcome == Settle(fetch(sent))
    ensures error != null <==> outcome.ThrowsApiError?
  {
    outcome, sent, error := Http(GET, endpoint, None, options.GetOr(NoOptions), headersOverride, env, fetch);
  }

  /** `httpClient.post`. */
  method Post(endpoint: string, body: Payload, options: Option<RequestOptions>, headersOverride: Option<seq<Header>>,
              env: Env, fetch: Request -> FetchResult)
    returns (outcome: HttpOutcome, sent: Request, error: ApiError?)
    ensures sent == RequestOf(POST, endpoint, Some(body), options.GetOr(NoOptions), headersOverride, env)
    ensures sent.verb == "POST" && sent.body != NoBody
    ensures outcome == Settle(fetch(sent))
    ensures error != null <==> outcome.ThrowsApiError?
  {
    outcome, sent, error := Http(POST, endpoint, Some(body), options.GetOr(NoOptions), headersOverride, env, fetch);
  }

  /** `httpClient.put`: the body is always a plain object. */
  method Put(endpoint: string, fields: map<string, JsValue>, options: Option<RequestOptions>,
             headersOverride: Option<seq<Header>>, env: Env, fetch: Request -> FetchResult)
    returns (outcome: HttpOutcome, sent: Request, error: ApiError?)
    ensures sent == RequestOf(PUT, endpoint, Some(Fields(fields)), options.GetOr(NoOptions), headersOverride, env)
    ensures sent.verb == "PUT" && sent.body == JsonText(Obj(fields))
    ensures outcome == Settle(fetch(sent))
    ensures error != null <==> outcome.ThrowsApiError?
  {
    outcome, sent, error := Http(PUT, endpoint, Some(Fields(fields)), options.GetOr(NoOptions), headersOverride, env, fetch);
  }

  /** `httpClient.delete`. */
  method Delete(endpoint: string, options: Option<RequestOptions>, headersOverride: Option<seq<Header>>,
                env: Env, fetch: Request -> FetchResult)
    returns (outcome: HttpOutcome, sent: Request, error: ApiError?)
    ensures sent == RequestOf(DELETE, endpoint, None, options.GetOr(NoOptions), headersOverride, env)
    ensures sent.verb == "DELETE" && sent.body == NoBody
    ensures outcome == Settle(fetch(sent))
    ensures error != null <==> outcome.ThrowsApiError?
  {
    outcome, sent, error := Http(DELETE, endpoint, None, options.GetOr(NoOptions), headersOverride, env, fetch);
  }

  // ---------------------------------------------------------------------
  // Properties

  lemma {:induction false} SetAllSnoc(list: seq<Header>, pairs: seq<Header>, last: Header)
    ensures SetAll(list, pairs + [last]) == SetHeader(SetAll(list, pairs), last.0, last.1)
    decreases |pairs|
  {
    if |pairs| == 0 {
      assert pairs + [last] == [last];
    } else {
      assert (pairs + [last])[1..] == pairs[1..] + [last];
      SetAllSnoc(SetHeader(list, pairs[0].0, pairs[0].1), pairs[1..], last);
    }
  }

  /** Setting the pairs up to `j` is setting those before it, then pair `j`. */
  lemma SetAllPrefix(list: seq<Header>, pairs: seq<Header>, j: nat)
    requires j < |pairs|
    ensures SetAll(list, pairs[..j + 1]) == SetHeader(SetAll(list, pairs[..j]), pairs[j].0, pairs[j].1)
  {
    assert pairs[..j + 1] == pairs[..j] + [pairs[j]];
    SetAllSnoc(list, pairs[..j], pairs[j]);
  }

  /** Without parameters, or for any method but GET, the URL is the host and
      endpoint (or the endpoint alone for an external call). */
  lemma RequestUrlPlain(verb: HttpMethod, endpoint: string, options: RequestOptions, env: Env)
    requires options.params.None? || verb != GET
    ensures RequestUrl(verb, endpoint, options, env) == BaseUrl(endpoint, options, env)
    ensures options.isExternal == Some(true) ==> RequestUrl(verb, endpoint, options, env) == endpoint
    ensures options.isExternal != Some(true) ==> RequestUrl(verb, endpoint, options, env) == HostText(env.apiHost) + endpoint
  {
  }

  /** With GET parameters, the URL is the base, one `?`, and a query that reads
      back as the parameters in order, each value as `String(value)`. */
  lemma RequestUrlQuery(endpoint: string, options: RequestOptions, env: Env)
    requires options.params.Some? && '?' !in BaseUrl(endpoint, options, env)
    ensures var pieces := Split(RequestUrl(GET, endpoint, options, env), '?');
      |pieces| == 2 && pieces[0] == BaseUrl(endpoint, options, env)
      && UrlEncoded.ParseInit(pieces[1]) == ParamPairs(options.params.value)
  {
    var list := ParamPairs(options.params.value);
    UrlEncoded.ParseInitSerialize(list);
    QueryHasNoMark(list);
    SplitQueryUrl(BaseUrl(endpoint, options, env), UrlEncoded.Serialize(list));
  }

  lemma SplitQueryUrl(base: string, query: string)
    requires '?' !in base
    requires '?' !in query
    ensures Split(base + "?" + query, '?') == [base, query]
  {
    SplitPrefix(query, [], '?');
    assert query + [] == query;
    var tail := ['?'] + query;
    assert tail[1..] == query;
    assert Split(tail, '?') == [[]] + Split(query, '?');
    SplitPrefix(base, tail, '?');
    assert base + "?" + query == base + tail;
    assert base + [] == base;
  }

  lemma QueryHasNoMark(list: seq<UrlEncoded.Pair>)
    ensures '?' !in UrlEncoded.Serialize(list)
  {
    UrlEncoded.SerializeBytesSafe(list);
    var s := UrlEncoded.Serialize(list);
    assert forall i :: 0 <= i < |s| ==> s[i] as int == UrlEncoded.SerializeBytes(list)[i];
  }

  /** The override wins: a name it sets reads as the override's value, and
      every other name reads as in the caller's headers. */
  lemma MergedHeadersPrecedence(custom: Option<seq<Header>>, headersOverride: Option<seq<Header>>, name: string)
    ensures GetValue(MergedHeaders(custom, headersOverride), name)
         == if headersOverride.Some? && Contains(headersOverride.value, name)
            then GetValue(headersOverride.value, name)
            else GetValue(custom.GetOr([]), name)
  {
    var base := Filled(custom.GetOr([]));
    ValuesFilled(custom.GetOr([]), name);
    if headersOverride.Some? {
      var o := Filled(headersOverride.value);
      GetAfterSetAll(base, Combine(o), name);
      LastValueCombine(o, name);
      ValuesFilled(headersOverride.value, name);
    }
  }

  lemma HeaderLiterals()
    ensures LowerCase("Accept-Language") == "accept-language"
    ensures LowerCase("Authorization") == "authorization"
    ensures LowerCase("Content-Type") == "content-type"
  {
  }

  lemma WithLanguageGet(list: seq<Header>, name: string)
    ensures GetValue(WithLanguage(list), name)
         == if SameName(name, "Accept-Language") && !Contains(list, "Accept-Language") then Some("ko")
            else GetValue(list, name)
  {
    GetAfterSet(list, "Accept-Language", "ko", name);
    SameNameSymmetric(name, "Accept-Language");
  }

  lemma WithAuthorizationGet(list: seq<Header>, token: Option<string>, name: string)
    ensures GetValue(WithAuthorization(list, token), name)
         == if SameName(name, "Authorization") && !Contains(list, "Authorization") && HasToken(token)
            then Some("Bearer " + token.value)
            else GetValue(list, name)
  {
    if HasToken(token) {
      GetAfterSet(list, "Authorization", "Bearer " + token.value, name);
    }
    SameNameSymmetric(name, "Authorization");
  }

  lemma WithContentTypeGet(list: seq<Header>, body: Option<Payload>, name: string)
    ensures GetValue(WithContentType(list, body), name)
         == if SameName(name, "Content-Type") && body.Some? && body.value.Fields? then Some("application/json")
            else GetValue(list, name)
  {
    GetAfterSet(list, "Content-Type", "application/json", name);
    SameNameSymmetric(name, "Content-Type");
  }

  /** Each header `http` adds on its own, and when: `Accept-Language: ko`
      unless already given, `Authorization: Bearer <token>` unless already
      given and only with a non-empty cookie, and `Content-Type:
      application/json` over any given one exactly when the body is a plain
      object. Every other name reads as merged. */
  lemma RequestHeadersPrecedence(custom: Option<seq<Header>>, headersOverride: Option<seq<Header>>,
                                 token: Option<string>, body: Option<Payload>, name: string)
    ensures var merged := MergedHeaders(custom, headersOverride);
      GetValue(RequestHeaders(custom, headersOverride, token, body), name)
      == if SameName(name, "Content-Type") && body.Some? && body.value.Fields? then Some("application/json")
         else if SameName(name, "Authorization") && !Contains(merged, "Authorization") && HasToken(token)
         then Some("Bearer " + token.value)
         else if SameName(name, "Accept-Language") && !Contains(merged, "Accept-Language") then Some("ko")
         else GetValue(merged, name)
  {
    var merged := MergedHeaders(custom, headersOverride);
    var lang := WithLanguage(merged);
    var auth := WithAuthorization(lang, token);
    HeaderLiterals();
    WithLanguageGet(merged, name);
    WithLanguageGet(merged, "Authorization");
    assert Contains(lang, "Authorization") == Contains(merged, "Authorization");
    WithAuthorizationGet(lang, token, name);
    WithContentTypeGet(auth, body, name);
  }

  /** A failed status always throws an `ApiError` carrying that status and
      the parsed error body (`null` when it is not JSON); its message is the
      body's non-empty `resultMessage`, or the default message. */
  lemma FailedResponse(r: Response)
    requires !Ok(r.status)
    ensures ResponseOutcome(r).ThrowsApiError?
    ensures ResponseOutcome(r).status == r.status
    ensures ResponseOutcome(r).data == match r.body case Parsed(j) => j case Unparseable(_) => Null
    ensures r.body.Unparseable? ==> ResponseOutcome(r).message == DefaultErrorMessage
  {
  }

  /** A failed envelope's message is its non-empty `resultMessage`, or the
      default message. */
  lemma FailedEnvelope(status: int, env: ApiResponse<JsValue>)
    requires !Ok(status) && IsJson(EnvelopeJson(env))
    ensures ResponseOutcome(Response(status, Parsed(EnvelopeJson(env))))
         == ThrowsApiError(if env.resultMessage != "" then env.resultMessage else DefaultErrorMessage,
                           status, EnvelopeJson(env))
  {
  }

  /** A 204 response is `null`, whatever its body. */
  lemma NoContent(body: BodyParse)
    ensures ResponseOutcome(Response(204, body)) == Returns(Null)
  {
  }

  /** A successful envelope unwraps to its `result`, else to its `data`, else
      to the envelope itself. */
  lemma UnwrapEnvelope(status: int, env: ApiResponse<JsValue>)
    requires Ok(status) && status != 204 && IsJson(EnvelopeJson(env))
    ensures ResponseOutcome(Response(status, Parsed(EnvelopeJson(env))))
         == Returns(if !Nullish(env.result) then env.result
                    else if env.data.Some? && !Nullish(env.data.value) then env.data.value
                    else EnvelopeJson(env))
  {
  }

  /** A successful non-204 response whose body is JSON `null` throws a
      `TypeError` when `result` is read, before `?.` is reached; any other
      JSON body never throws. */
  lemma NullBodyThrows(status: int, d: Json)
    requires Ok(status) && status != 204
    ensures ResponseOutcome(Response(status, Parsed(d))).Throws? <==> d.Null?
    ensures d.Null? ==> ResponseOutcome(Response(status, Parsed(d))) == Throws(NullResultError)
  {
  }
}
