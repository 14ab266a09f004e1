/** `apiRequest`, the older client: default headers from the stored token, the
    caller's headers spread over them, a 401 in the browser that clears the
    token and goes to the login page, and the parsed JSON returned as is. */
module ApiClient {

  import opened Wrappers
  import opened Js
  import opened FetchHeaders
  import opened Fetch

  const FallbackBaseUrl := "https://jsonplaceholder.typicode.com"
  const TokenKey := "token"
  const LoginPath := "/login"

  /** The browser globals the client touches: `localStorage` and
      `window.location.href`. Outside a browser there is no such object. */
  class Browser {
    var storage: map<string, string>
    var location: string

    constructor (storage: map<string, string>, location: string)
      ensures this.storage == storage && this.location == location
    {
      this.storage := storage;
      this.location := location;
    }
  }

  /** A plain headers object: its entries in property order, keys distinct. */
  type Record = seq<Header>

  predicate DistinctRecord(rec: Record)
  {
    forall i, j :: 0 <= i < j < |rec| ==> rec[i].0 != rec[j].0
  }

  /** `rec[key]`. */
  function RecordGet(rec: Record, key: string): Option<string>
  {
    if |rec| == 0 then None else if rec[0].0 == key then Some(rec[0].1) else RecordGet(rec[1..], key)
  }

  /** `rec[key] = value`: an existing key keeps its place, a new one goes last. */
  function Assign(rec: Record, key: string, value: string): Record
  {
    if |rec| == 0 then [(key, value)]
    else if rec[0].0 == key then [(key, value)] + rec[1..]
    else [rec[0]] + Assign(rec[1..], key, value)
  }

  /** `{...rec, ...more}`. */
  function Spread(rec: Record, more: Record): Record
    decreases |more|
  {
    if |more| == 0 then rec else Spread(Assign(rec, more[0].0, more[0].1), more[1..])
  }

  /** The token in storage, as `localStorage.getItem` returns it. */
  function StoredToken(storage: map<string, string>): Option<string>
  {
    if TokenKey in storage then Some(storage[TokenKey]) else None
  }

  /** The default headers for a context: in a browser, or not. */
  function DefaultHeaders(inBrowser: bool, token: Option<string>): Record
  {
    var base := [("Content-Type", "application/json")];
    if inBrowser && token.Some? && token.value != "" then Assign(base, "Authorization", "Bearer " + token.value) else base
  }

  lemma DefaultHeadersShape(inBrowser: bool, token: Option<string>)
    ensures DefaultHeaders(inBrowser, token)
         == if inBrowser && token.Some? && token.value != ""
            then [("Content-Type", "application/json"), ("Authorization", "Bearer " + token.value)]
            else [("Content-Type", "application/json")]
  {
    if inBrowser && token.Some? && token.value != "" {
      var base := [("Content-Type", "application/json")];
      assert base[0].0 != "Authorization";
      assert Assign(base[1..], "Authorization", "Bearer " + token.value) == [("Authorization", "Bearer " + token.value)];
    }
  }

  /** `getHeaders()`. */
  method GetHeaders(browser: Browser?) returns (headers: Record)
    ensures headers == DefaultHeaders(browser != null, if browser != null then StoredToken(browser.storage) else None)
    ensures RecordGet(headers, "Content-Type") == Some("application/json")
    ensures RecordGet(headers, "Authorization").Some?
        <==> browser != null && TokenKey in browser.storage && browser.storage[TokenKey] != ""
    ensures RecordGet(headers, "Authorization").Some? ==> RecordGet(headers, "Authorization").value == "Bearer " + browser.storage[TokenKey]
    ensures DistinctRecord(headers)
  {
    DefaultHeadersShape(browser != null, if browser != null then StoredToken(browser.storage) else None);
    headers := [("Content-Type", "application/json")];
    if browser != null {
      var token := StoredToken(browser.storage);
      if token.Some? && token.value != "" {
        headers := Assign(headers, "Authorization", "Bearer " + token.value);
      }
    }
  }

  /** `NEXT_PUBLIC_API_URL`, or the fallback when it is unset or empty. */
  function BaseUrl(apiUrl: Option<string>): string
  {
    if apiUrl.Some? && apiUrl.value != "" then apiUrl.value else FallbackBaseUrl
  }

  /** The base URL is `process.env.NEXT_PUBLIC_API_URL || fallback`: an unset
      variable reads as `undefined`, and an empty one is falsy. */
  lemma BaseUrlIsOr(apiUrl: Option<string>)
    ensures Str(BaseUrl(apiUrl)) == Or(if apiUrl.Some? then Str(apiUrl.value) else Undefined, Str(FallbackBaseUrl))
  {
  }

  /** The options a caller passes: method, headers object, body. */
  datatype RequestInit = RequestInit(verb: Option<string>, headers: Option<Record>, body: RequestBody)

  /** The call `apiRequest` makes: URL, method, headers object and body. */
  datatype ApiCall = ApiCall(url: string, verb: Option<string>, headers: Record, body: RequestBody)

  function CallFor(endpoint: string, options: RequestInit, apiUrl: Option<string>, inBrowser: bool, token: Option<string>): ApiCall
  {
    ApiCall(BaseUrl(apiUrl) + endpoint, options.verb,
            Spread(DefaultHeaders(inBrowser, token), options.headers.GetOr([])), options.body)
  }

  /** How `apiRequest` settles. */
  datatype Settled = Resolved(value: Json) | Failed(reason: Thrown)

  function StatusMessage(status: int): string
  {
    "HTTP error! status: " + IntString(status)
  }

  function SettleCall(f: FetchResult): Settled
  {
    match f
    case Rejected(e) => Failed(e)
    case Responded(r) =>
      if !Ok(r.status) then Failed(Error("Error", StatusMessage(r.status)))
      else match r.body
        case Parsed(j) => Resolved(j)
        case Unparseable(m) => Failed(Error("SyntaxError", m))
  }

  /** The response is a 401. */
  predicate Unauthorized(f: FetchResult)
  {
    f.Responded? && f.response.status == 401
  }

  /** `apiRequest(endpoint, options)`; `fetch` is the network. */
  method ApiRequest(endpoint: string, options: RequestInit, apiUrl: Option<string>, browser: Browser?,
                    fetch: ApiCall -> FetchResult)
    returns (outcome: Settled, sent: ApiCall)
    modifies if browser != null then {browser} else {}
    ensures sent == CallFor(endpoint, options, apiUrl, browser != null,
                            if browser != null then StoredToken(old(browser.storage)) else None)
    ensures outcome == SettleCall(fetch(sent))
    ensures browser != null ==>
      browser.storage == (if Unauthorized(fetch(sent)) then old(browser.storage) - {TokenKey} else old(browser.storage))
      && browser.location == (if Unauthorized(fetch(sent)) then LoginPath else old(browser.location))
  {
    var defaults := GetHeaders(browser);
    sent := ApiCall(BaseUrl(apiUrl) + endpoint, options.verb, Spread(defaults, options.headers.GetOr([])), options.body);
    var result := fetch(sent);
    if result.Responded? && !Ok(result.response.status) {
      if result.response.status == 401 {
        if browser != null {
          browser.storage := browser.storage - {TokenKey};
          browser.location := LoginPath;
        }
      }
    }
    outcome := SettleCall(result);
  }

  // ---------------------------------------------------------------------
  // Properties

  lemma {:induction false} AssignGet(rec: Record, key: string, value: string, other: string)
    ensures RecordGet(Assign(rec, key, value), other) == if other == key then Some(value) else RecordGet(rec, other)
    ensures DistinctRecord(rec) ==> DistinctRecord(Assign(rec, key, value))
    decreases |rec|
  {
    if |rec| > 0 && rec[0].0 != key {
      AssignGet(rec[1..], key, value, other);
      AssignKeys(rec[1..], key, value);
    }
  }

  lemma {:induction false} AssignKeys(rec: Record, key: string, value: string)
    ensures forall i :: 0 <= i < |Assign(rec, key, value)| ==>
      Assign(rec, key, value)[i].0 == key || exists j :: 0 <= j < |rec| && rec[j].0 == Assign(rec, key, value)[i].0
    decreases |rec|
  {
    if |rec| > 0 && rec[0].0 != key {
      AssignKeys(rec[1..], key, value);
      var r := Assign(rec, key, value);
      forall i | 1 <= i < |r|
        ensures r[i].0 == key || exists j :: 0 <= j < |rec| && rec[j].0 == r[i].0
      {
        assert r[i] == Assign(rec[1..], key, value)[i - 1];
        if r[i].0 != key {
          var j :| 0 <= j < |rec[1..]| && rec[1..][j].0 == r[i].0;
          assert rec[j + 1].0 == r[i].0;
        }
      }
    }
  }

  /** Spreading the caller's headers last: a key the caller gives reads as the
      caller's value, any other as the default. Keys compare exactly. */
  lemma {:induction false} SpreadGet(rec: Record, more: Record, key: string)
    requires DistinctRecord(more)
    ensures RecordGet(Spread(rec, more), key) == if RecordGet(more, key).Some? then RecordGet(more, key) else RecordGet(rec, key)
    decreases |more|
  {
    if |more| > 0 {
      var next := Assign(rec, more[0].0, more[0].1);
      SpreadGet(next, more[1..], key);
      AssignGet(rec, more[0].0, more[0].1, key);
      if more[0].0 == key {
        NotInRest(more, key);
      }
    }
  }

  lemma NotInRest(more: Record, key: string)
    requires DistinctRecord(more) && |more| > 0 && more[0].0 == key
    ensures RecordGet(more[1..], key).None?
  {
    RecordGetSome(more[1..], key);
  }

  lemma {:induction false} RecordGetSome(rec: Record, key: string)
    ensures RecordGet(rec, key).Some? <==> exists i :: 0 <= i < |rec| && rec[i].0 == key
    decreases |rec|
  {
    if |rec| > 0 {
      RecordGetSome(rec[1..], key);
      if RecordGet(rec[1..], key).Some? {
        var i :| 0 <= i < |rec[1..]| && rec[1..][i].0 == key;
        assert rec[i + 1].0 == key;
      }
      if exists i :: 0 <= i < |rec| && rec[i].0 == key {
        var i :| 0 <= i < |rec| && rec[i].0 == key;
        if i > 0 {
          assert rec[1..][i - 1].0 == key;
        }
      }
    }
  }

  /** The headers `apiRequest` sends: `Content-Type: application/json` unless
      the caller gives that exact key, the bearer token in a browser with a
      non-empty stored token unless the caller gives `Authorization`, and
      every other caller header as given. */
  lemma SentHeaders(endpoint: string, options: RequestInit, apiUrl: Option<string>, inBrowser: bool,
                    token: Option<string>, key: string)
    requires options.headers.Some? ==> DistinctRecord(options.headers.value)
    ensures var caller := options.headers.GetOr([]);
      RecordGet(CallFor(endpoint, options, apiUrl, inBrowser, token).headers, key)
      == if RecordGet(caller, key).Some? then RecordGet(caller, key)
         else if key == "Content-Type" then Some("application/json")
         else if key == "Authorization" && inBrowser && token.Some? && token.value != "" then Some("Bearer " + token.value)
         else None
  {
    var caller := options.headers.GetOr([]);
    SpreadGet(DefaultHeaders(inBrowser, token), caller, key);
    AssignGet([("Content-Type", "application/json")], "Authorization", "Bearer " + token.GetOr(""), key);
  }

  /** The override is by exact key: a caller's `content-type` does not replace
      the default `Content-Type`, and the request's headers then combine both
      values. */
  lemma CaseVariantNotOverridden()
    ensures var sent := Spread(DefaultHeaders(false, None), [("content-type", "text/plain")]);
      sent == [("Content-Type", "application/json"), ("content-type", "text/plain")]
      && GetValue(Filled(sent), "Content-Type") == Some("application/json, text/plain")
  {
    var sent := [("Content-Type", "application/json"), ("content-type", "text/plain")];
    assert Spread(DefaultHeaders(false, None), [("content-type", "text/plain")]) == sent;
    assert LowerCase("content-type") == LowerCase("Content-Type");
    ValuesFilled(sent, "Content-Type");
    assert Values(sent[2..], "Content-Type") == [];
    assert Values(sent[1..], "Content-Type") == ["text/plain"];
    assert Values(sent, "Content-Type") == ["application/json", "text/plain"];
    assert JoinWith(["text/plain"], ", ") == "text/plain";
    assert ["application/json", "text/plain"][1..] == ["text/plain"];
    assert JoinWith(["application/json", "text/plain"], ", ") == "application/json" + ", " + "text/plain";
    assert "application/json" + ", " + "text/plain" == "application/json, text/plain";
    assert Filled(sent) == Filled(Spread(DefaultHeaders(false, None), [("content-type", "text/plain")]));
  }

  /** A failed status fails with the status in the message; a success returns
      the parsed body unchanged, with no envelope unwrapping and no special
      204; only a 401 touches the browser. */
  lemma SettleCallRules(r: Response)
    ensures !Ok(r.status) ==> SettleCall(Responded(r)) == Failed(Error("Error", "HTTP error! status: " + IntString(r.status)))
    ensures Ok(r.status) && r.body.Parsed? ==> SettleCall(Responded(r)) == Resolved(r.body.json)
    ensures Ok(r.status) && r.body.Unparseable? ==> SettleCall(Responded(r)).Failed?
    ensures Unauthorized(Responded(r)) <==> r.status == 401
  {
  }
}
