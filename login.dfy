/** The back-office `login` service: validate the form values, post the user
    name and password to `/auth`, keep a returned token in storage, and turn
    every failure into one `Error` whose message says what went wrong. */
module LoginService {

  import opened Wrappers
  import opened Js
  import opened Fetch
  import opened Zod
  import opened ApiClient
  import AuthSchema
  import Seqs

  const InvalidInputMessage := "입력 형식이 올바르지 않습니다."
  const FailurePrefix := "로그인 실패: "
  const UnknownFailureMessage := "로그인 중 알 수 없는 오류가 발생했습니다."

  /** Reading `token` from a JSON `null` response throws this. */
  const NullTokenError := Error("TypeError", "Cannot read properties of null (reading 'token')")

  /** Outside a browser, `localStorage` is not defined. */
  const NoStorageError := Error("ReferenceError", "localStorage is not defined")

  /** The catch block: a validation error, any other `Error`, anything else. */
  function Rethrown(e: Thrown): Thrown
  {
    if e.Error? && e.name == "ZodError" then Error("Error", InvalidInputMessage)
    else if e.Error? then Error("Error", FailurePrefix + e.message)
    else Error("Error", UnknownFailureMessage)
  }

  /** The request body: only the user name and the password. */
  function Credentials(validated: JsValue): RequestBody
  {
    JsonText(Obj(map["userName" := Field(validated, "userName"), "password" := Field(validated, "password")]))
  }

  const AuthEndpoint := "/auth"

  function LoginInit(validated: JsValue): RequestInit
  {
    RequestInit(Some("POST"), None, Credentials(validated))
  }

  /** What `login` makes of a settled request, outside of storage. */
  function LoginSettle(settled: Settled, inBrowser: bool): Settled
  {
    match settled
    case Failed(e) => Failed(Rethrown(e))
    case Resolved(response) =>
      match GetProperty(response, "token")
      case ThrowsTypeError => Failed(Rethrown(NullTokenError))
      case Value(token) =>
        if Truthy(token) && !inBrowser then Failed(Rethrown(NoStorageError)) else settled
  }

  /** The token `login` stores, if any. */
  function StoredByLogin(settled: Settled): Option<string>
  {
    if settled.Resolved? && GetProperty(settled.value, "token").Value?
       && Truthy(GetProperty(settled.value, "token").value)
    then Some(ToString(GetProperty(settled.value, "token").value))
    else None
  }

  /** `login(input)`. */
  method Login(input: JsValue, isEmail: string -> bool, apiUrl: Option<string>, browser: Browser?,
               fetch: ApiCall -> FetchResult)
    returns (outcome: Settled, sent: Option<ApiCall>)
    modifies if browser != null then {browser} else {}
    ensures !AuthSchema.ValidLogin(input) ==>
      sent.None? && outcome == Failed(Error("Error", InvalidInputMessage))
      && (browser != null ==> unchanged(browser))
    ensures AuthSchema.ValidLogin(input) ==>
      sent == Some(CallFor(AuthEndpoint, LoginInit(input), apiUrl, browser != null,
                           if browser != null then StoredToken(old(browser.storage)) else None))
      && outcome == LoginSettle(SettleCall(fetch(sent.value)), browser != null)
    ensures AuthSchema.ValidLogin(input) && browser != null ==>
      var afterCall := if Unauthorized(fetch(sent.value)) then old(browser.storage) - {TokenKey} else old(browser.storage);
      var stored := StoredByLogin(SettleCall(fetch(sent.value)));
      browser.storage == (if stored.Some? then afterCall[TokenKey := stored.value] else afterCall)
    ensures AuthSchema.ValidLogin(input) && browser != null ==>
      browser.location == (if Unauthorized(fetch(sent.value)) then LoginPath else old(browser.location))
  {
    var parsed := Parse(AuthSchema.LoginSchema, input, isEmail);
    AuthSchema.LoginSchemaAccepts(input, isEmail);
    if !Success(parsed) {
      outcome := Failed(Rethrown(Error("ZodError", "")));
      sent := None;
      return;
    }
    var validated := parsed.value;
    AuthSchema.LoginSchemaOutput(input, isEmail, "");
    assert Credentials(validated) == Credentials(input);

    var call;
    var settled;
    settled, call := ApiRequest(AuthEndpoint, LoginInit(validated), apiUrl, browser, fetch);
    sent := Some(call);
    match settled
    case Failed(e) =>
      outcome := Failed(Rethrown(e));
    case Resolved(response) =>
      match GetProperty(response, "token")
      case ThrowsTypeError =>
        outcome := Failed(Rethrown(NullTokenError));
      case Value(token) =>
        if Truthy(token) {
          if browser == null {
            outcome := Failed(Rethrown(NoStorageError));
            return;
          }
          browser.storage := browser.storage[TokenKey := ToString(token)];
        }
        outcome := settled;
  }

  // ---------------------------------------------------------------------
  // Properties

  /** The validation error is classified before the generic one: invalid input
      never gets the failure prefix, while any other `Error` gets it in front
      of its own message, and a non-`Error` gets the unknown-failure message. */
  lemma RethrownMessages(e: Thrown)
    ensures Rethrown(e).Error? && Rethrown(e).name == "Error"
    ensures e.Error? && e.name == "ZodError" ==> Rethrown(e).message == InvalidInputMessage
    ensures e.Error? && e.name != "ZodError" ==> Rethrown(e).message == FailurePrefix + e.message
    ensures e.NonError? ==> Rethrown(e).message == UnknownFailureMessage
    ensures !Seqs.StartsWith(InvalidInputMessage, FailurePrefix)
  {
    Seqs.NotStartsWith(InvalidInputMessage, FailurePrefix, 0);
  }

  /** A rejected login (a 401 from the server) fails with the status in the
      message, and a browser loses its stored token and goes to the login page. */
  lemma UnauthorizedLogin(body: BodyParse, inBrowser: bool)
    ensures LoginSettle(SettleCall(Responded(Response(401, body))), inBrowser)
         == Failed(Error("Error", "로그인 실패: HTTP error! status: 401"))
    ensures StoredByLogin(SettleCall(Responded(Response(401, body)))).None?
    ensures Unauthorized(Responded(Response(401, body)))
  {
    Status401();
    assert FailurePrefix + "HTTP error! status: 401" == "로그인 실패: HTTP error! status: 401";
  }

  lemma Status401()
    ensures StatusMessage(401) == "HTTP error! status: 401"
  {
    assert NatString(4) == "4";
    assert NatString(40) == NatString(4) + [Digit(0)] == "40";
    assert NatString(401) == NatString(40) + [Digit(1)] == "401";
  }

  /** A successful response is returned unchanged, and its token is stored
      exactly when it is truthy. */
  lemma SuccessfulLogin(response: Json, inBrowser: bool)
    requires response.Obj?
    ensures var token := Field(response, "token");
      LoginSettle(Resolved(response), inBrowser)
        == (if Truthy(token) && !inBrowser then Failed(Error("Error", FailurePrefix + "localStorage is not defined"))
            else Resolved(response))
      && (StoredByLogin(Resolved(response)).Some? <==> Truthy(token))
      && (Truthy(token) ==> StoredByLogin(Resolved(response)) == Some(ToString(token)))
  {
  }

  /** The credentials sent are the user name and password of the form, and
      nothing else (`saveId` stays behind). */
  lemma CredentialsOnly(input: JsValue)
    ensures Credentials(input).JsonText? && Credentials(input).value.Obj?
    ensures Credentials(input).value.fields.Keys == {"userName", "password"}
    ensures Credentials(input).value.fields["userName"] == Field(input, "userName")
    ensures Credentials(input).value.fields["password"] == Field(input, "password")
  {
  }
}
