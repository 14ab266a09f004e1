/** The mock authentication endpoint: a status and JSON body chosen from the
    request's JSON body. */
module AuthRoute {

  import opened Js
  import opened Fetch

  /** `NextResponse.json(body, { status })`. */
  datatype JsonResponse = JsonResponse(status: int, body: JsValue)

  const TestEmail := "test@example.com"
  const TestPassword := "password123"

  function ErrorBody(message: string): JsValue
  {
    Obj(map["error" := Str(message)])
  }

  const ServerError := JsonResponse(500, ErrorBody("Internal server error"))

  function SuccessBody(email: JsValue): JsValue
  {
    Obj(map["message" := Str("Login successful"),
            "user" := Obj(map["id" := Num(1), "email" := email, "name" := Str("Test User")])])
  }

  /** `POST(request)`, for what `request.json()` settles to. Only the test
      account's credentials succeed, and the success echoes its email. */
  function Post(body: BodyParse): (r: JsonResponse)
    ensures r.status in {200, 400, 401, 500}
    ensures r.status == 200 <==>
      body.Parsed? && FieldOf(body.json, "email") == Str(TestEmail) && FieldOf(body.json, "password") == Str(TestPassword)
    ensures r.status == 200 ==> r.body == SuccessBody(Str(TestEmail))
  {
    match body
    case Unparseable(_) => ServerError
    case Parsed(b) =>
      match (GetProperty(b, "email"), GetProperty(b, "password"))
      case (Value(email), Value(password)) =>
        if !Truthy(email) || !Truthy(password) then JsonResponse(400, ErrorBody("Missing email or password"))
        else if email == Str(TestEmail) && password == Str(TestPassword) then JsonResponse(200, SuccessBody(email))
        else JsonResponse(401, ErrorBody("Invalid credentials"))
      case _ => ServerError
  }

  /** `GET()`: a success that no `POST` answer can be mistaken for. */
  function Get(): (r: JsonResponse)
    ensures r.status == 200
    ensures forall body :: Post(body) != r
  {
    var r := JsonResponse(200, Obj(map["message" := Str("Auth endpoint working")]));
    assert "user" !in r.body.fields && "user" in SuccessBody(Str(TestEmail)).fields;
    r
  }

  /** The body's field as the destructuring reads it. */
  function FieldOf(b: Json, key: string): JsValue
  {
    if b.Obj? && key in b.fields then b.fields[key] else Undefined
  }

  /** The status decision: 500 for a body that is not JSON or is `null`; else
      400 when either field is falsy; else 200 for exactly the test
      credentials; else 401. The checks come in that order, so a missing field
      is never answered with 401. */
  lemma PostStatus(body: BodyParse)
    ensures body.Unparseable? || body == Parsed(Null) ==> Post(body) == ServerError
    ensures body.Parsed? && !body.json.Null? ==>
      var email, password := FieldOf(body.json, "email"), FieldOf(body.json, "password");
      Post(body).status == (if !Truthy(email) || !Truthy(password) then 400
                           else if email == Str(TestEmail) && password == Str(TestPassword) then 200
                           else 401)
  {
  }

  /** The bodies that go with each status. */
  lemma PostBodies(body: BodyParse)
    ensures Post(body).status == 400 ==> Post(body).body == ErrorBody("Missing email or password")
    ensures Post(body).status == 401 ==> Post(body).body == ErrorBody("Invalid credentials")
    ensures Post(body).status == 500 ==> Post(body).body == ErrorBody("Internal server error")
    ensures Post(body).status in {200, 400, 401, 500}
  {
  }

  /** A body carrying an email and a password. */
  function Credentials(email: string, password: string): Json
  {
    var fields := map["email" := Str(email), "password" := Str(password)];
    assert forall k :: k in fields ==> IsJson(fields[k]);
    Obj(fields)
  }

  /** A successful login echoes the email and reports the test user. */
  lemma SuccessfulLogin()
    ensures Post(Parsed(Credentials(TestEmail, TestPassword))) == JsonResponse(200, Obj(map["message" := Str("Login successful"),
        "user" := Obj(map["id" := Num(1), "email" := Str(TestEmail), "name" := Str("Test User")])]))
  {
  }
}
