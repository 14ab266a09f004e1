/** The back-office login form's schema: a non-empty user name, a password of
    at least four characters, and an optional "save id" flag. */
module AuthSchema {

  import opened Wrappers
  import opened Js
  import opened Zod

  const UserNameMessage := "아이디를 입력해 주세요."
  const PasswordMessage := "비밀번호는 최소 4자 이상이어야 합니다."

  const LoginSchema := ZObject([
    ("userName", ZString([Min(1, Some(UserNameMessage))])),
    ("password", ZString([Min(4, Some(PasswordMessage))])),
    ("saveId", ZOptional(ZBoolean))
  ])

  /** What the schema demands of an input. */
  predicate ValidLogin(v: JsValue)
  {
    v.Obj?
    && Field(v, "userName").Str? && |Field(v, "userName").s| >= 1
    && Field(v, "password").Str? && |Field(v, "password").s| >= 4
    && (Field(v, "saveId").Undefined? || Field(v, "saveId").Bool?)
  }

  /** The schema accepts exactly the valid inputs. */
  lemma LoginSchemaAccepts(v: JsValue, isEmail: string -> bool)
    ensures Success(Parse(LoginSchema, v, isEmail)) <==> ValidLogin(v)
  {
    if v.Obj? {
      ShapeSuccess(LoginSchema, 0, v.fields, isEmail);
      var shape := LoginSchema.shape;
      assert shape[0].0 == "userName" && shape[1].0 == "password" && shape[2].0 == "saveId";
      if Field(v, "userName").Str? {
        StringIssuesEmpty(shape[0].1.checks, Field(v, "userName").s, isEmail);
      }
      if Field(v, "password").Str? {
        StringIssuesEmpty(shape[1].1.checks, Field(v, "password").s, isEmail);
      }
    }
  }

  /** A valid input parses to its own user name and password, and the output
      holds no key outside the schema. */
  lemma LoginSchemaOutput(v: JsValue, isEmail: string -> bool, key: string)
    requires ValidLogin(v)
    ensures var out := Parse(LoginSchema, v, isEmail).value;
      out.Obj? && Field(out, "userName") == Field(v, "userName") && Field(out, "password") == Field(v, "password")
      && (key in out.fields ==> key in {"userName", "password", "saveId"})
  {
    var shape := LoginSchema.shape;
    assert shape[0].0 == "userName" && shape[1].0 == "password" && shape[2].0 == "saveId";
    assert DistinctKeys(shape, 0);
    ShapeOutput(LoginSchema, 0, v.fields, isEmail, "userName");
    ShapeOutput(LoginSchema, 0, v.fields, isEmail, "password");
    ShapeOutput(LoginSchema, 0, v.fields, isEmail, key);
  }

  /** A password shorter than four characters is rejected with the schema's
      message, and nothing else is wrong with an otherwise valid input. */
  lemma ShortPasswordRejected(userName: string, password: string, isEmail: string -> bool)
    requires |userName| >= 1 && |password| < 4
    ensures Parse(LoginSchema, Obj(map["userName" := Str(userName), "password" := Str(password)]), isEmail).issues
         == [Issue(["password"], TooSmall(4), Some(PasswordMessage))]
  {
    var fields := map["userName" := Str(userName), "password" := Str(password)];
    assert ParseShape(LoginSchema, 2, fields, isEmail).issues == [];
    OneCheck(Min(4, Some(PasswordMessage)), Str(password), isEmail);
    PrefixOne("password", TooSmall(4), Some(PasswordMessage));
    assert ParseShape(LoginSchema, 1, fields, isEmail).issues == [Issue(["password"], TooSmall(4), Some(PasswordMessage))];
    OneCheck(Min(1, Some(UserNameMessage)), Str(userName), isEmail);
  }

  /** The login form's default values fail on both fields. */
  lemma FormDefaultsRejected(isEmail: string -> bool)
    ensures Parse(LoginSchema, Obj(map["userName" := Str(""), "password" := Str(""), "saveId" := Bool(false)]), isEmail).issues
         == [Issue(["userName"], TooSmall(1), Some(UserNameMessage)), Issue(["password"], TooSmall(4), Some(PasswordMessage))]
  {
    var fields := map["userName" := Str(""), "password" := Str(""), "saveId" := Bool(false)];
    assert ParseShape(LoginSchema, 2, fields, isEmail).issues == [] by {
      assert ParseShape(LoginSchema, 3, fields, isEmail).issues == [];
    }
    OneCheck(Min(4, Some(PasswordMessage)), Str(""), isEmail);
    PrefixOne("password", TooSmall(4), Some(PasswordMessage));
    assert ParseShape(LoginSchema, 1, fields, isEmail).issues == [Issue(["password"], TooSmall(4), Some(PasswordMessage))];
    OneCheck(Min(1, Some(UserNameMessage)), Str(""), isEmail);
    PrefixOne("userName", TooSmall(1), Some(UserNameMessage));
  }
}
