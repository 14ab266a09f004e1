/** The application's user, login and profile-update schemas. The email
    check is the `isEmail` parameter: zod's email pattern is not part of this
    model. */
module AppSchema {

  import opened Wrappers
  import opened Js
  import opened Zod

  const NameMessage := "Name must be at least 2 characters"
  const EmailMessage := "Invalid email address"
  const PasswordMessage := "Password must be at least 6 characters"
  const RefineMessage := "Current password is required when setting new password"

  const Roles := ["user", "admin"]

  const UserSchema := ZObject([
    ("id", ZOptional(ZNumber)),
    ("name", ZString([Min(2, Some(NameMessage))])),
    ("email", ZString([Email(Some(EmailMessage))])),
    ("password", ZString([Min(6, Some(PasswordMessage))])),
    ("role", ZDefault(ZEnum(Roles), Str("user"))),
    ("createdAt", ZOptional(ZDate)),
    ("updatedAt", ZOptional(ZDate))
  ])

  const LoginSchema := ZObject([
    ("email", ZString([Email(Some(EmailMessage))])),
    ("password", ZString([Min(6, Some(PasswordMessage))]))
  ])

  const ProfileFields := ZObject([
    ("name", ZOptional(ZString([Min(2, Some(NameMessage))]))),
    ("email", ZOptional(ZString([Email(Some(EmailMessage))]))),
    ("currentPassword", ZOptional(ZString([Min(6, Some(PasswordMessage))]))),
    ("newPassword", ZOptional(ZString([Min(6, Some(PasswordMessage))])))
  ])

  /** The refinement: a new password needs the current one. */
  predicate PasswordChangeAllowed(data: JsValue)
  {
    !(Truthy(Field(data, "newPassword")) && !Truthy(Field(data, "currentPassword")))
  }

  const ProfileUpdateSchema := ZRefine(ProfileFields, PasswordChangeAllowed, RefineMessage, ["currentPassword"])

  const RefineIssue := Issue(["currentPassword"], Custom, Some(RefineMessage))

  // ---------------------------------------------------------------------
  // What each schema accepts

  predicate LongString(v: JsValue, n: nat)
  {
    v.Str? && |v.s| >= n
  }

  predicate EmailString(v: JsValue, isEmail: string -> bool)
  {
    v.Str? && isEmail(v.s)
  }

  predicate ValidUser(v: JsValue, isEmail: string -> bool)
  {
    v.Obj?
    && (Field(v, "id").Undefined? || Field(v, "id").Num?)
    && LongString(Field(v, "name"), 2)
    && EmailString(Field(v, "email"), isEmail)
    && LongString(Field(v, "password"), 6)
    && (Field(v, "role").Undefined? || Field(v, "role") == Str("user") || Field(v, "role") == Str("admin"))
    && (Field(v, "createdAt").Undefined? || Field(v, "createdAt").Date?)
    && (Field(v, "updatedAt").Undefined? || Field(v, "updatedAt").Date?)
  }

  /** What each key of `userSchema` accepts on its own. */
  lemma UserFields(v: JsValue, isEmail: string -> bool)
    ensures var shape := UserSchema.shape;
      (Success(Parse(shape[0].1, Field(v, "id"), isEmail)) <==> Field(v, "id").Undefined? || Field(v, "id").Num?)
      && (Success(Parse(shape[1].1, Field(v, "name"), isEmail)) <==> LongString(Field(v, "name"), 2))
      && (Success(Parse(shape[2].1, Field(v, "email"), isEmail)) <==> EmailString(Field(v, "email"), isEmail))
      && (Success(Parse(shape[3].1, Field(v, "password"), isEmail)) <==> LongString(Field(v, "password"), 6))
      && (Success(Parse(shape[4].1, Field(v, "role"), isEmail))
          <==> Field(v, "role").Undefined? || Field(v, "role") == Str("user") || Field(v, "role") == Str("admin"))
      && (Success(Parse(shape[5].1, Field(v, "createdAt"), isEmail)) <==> Field(v, "createdAt").Undefined? || Field(v, "createdAt").Date?)
      && (Success(Parse(shape[6].1, Field(v, "updatedAt"), isEmail)) <==> Field(v, "updatedAt").Undefined? || Field(v, "updatedAt").Date?)
  {
    var shape := UserSchema.shape;
    StringSchemaSuccess(shape[1].1.checks, Field(v, "name"), isEmail);
    StringSchemaSuccess(shape[2].1.checks, Field(v, "email"), isEmail);
    StringSchemaSuccess(shape[3].1.checks, Field(v, "password"), isEmail);
  }

  /** `userSchema` accepts exactly the valid users. */
  lemma UserSchemaAccepts(v: JsValue, isEmail: string -> bool)
    ensures Success(Parse(UserSchema, v, isEmail)) <==> ValidUser(v, isEmail)
  {
    if v.Obj? {
      var f := v.fields;
      UserFields(v, isEmail);
      assert Success(ParseShape(UserSchema, 7, f, isEmail));
      ShapeStep(UserSchema, 6, f, isEmail);
      ShapeStep(UserSchema, 5, f, isEmail);
      ShapeStep(UserSchema, 4, f, isEmail);
      ShapeStep(UserSchema, 3, f, isEmail);
      ShapeStep(UserSchema, 2, f, isEmail);
      ShapeStep(UserSchema, 1, f, isEmail);
      ShapeStep(UserSchema, 0, f, isEmail);
    }
  }

  /** A missing role comes out as `'user'`; a given one is kept. */
  lemma UserRoleDefault(v: JsValue, isEmail: string -> bool)
    requires ValidUser(v, isEmail)
    ensures Field(Parse(UserSchema, v, isEmail).value, "role")
         == if Field(v, "role").Undefined? then Str("user") else Field(v, "role")
  {
    assert DistinctKeys(UserSchema.shape, 0);
    assert UserSchema.shape[4].0 == "role";
    ShapeOutput(UserSchema, 0, v.fields, isEmail, "role");
  }

  predicate ValidLogin(v: JsValue, isEmail: string -> bool)
  {
    v.Obj? && EmailString(Field(v, "email"), isEmail) && LongString(Field(v, "password"), 6)
  }

  /** `loginSchema` accepts exactly an email and a password of six or more. */
  lemma LoginSchemaAccepts(v: JsValue, isEmail: string -> bool)
    ensures Success(Parse(LoginSchema, v, isEmail)) <==> ValidLogin(v, isEmail)
  {
    if v.Obj? {
      var shape := LoginSchema.shape;
      ShapeSuccess(LoginSchema, 0, v.fields, isEmail);
      StringSchemaSuccess(shape[0].1.checks, Field(v, "email"), isEmail);
      StringSchemaSuccess(shape[1].1.checks, Field(v, "password"), isEmail);
    }
  }

  /** Each profile field is absent or a string. */
  predicate ProfileTypes(v: JsValue)
  {
    v.Obj?
    && (Field(v, "name").Undefined? || Field(v, "name").Str?)
    && (Field(v, "email").Undefined? || Field(v, "email").Str?)
    && (Field(v, "currentPassword").Undefined? || Field(v, "currentPassword").Str?)
    && (Field(v, "newPassword").Undefined? || Field(v, "newPassword").Str?)
  }

  /** Each profile field is absent or meets its bound. */
  predicate ValidProfileFields(v: JsValue, isEmail: string -> bool)
  {
    v.Obj?
    && (Field(v, "name").Undefined? || LongString(Field(v, "name"), 2))
    && (Field(v, "email").Undefined? || EmailString(Field(v, "email"), isEmail))
    && (Field(v, "currentPassword").Undefined? || LongString(Field(v, "currentPassword"), 6))
    && (Field(v, "newPassword").Undefined? || LongString(Field(v, "newPassword"), 6))
  }

  /** What each profile key accepts on its own, and when it aborts. */
  lemma ProfileFieldFacts(v: JsValue, isEmail: string -> bool)
    ensures var shape := ProfileFields.shape;
      (Success(Parse(shape[0].1, Field(v, "name"), isEmail)) <==> Field(v, "name").Undefined? || LongString(Field(v, "name"), 2))
      && (Success(Parse(shape[1].1, Field(v, "email"), isEmail)) <==> Field(v, "email").Undefined? || EmailString(Field(v, "email"), isEmail))
      && (Success(Parse(shape[2].1, Field(v, "currentPassword"), isEmail))
          <==> Field(v, "currentPassword").Undefined? || LongString(Field(v, "currentPassword"), 6))
      && (Success(Parse(shape[3].1, Field(v, "newPassword"), isEmail))
          <==> Field(v, "newPassword").Undefined? || LongString(Field(v, "newPassword"), 6))
      && (!Parse(shape[0].1, Field(v, "name"), isEmail).aborted <==> Field(v, "name").Undefined? || Field(v, "name").Str?)
      && (!Parse(shape[1].1, Field(v, "email"), isEmail).aborted <==> Field(v, "email").Undefined? || Field(v, "email").Str?)
      && (!Parse(shape[2].1, Field(v, "currentPassword"), isEmail).aborted
          <==> Field(v, "currentPassword").Undefined? || Field(v, "currentPassword").Str?)
      && (!Parse(shape[3].1, Field(v, "newPassword"), isEmail).aborted
          <==> Field(v, "newPassword").Undefined? || Field(v, "newPassword").Str?)
  {
    var shape := ProfileFields.shape;
    OptionalStringSchema(shape[0].1.inner.checks, Field(v, "name"), isEmail);
    OptionalStringSchema(shape[1].1.inner.checks, Field(v, "email"), isEmail);
    OptionalStringSchema(shape[2].1.inner.checks, Field(v, "currentPassword"), isEmail);
    OptionalStringSchema(shape[3].1.inner.checks, Field(v, "newPassword"), isEmail);
  }

  /** The fields pass exactly when each is absent or meets its bound, and a
      wrong type aborts. */
  lemma ProfileFieldsParse(v: JsValue, isEmail: string -> bool)
    ensures Success(Parse(ProfileFields, v, isEmail)) <==> ValidProfileFields(v, isEmail)
    ensures !Parse(ProfileFields, v, isEmail).aborted <==> ProfileTypes(v)
  {
    if v.Obj? {
      ProfileFieldsSuccess(v, isEmail);
      ProfileFieldsAborted(v, isEmail);
    }
  }

  lemma ProfileFieldsSuccess(v: JsValue, isEmail: string -> bool)
    requires v.Obj?
    ensures Success(ParseShape(ProfileFields, 0, v.fields, isEmail)) <==> ValidProfileFields(v, isEmail)
  {
    var f := v.fields;
    ProfileFieldFacts(v, isEmail);
    assert Success(ParseShape(ProfileFields, 4, f, isEmail));
    ShapeStep(ProfileFields, 3, f, isEmail);
    ShapeStep(ProfileFields, 2, f, isEmail);
    ShapeStep(ProfileFields, 1, f, isEmail);
    ShapeStep(ProfileFields, 0, f, isEmail);
  }

  lemma ProfileFieldsAborted(v: JsValue, isEmail: string -> bool)
    requires v.Obj?
    ensures !ParseShape(ProfileFields, 0, v.fields, isEmail).aborted <==> ProfileTypes(v)
  {
    var f := v.fields;
    ProfileFieldFacts(v, isEmail);
    assert !ParseShape(ProfileFields, 4, f, isEmail).aborted;
    ShapeStep(ProfileFields, 3, f, isEmail);
    ShapeStep(ProfileFields, 2, f, isEmail);
    ShapeStep(ProfileFields, 1, f, isEmail);
    ShapeStep(ProfileFields, 0, f, isEmail);
  }

  /** The fields of a well-typed input are read back unchanged. */
  lemma ProfileFieldsOutput(v: JsValue, isEmail: string -> bool, key: string)
    requires ProfileTypes(v)
    ensures Field(Parse(ProfileFields, v, isEmail).value, key)
         == if key in {"name", "email", "currentPassword", "newPassword"} then Field(v, key) else Undefined
  {
    var shape := ProfileFields.shape;
    assert DistinctKeys(shape, 0);
    OptionalStringSchema(shape[0].1.inner.checks, Field(v, "name"), isEmail);
    OptionalStringSchema(shape[1].1.inner.checks, Field(v, "email"), isEmail);
    OptionalStringSchema(shape[2].1.inner.checks, Field(v, "currentPassword"), isEmail);
    OptionalStringSchema(shape[3].1.inner.checks, Field(v, "newPassword"), isEmail);
    ShapeOutput(ProfileFields, 0, v.fields, isEmail, key);
    if key !in {"name", "email", "currentPassword", "newPassword"} {
      assert forall j :: 0 <= j < 4 ==> shape[j].0 != key;
    }
  }

  /** `profileUpdateSchema` accepts exactly the inputs whose fields are valid
      and that do not set a new password without the current one. */
  lemma ProfileUpdateAccepts(v: JsValue, isEmail: string -> bool)
    ensures Success(Parse(ProfileUpdateSchema, v, isEmail))
        <==> ValidProfileFields(v, isEmail) && PasswordChangeAllowed(v)
  {
    ProfileFieldsParse(v, isEmail);
    if ProfileTypes(v) {
      RefinementReadsInput(v, isEmail);
    }
  }

  lemma RefinementReadsInput(v: JsValue, isEmail: string -> bool)
    requires ProfileTypes(v)
    ensures PasswordChangeAllowed(Parse(ProfileFields, v, isEmail).value) == PasswordChangeAllowed(v)
  {
    ProfileFieldsOutput(v, isEmail, "newPassword");
    ProfileFieldsOutput(v, isEmail, "currentPassword");
  }

  /** Once the field types are right, the refinement runs even when a length
      or email check failed: its issue, at `["currentPassword"]`, follows the
      field issues exactly when a new password comes without the current one. */
  lemma ProfileRefinementIssue(v: JsValue, isEmail: string -> bool)
    requires ProfileTypes(v)
    ensures Parse(ProfileUpdateSchema, v, isEmail).issues
         == Parse(ProfileFields, v, isEmail).issues + (if PasswordChangeAllowed(v) then [] else [RefineIssue])
  {
    ProfileFieldsParse(v, isEmail);
    RefinementReadsInput(v, isEmail);
    if PasswordChangeAllowed(v) {
      assert Parse(ProfileFields, v, isEmail).issues + [] == Parse(ProfileFields, v, isEmail).issues;
    }
  }

  /** Without a new password the refinement never objects, whatever the
      current password is. */
  lemma NoNewPasswordNoRefinement(v: JsValue, isEmail: string -> bool)
    requires Field(v, "newPassword").Undefined?
    ensures Success(Parse(ProfileUpdateSchema, v, isEmail)) <==> ValidProfileFields(v, isEmail)
  {
    ProfileUpdateAccepts(v, isEmail);
  }
}
