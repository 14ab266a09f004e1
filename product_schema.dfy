/** The product form's schema: two required categories, two groups of three
    display flags, a date range whose ends are required, and an optional
    keyword of 1 to 50 characters. */
module ProductSchema {

  import opened Wrappers
  import opened Js
  import opened Zod

  const Category1Message := "첫 번째 품목을 선택해주세요."
  const Category2Message := "두 번째 품목을 선택해주세요."
  const StartDateMessage := "시작일을 선택해주세요."
  const EndDateMessage := "종료일을 선택해주세요."
  const KeywordMinMessage := "검색어를 입력해주세요."
  const KeywordMaxMessage := "검색어는 50자 이내로 입력해주세요."

  /** A group of three display flags. */
  const FlagSchema := ZObject([("all", ZBoolean), ("exhibited", ZBoolean), ("notExhibited", ZBoolean)])

  const KeywordSchema := ZOptional(ZString([Min(1, Some(KeywordMinMessage)), Max(50, Some(KeywordMaxMessage))]))

  const ProductSchema := ZObject([
    ("category1", ZString([Min(1, Some(Category1Message))])),
    ("category2", ZString([Min(1, Some(Category2Message))])),
    ("showRecommended", FlagSchema),
    ("showLuxury", FlagSchema),
    ("dateType", ZString([])),
    ("startDate", ZString([Min(1, Some(StartDateMessage))])),
    ("endDate", ZString([Min(1, Some(EndDateMessage))])),
    ("searchType", ZString([])),
    ("searchKeyword", KeywordSchema)
  ])

  predicate FlagGroup(v: JsValue)
  {
    v.Obj? && Field(v, "all").Bool? && Field(v, "exhibited").Bool? && Field(v, "notExhibited").Bool?
  }

  predicate NonEmptyString(v: JsValue)
  {
    v.Str? && |v.s| >= 1
  }

  predicate ValidProduct(v: JsValue)
  {
    v.Obj?
    && NonEmptyString(Field(v, "category1")) && NonEmptyString(Field(v, "category2"))
    && FlagGroup(Field(v, "showRecommended")) && FlagGroup(Field(v, "showLuxury"))
    && Field(v, "dateType").Str?
    && NonEmptyString(Field(v, "startDate")) && NonEmptyString(Field(v, "endDate"))
    && Field(v, "searchType").Str?
    && (Field(v, "searchKeyword").Undefined? || (NonEmptyString(Field(v, "searchKeyword")) && |Field(v, "searchKeyword").s| <= 50))
  }

  /** A flag group needs all three booleans. */
  lemma FlagsAccept(v: JsValue, isEmail: string -> bool)
    ensures Success(Parse(FlagSchema, v, isEmail)) <==> FlagGroup(v)
  {
    if v.Obj? {
      assert Success(ParseShape(FlagSchema, 3, v.fields, isEmail));
      ShapeStep(FlagSchema, 2, v.fields, isEmail);
      ShapeStep(FlagSchema, 1, v.fields, isEmail);
      ShapeStep(FlagSchema, 0, v.fields, isEmail);
    }
  }

  /** The keyword may be absent; a present one, even `''`, needs 1 to 50
      characters. */
  lemma KeywordAccepts(v: JsValue, isEmail: string -> bool)
    ensures Success(Parse(KeywordSchema, v, isEmail)) <==> v.Undefined? || (v.Str? && 1 <= |v.s| <= 50)
    ensures !Success(Parse(KeywordSchema, Str(""), isEmail)) && Success(Parse(KeywordSchema, Undefined, isEmail))
  {
    var checks := KeywordSchema.inner.checks;
    OptionalStringSchema(checks, v, isEmail);
    OptionalStringSchema(checks, Str(""), isEmail);
    if v.Str? {
      assert (forall i :: 0 <= i < |checks| ==> Passes(checks[i], v.s, isEmail))
         <==> Passes(checks[0], v.s, isEmail) && Passes(checks[1], v.s, isEmail);
    }
    assert !Passes(checks[0], "", isEmail);
  }

  /** What each key of the product schema accepts on its own. */
  lemma ProductFields(v: JsValue, isEmail: string -> bool)
    ensures var shape := ProductSchema.shape;
      (Success(Parse(shape[0].1, Field(v, "category1"), isEmail)) <==> NonEmptyString(Field(v, "category1")))
      && (Success(Parse(shape[1].1, Field(v, "category2"), isEmail)) <==> NonEmptyString(Field(v, "category2")))
      && (Success(Parse(shape[2].1, Field(v, "showRecommended"), isEmail)) <==> FlagGroup(Field(v, "showRecommended")))
      && (Success(Parse(shape[3].1, Field(v, "showLuxury"), isEmail)) <==> FlagGroup(Field(v, "showLuxury")))
      && (Success(Parse(shape[4].1, Field(v, "dateType"), isEmail)) <==> Field(v, "dateType").Str?)
      && (Success(Parse(shape[5].1, Field(v, "startDate"), isEmail)) <==> NonEmptyString(Field(v, "startDate")))
      && (Success(Parse(shape[6].1, Field(v, "endDate"), isEmail)) <==> NonEmptyString(Field(v, "endDate")))
      && (Success(Parse(shape[7].1, Field(v, "searchType"), isEmail)) <==> Field(v, "searchType").Str?)
      && (Success(Parse(shape[8].1, Field(v, "searchKeyword"), isEmail))
          <==> Field(v, "searchKeyword").Undefined? || (NonEmptyString(Field(v, "searchKeyword")) && |Field(v, "searchKeyword").s| <= 50))
  {
    var shape := ProductSchema.shape;
    StringSchemaSuccess(shape[0].1.checks, Field(v, "category1"), isEmail);
    StringSchemaSuccess(shape[1].1.checks, Field(v, "category2"), isEmail);
    FlagsAccept(Field(v, "showRecommended"), isEmail);
    FlagsAccept(Field(v, "showLuxury"), isEmail);
    StringSchemaSuccess(shape[4].1.checks, Field(v, "dateType"), isEmail);
    StringSchemaSuccess(shape[5].1.checks, Field(v, "startDate"), isEmail);
    StringSchemaSuccess(shape[6].1.checks, Field(v, "endDate"), isEmail);
    StringSchemaSuccess(shape[7].1.checks, Field(v, "searchType"), isEmail);
    KeywordAccepts(Field(v, "searchKeyword"), isEmail);
  }

  /** The product schema accepts exactly the valid products. */
  lemma ProductSchemaAccepts(v: JsValue, isEmail: string -> bool)
    ensures Success(Parse(ProductSchema, v, isEmail)) <==> ValidProduct(v)
  {
    if v.Obj? {
      var f := v.fields;
      ProductFields(v, isEmail);
      assert Success(ParseShape(ProductSchema, 9, f, isEmail));
      ShapeStep(ProductSchema, 8, f, isEmail);
      ShapeStep(ProductSchema, 7, f, isEmail);
      ShapeStep(ProductSchema, 6, f, isEmail);
      ShapeStep(ProductSchema, 5, f, isEmail);
      ShapeStep(ProductSchema, 4, f, isEmail);
      ShapeStep(ProductSchema, 3, f, isEmail);
      ShapeStep(ProductSchema, 2, f, isEmail);
      ShapeStep(ProductSchema, 1, f, isEmail);
      ShapeStep(ProductSchema, 0, f, isEmail);
    }
  }

  /** The default values of the product creation page. */
  const CreateDefaults := Obj(map[
    "category1" := Str(""), "category2" := Str(""),
    "showRecommended" := Obj(map["all" := Bool(true), "exhibited" := Bool(true), "notExhibited" := Bool(true)]),
    "showLuxury" := Obj(map["all" := Bool(true), "exhibited" := Bool(true), "notExhibited" := Bool(false)]),
    "dateType" := Str("regDate"), "startDate" := Str("2025-06-10"), "endDate" := Str("2025-06-17"),
    "searchType" := Str("none"), "searchKeyword" := Str("")
  ])

  /** The creation page's defaults are rejected: both categories are empty,
      and so is the present keyword. */
  lemma CreateDefaultsRejected(isEmail: string -> bool)
    ensures !Success(Parse(ProductSchema, CreateDefaults, isEmail))
    ensures !NonEmptyString(Field(CreateDefaults, "category1")) && !NonEmptyString(Field(CreateDefaults, "category2"))
    ensures !Success(Parse(KeywordSchema, Field(CreateDefaults, "searchKeyword"), isEmail))
    ensures FlagGroup(Field(CreateDefaults, "showRecommended")) && FlagGroup(Field(CreateDefaults, "showLuxury"))
    ensures NonEmptyString(Field(CreateDefaults, "startDate")) && NonEmptyString(Field(CreateDefaults, "endDate"))
  {
    ProductSchemaAccepts(CreateDefaults, isEmail);
    KeywordAccepts(Str(""), isEmail);
  }
}

/** The product list page's search form: the same fields as the product
    schema without the length minimums, and a keyword of at most 50
    characters. */
module ProductListForm {

  import opened Wrappers
  import opened Js
  import opened Zod
  import ProductSchema

  const KeywordSchema := ZOptional(ZString([Max(50, None)]))

  const FormSchema := ZObject([
    ("category1", ZString([])),
    ("category2", ZString([])),
    ("showRecommended", ProductSchema.FlagSchema),
    ("showLuxury", ProductSchema.FlagSchema),
    ("dateType", ZString([])),
    ("startDate", ZString([])),
    ("endDate", ZString([])),
    ("searchType", ZString([])),
    ("searchKeyword", KeywordSchema)
  ])

  predicate ValidForm(v: JsValue)
  {
    v.Obj?
    && Field(v, "category1").Str? && Field(v, "category2").Str?
    && ProductSchema.FlagGroup(Field(v, "showRecommended")) && ProductSchema.FlagGroup(Field(v, "showLuxury"))
    && Field(v, "dateType").Str? && Field(v, "startDate").Str? && Field(v, "endDate").Str?
    && Field(v, "searchType").Str?
    && (Field(v, "searchKeyword").Undefined? || (Field(v, "searchKeyword").Str? && |Field(v, "searchKeyword").s| <= 50))
  }

  /** The keyword has no minimum: `''` passes. */
  lemma KeywordAccepts(v: JsValue, isEmail: string -> bool)
    ensures Success(Parse(KeywordSchema, v, isEmail)) <==> v.Undefined? || (v.Str? && |v.s| <= 50)
    ensures Success(Parse(KeywordSchema, Str(""), isEmail))
  {
    OptionalStringSchema(KeywordSchema.inner.checks, v, isEmail);
    OptionalStringSchema(KeywordSchema.inner.checks, Str(""), isEmail);
  }

  lemma FormFields(v: JsValue, isEmail: string -> bool)
    ensures var shape := FormSchema.shape;
      (Success(Parse(shape[0].1, Field(v, "category1"), isEmail)) <==> Field(v, "category1").Str?)
      && (Success(Parse(shape[1].1, Field(v, "category2"), isEmail)) <==> Field(v, "category2").Str?)
      && (Success(Parse(shape[2].1, Field(v, "showRecommended"), isEmail)) <==> ProductSchema.FlagGroup(Field(v, "showRecommended")))
      && (Success(Parse(shape[3].1, Field(v, "showLuxury"), isEmail)) <==> ProductSchema.FlagGroup(Field(v, "showLuxury")))
      && (Success(Parse(shape[4].1, Field(v, "dateType"), isEmail)) <==> Field(v, "dateType").Str?)
      && (Success(Parse(shape[5].1, Field(v, "startDate"), isEmail)) <==> Field(v, "startDate").Str?)
      && (Success(Parse(shape[6].1, Field(v, "endDate"), isEmail)) <==> Field(v, "endDate").Str?)
      && (Success(Parse(shape[7].1, Field(v, "searchType"), isEmail)) <==> Field(v, "searchType").Str?)
      && (Success(Parse(shape[8].1, Field(v, "searchKeyword"), isEmail))
          <==> Field(v, "searchKeyword").Undefined? || (Field(v, "searchKeyword").Str? && |Field(v, "searchKeyword").s| <= 50))
  {
    ProductSchema.FlagsAccept(Field(v, "showRecommended"), isEmail);
    ProductSchema.FlagsAccept(Field(v, "showLuxury"), isEmail);
    KeywordAccepts(Field(v, "searchKeyword"), isEmail);
  }

  /** The search form accepts exactly the valid forms. */
  lemma FormSchemaAccepts(v: JsValue, isEmail: string -> bool)
    ensures Success(Parse(FormSchema, v, isEmail)) <==> ValidForm(v)
  {
    if v.Obj? {
      var f := v.fields;
      FormFields(v, isEmail);
      assert Success(ParseShape(FormSchema, 9, f, isEmail));
      ShapeStep(FormSchema, 8, f, isEmail);
      ShapeStep(FormSchema, 7, f, isEmail);
      ShapeStep(FormSchema, 6, f, isEmail);
      ShapeStep(FormSchema, 5, f, isEmail);
      ShapeStep(FormSchema, 4, f, isEmail);
      ShapeStep(FormSchema, 3, f, isEmail);
      ShapeStep(FormSchema, 2, f, isEmail);
      ShapeStep(FormSchema, 1, f, isEmail);
      ShapeStep(FormSchema, 0, f, isEmail);
    }
  }

  /** The form's default values. */
  const Defaults := Obj(map[
    "category1" := Str("all"), "category2" := Str("all"),
    "showRecommended" := Obj(map["all" := Bool(true), "exhibited" := Bool(true), "notExhibited" := Bool(true)]),
    "showLuxury" := Obj(map["all" := Bool(true), "exhibited" := Bool(true), "notExhibited" := Bool(false)]),
    "dateType" := Str("regDate"), "startDate" := Str("2025-06-03"), "endDate" := Str("2025-06-10"),
    "searchType" := Str("none"), "searchKeyword" := Str("")
  ])

  /** The default values pass the form's schema. */
  lemma DefaultsAccepted(isEmail: string -> bool)
    ensures Success(Parse(FormSchema, Defaults, isEmail))
  {
    FormSchemaAccepts(Defaults, isEmail);
  }
}
