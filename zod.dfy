/** The part of zod the validators use: string checks, numbers, booleans,
    dates, string enums, `optional`, `default`, objects (unknown keys
    stripped) and `refine`. Parsing collects every issue; a wrong type stops
    its own branch (the parse is aborted there) while a failed check only
    marks the result dirty, so a refinement still runs after failed checks. */
module Zod {

  import opened Wrappers
  import opened Js

  /** A check on a string, with its custom message if one was given. */
  datatype Check =
    | Min(n: nat, message: Option<string>)
    | Max(n: nat, message: Option<string>)
    | Email(message: Option<string>)

  datatype Schema =
    | ZString(checks: seq<Check>)
    | ZNumber
    | ZBoolean
    | ZDate
    | ZEnum(options: seq<string>)
    | ZOptional(inner: Schema)
    | ZDefault(inner: Schema, default: JsValue)
    | ZObject(shape: seq<(string, Schema)>)
    | ZRefine(inner: Schema, accept: JsValue -> bool, refineMessage: string, refinePath: seq<string>)

  datatype IssueKind = InvalidType | TooSmall(minimum: nat) | TooBig(maximum: nat) | InvalidEmail | InvalidEnumValue | Custom

  /** An issue: where, what, and the custom message (`None`: zod's own text). */
  datatype Issue = Issue(path: seq<string>, kind: IssueKind, message: Option<string>)

  /** The parsed value, the issues, and whether a type error aborted it. */
  datatype Outcome = Outcome(value: JsValue, issues: seq<Issue>, aborted: bool)

  predicate Success(o: Outcome)
  {
    |o.issues| == 0
  }

  /** The property `key` of an object as zod reads it. */
  function Field(v: JsValue, key: string): JsValue
  {
    if v.Obj? && key in v.fields then v.fields[key] else Undefined
  }

  function CheckIssues(c: Check, s: string, isEmail: string -> bool): (r: seq<Issue>)
    ensures |r| <= 1
  {
    match c
    case Min(n, m) => if |s| >= n then [] else [Issue([], TooSmall(n), m)]
    case Max(n, m) => if |s| <= n then [] else [Issue([], TooBig(n), m)]
    case Email(m) => if isEmail(s) then [] else [Issue([], InvalidEmail, m)]
  }

  /** Every check runs; each failure is one issue, in check order. */
  function StringIssues(checks: seq<Check>, s: string, isEmail: string -> bool): seq<Issue>
  {
    if |checks| == 0 then [] else CheckIssues(checks[0], s, isEmail) + StringIssues(checks[1..], s, isEmail)
  }

  function TypeMismatch(v: JsValue): Outcome
  {
    Outcome(v, [Issue([], InvalidType, None)], true)
  }

  function Prefix(key: string, issues: seq<Issue>): (r: seq<Issue>)
    ensures |r| == |issues|
  {
    seq(|issues|, i requires 0 <= i < |issues| => Issue([key] + issues[i].path, issues[i].kind, issues[i].message))
  }

  /** `schema.safeParse(v)`. */
  function Parse(s: Schema, v: JsValue, isEmail: string -> bool): (o: Outcome)
    ensures o.aborted ==> |o.issues| > 0
    decreases s, 1
  {
    match s
    case ZString(checks) =>
      if v.Str? then Outcome(v, StringIssues(checks, v.s, isEmail), false) else TypeMismatch(v)
    case ZNumber => if v.Num? then Outcome(v, [], false) else TypeMismatch(v)
    case ZBoolean => if v.Bool? then Outcome(v, [], false) else TypeMismatch(v)
    case ZDate => if v.Date? then Outcome(v, [], false) else TypeMismatch(v)
    case ZEnum(options) =>
      if !v.Str? then TypeMismatch(v)
      else if v.s in options then Outcome(v, [], false)
      else Outcome(v, [Issue([], InvalidEnumValue, None)], true)
    case ZOptional(inner) => if v.Undefined? then Outcome(Undefined, [], false) else Parse(inner, v, isEmail)
    case ZDefault(inner, d) => Parse(inner, if v.Undefined? then d else v, isEmail)
    case ZObject(shape) => if v.Obj? then ParseShape(s, 0, v.fields, isEmail) else TypeMismatch(v)
    case ZRefine(inner, accept, message, path) =>
      var o := Parse(inner, v, isEmail);
      if o.aborted || accept(o.value) then o
      else Outcome(o.value, o.issues + [Issue(path, Custom, Some(message))], false)
  }

  /** The keys of an object schema from position `i` on: each parsed in turn;
      a key lands in the output when the input has it or its parsed value is
      not `undefined`. */
  function ParseShape(obj: Schema, i: nat, fields: map<string, JsValue>, isEmail: string -> bool): (o: Outcome)
    requires obj.ZObject? && i <= |obj.shape|
    ensures o.value.Obj?
    ensures o.aborted ==> |o.issues| > 0
    decreases obj, 0, |obj.shape| - i
  {
    if i == |obj.shape| then Outcome(Obj(map[]), [], false)
    else
      var key := obj.shape[i].0;
      var input := if key in fields then fields[key] else Undefined;
      var o := Parse(obj.shape[i].1, input, isEmail);
      var rest := ParseShape(obj, i + 1, fields, isEmail);
      var out := if key in fields || !o.value.Undefined? then rest.value.fields[key := o.value] else rest.value.fields;
      Outcome(Obj(out), Prefix(key, o.issues) + rest.issues, o.aborted || rest.aborted)
  }

  // ---------------------------------------------------------------------
  // General facts the schemas rely on

  lemma PrefixOne(key: string, kind: IssueKind, message: Option<string>)
    ensures Prefix(key, [Issue([], kind, message)]) == [Issue([key], kind, message)]
  {
    assert [key] + [] == [key];
  }

  /** A string schema with a single check fails with that check's issue. */
  lemma OneCheck(c: Check, v: JsValue, isEmail: string -> bool)
    requires v.Str?
    ensures Parse(ZString([c]), v, isEmail).issues == CheckIssues(c, v.s, isEmail)
  {
    assert [c][1..] == [];
    assert StringIssues([], v.s, isEmail) == [];
    assert CheckIssues(c, v.s, isEmail) + [] == CheckIssues(c, v.s, isEmail);
  }

  predicate Passes(c: Check, s: string, isEmail: string -> bool)
  {
    match c
    case Min(n, _) => |s| >= n
    case Max(n, _) => |s| <= n
    case Email(_) => isEmail(s)
  }

  /** A string passes exactly when every check passes. */
  lemma {:induction false} StringIssuesEmpty(checks: seq<Check>, s: string, isEmail: string -> bool)
    ensures |StringIssues(checks, s, isEmail)| == 0 <==> forall i :: 0 <= i < |checks| ==> Passes(checks[i], s, isEmail)
    decreases |checks|
  {
    if |checks| > 0 {
      StringIssuesEmpty(checks[1..], s, isEmail);
      assert forall i :: 1 <= i < |checks| ==> checks[i] == checks[1..][i - 1];
    }
  }

  /** An object passes exactly when every key of its shape passes. */
  lemma {:induction false} ShapeSuccess(obj: Schema, i: nat, fields: map<string, JsValue>, isEmail: string -> bool)
    requires obj.ZObject? && i <= |obj.shape|
    ensures Success(ParseShape(obj, i, fields, isEmail))
        <==> forall j :: i <= j < |obj.shape| ==> Success(Parse(obj.shape[j].1, Field(Obj(fields), obj.shape[j].0), isEmail))
    decreases |obj.shape| - i
  {
    if i < |obj.shape| {
      ShapeSuccess(obj, i + 1, fields, isEmail);
    }
  }

  /** One step of an object: it passes when its key at `i` and the keys after
      it pass. */
  lemma ShapeStep(obj: Schema, i: nat, fields: map<string, JsValue>, isEmail: string -> bool)
    requires obj.ZObject? && i < |obj.shape|
    ensures Success(ParseShape(obj, i, fields, isEmail))
        <==> Success(Parse(obj.shape[i].1, Field(Obj(fields), obj.shape[i].0), isEmail))
             && Success(ParseShape(obj, i + 1, fields, isEmail))
    ensures ParseShape(obj, i, fields, isEmail).aborted
        <==> Parse(obj.shape[i].1, Field(Obj(fields), obj.shape[i].0), isEmail).aborted
             || ParseShape(obj, i + 1, fields, isEmail).aborted
  {
  }

  /** The keys of an object schema from `i` on are distinct. */
  predicate DistinctKeys(shape: seq<(string, Schema)>, i: nat)
  {
    forall a, b :: i <= a < b < |shape| ==> shape[a].0 != shape[b].0
  }

  /** The output holds only keys of the shape, and a shape key holds its parsed
      value exactly when the input has the key or the value is not
      `undefined`. */
  lemma {:induction false} ShapeOutput(obj: Schema, i: nat, fields: map<string, JsValue>, isEmail: string -> bool, key: string)
    requires obj.ZObject? && i <= |obj.shape| && DistinctKeys(obj.shape, i)
    ensures var out := ParseShape(obj, i, fields, isEmail).value.fields;
      (key in out ==> exists j :: i <= j < |obj.shape| && obj.shape[j].0 == key)
      && forall j :: i <= j < |obj.shape| && obj.shape[j].0 == key ==>
           var o := Parse(obj.shape[j].1, Field(Obj(fields), key), isEmail);
           (key in out <==> key in fields || !o.value.Undefined?) && (key in out ==> out[key] == o.value)
    decreases |obj.shape| - i
  {
    if i < |obj.shape| {
      ShapeOutput(obj, i + 1, fields, isEmail, key);
    }
  }

  /** A string schema passes exactly the strings that pass all its checks. */
  lemma StringSchemaSuccess(checks: seq<Check>, v: JsValue, isEmail: string -> bool)
    ensures Success(Parse(ZString(checks), v, isEmail))
        <==> v.Str? && forall i :: 0 <= i < |checks| ==> Passes(checks[i], v.s, isEmail)
  {
    if v.Str? {
      StringIssuesEmpty(checks, v.s, isEmail);
    }
  }

  /** An optional string schema passes `undefined` and the strings that pass
      all its checks, and returns the value it read. */
  lemma OptionalStringSchema(checks: seq<Check>, v: JsValue, isEmail: string -> bool)
    ensures Success(Parse(ZOptional(ZString(checks)), v, isEmail))
        <==> v.Undefined? || (v.Str? && forall i :: 0 <= i < |checks| ==> Passes(checks[i], v.s, isEmail))
    ensures !Parse(ZOptional(ZString(checks)), v, isEmail).aborted <==> v.Undefined? || v.Str?
    ensures Parse(ZOptional(ZString(checks)), v, isEmail).value == v
  {
    StringSchemaSuccess(checks, v, isEmail);
  }
}
