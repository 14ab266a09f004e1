/** The JavaScript values the core passes around, with the language rules the
    code relies on: truthiness (`if (x)`, `||`), nullishness (`??`, `?.`),
    property reads that throw on `null`/`undefined`, and `String(x)`.
    Numbers are integers here. */
module Js {

  datatype JsValue =
    | Undefined
    | Null
    | Bool(b: bool)
    | Num(n: int)
    | Str(s: string)
    | Arr(items: seq<JsValue>)
    | Obj(fields: map<string, JsValue>)
    | Date(time: int)

  /** The falsy values are `undefined`, `null`, `false`, `0` and `''`. */
  predicate Truthy(v: JsValue)
  {
    match v
    case Undefined => false
    case Null => false
    case Bool(b) => b
    case Num(n) => n != 0
    case Str(s) => s != ""
    case _ => true
  }

  predicate Nullish(v: JsValue)
  {
    v.Undefined? || v.Null?
  }

  /** `a ?? b`: one of the two, `a` when it is usable, and nullish only when
      both are. */
  function Coalesce(a: JsValue, b: JsValue): (r: JsValue)
    ensures r == a || r == b
    ensures !Nullish(a) ==> r == a
    ensures Nullish(r) <==> Nullish(a) && Nullish(b)
  {
    if Nullish(a) then b else a
  }

  /** `a || b`: one of the two, `a` when it is truthy, and falsy only when
      both are. */
  function Or(a: JsValue, b: JsValue): (r: JsValue)
    ensures r == a || r == b
    ensures Truthy(a) ==> r == a
    ensures Truthy(r) <==> Truthy(a) || Truthy(b)
  {
    if Truthy(a) then a else b
  }

  /** The result of reading a property: the value, or the TypeError that
      reading a property of `null` or `undefined` throws. */
  datatype Read = Value(value: JsValue) | ThrowsTypeError

  /** `v.key`: an own field of an object; `undefined` for anything else that is
      not nullish (arrays, strings and numbers carry no field with the names
      this code reads). */
  function GetProperty(v: JsValue, key: string): (r: Read)
    ensures r.ThrowsTypeError? <==> Nullish(v)
    ensures r.Value? && !r.value.Undefined? ==> v.Obj? && key in v.fields && r.value == v.fields[key]
  {
    if Nullish(v) then ThrowsTypeError
    else if v.Obj? && key in v.fields then Value(v.fields[key])
    else Value(Undefined)
  }

  /** `v?.key`: like `v.key`, but `undefined` when `v` is nullish. */
  function OptionalProperty(v: JsValue, key: string): (r: JsValue)
    ensures v.Obj? && key in v.fields ==> r == v.fields[key]
    ensures !(v.Obj? && key in v.fields) ==> r == Undefined
  {
    match GetProperty(v, key)
    case Value(x) => x
    case ThrowsTypeError => Undefined
  }

  /** A value `JSON.parse` can produce. */
  predicate IsJson(v: JsValue)
  {
    match v
    case Undefined => false
    case Date(_) => false
    case Arr(items) => forall i :: 0 <= i < |items| ==> IsJson(items[i])
    case Obj(fields) => forall k :: k in fields ==> IsJson(fields[k])
    case _ => true
  }

  function Digit(d: int): (c: char)
    requires 0 <= d < 10
    ensures '0' <= c <= '9' && c as int - '0' as int == d
  {
    (d + '0' as int) as char
  }

  /** The number a string of decimal digits denotes, most significant first. */
  function DigitsValue(s: string): nat
    requires forall i :: 0 <= i < |s| ==> '0' <= s[i] <= '9'
  {
    if |s| == 0 then 0 else 10 * DigitsValue(s[..|s| - 1]) + (s[|s| - 1] as int - '0' as int)
  }

  /** The decimal digits of `n`, without leading zeros. */
  function NatString(n: nat): (s: string)
    ensures |s| >= 1
    ensures forall i :: 0 <= i < |s| ==> '0' <= s[i] <= '9'
    ensures DigitsValue(s) == n
    ensures s[0] == '0' ==> s == "0"
    decreases n
  {
    if n < 10 then [Digit(n)]
    else
      var s := NatString(n / 10) + [Digit(n % 10)];
      assert s[..|s| - 1] == NatString(n / 10);
      s
  }

  /** `String(n)` for an integer `n`. */
  function IntString(n: int): (s: string)
    ensures |s| >= 1
    ensures n < 0 <==> s[0] == '-'
    ensures forall i :: 0 < i < |s| ==> '0' <= s[i] <= '9'
  {
    if n < 0 then "-" + NatString(-n) else NatString(n)
  }

  /** `String(n)` is an optional `-` and then the decimal digits of the
      magnitude, with no leading zero. */
  lemma IntStringValue(n: int)
    ensures var s := IntString(n);
      && (n >= 0 ==> '0' <= s[0] <= '9' && DigitsValue(s) == n)
      && (n < 0 ==> |s| >= 2 && DigitsValue(s[1..]) == -n && s[1] != '0')
      && (s[0] == '0' ==> s == "0")
  {
    if n < 0 {
      assert IntString(n)[1..] == NatString(-n);
    }
  }

  /** Different integers print differently. */
  lemma IntStringInjective(m: int, n: int)
    requires IntString(m) == IntString(n)
    ensures m == n
  {
    IntStringValue(m);
    IntStringValue(n);
    if m < 0 {
      assert IntString(m)[1..] == IntString(n)[1..];
    }
  }

  /** `String(v)` for a value `JSON.parse` can produce. Arrays join their
      elements with `,`, writing `null` elements as nothing; every plain object
      is `[object Object]`. */
  function ToString(v: JsValue): string
    requires IsJson(v)
    decreases v, 1
  {
    match v
    case Null => "null"
    case Bool(b) => if b then "true" else "false"
    case Num(n) => IntString(n)
    case Str(s) => s
    case Arr(items) => JoinElements(v, 0)
    case Obj(_) => "[object Object]"
  }

  function JoinElements(arr: JsValue, i: nat): string
    requires arr.Arr? && IsJson(arr) && i <= |arr.items|
    decreases arr, 0, |arr.items| - i
  {
    if i == |arr.items| then ""
    else
      var e := arr.items[i];
      var text := if e.Null? then "" else ToString(e);
      if i + 1 == |arr.items| then text else text + "," + JoinElements(arr, i + 1)
  }
}
