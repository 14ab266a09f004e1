/** The application/x-www-form-urlencoded format of the WHATWG URL Standard:
    the serializer of section 5.2, the parser of section 5.1, the
    percent-decoding of section 1.3, and the `URLSearchParams` object of
    section 6.2 that holds a list of name-value pairs. */
module UrlEncoded {

  import opened Wrappers
  import opened Seqs
  import Utf8

  type Byte = Utf8.Byte
  type Pair = (string, string)

  const Amp: Byte := 0x26
  const Eq: Byte := 0x3D
  const Plus: Byte := 0x2B
  const Percent: Byte := 0x25
  const Space: Byte := 0x20

  /** Bytes that the application/x-www-form-urlencoded percent-encode set
      leaves alone: ASCII alphanumerics and `*`, `-`, `.`, `_`. */
  predicate Unreserved(b: Byte)
  {
    (0x30 <= b <= 0x39) || (0x41 <= b <= 0x5A) || (0x61 <= b <= 0x7A)
    || b == 0x2A || b == 0x2D || b == 0x2E || b == 0x5F
  }

  /** The upper-case hexadecimal digit for `d`. */
  function HexDigit(d: int): (h: Byte)
    requires 0 <= d < 16
  {
    if d < 10 then 0x30 + d else 0x41 + d - 10
  }

  predicate IsHex(b: Byte)
  {
    (0x30 <= b <= 0x39) || (0x41 <= b <= 0x46) || (0x61 <= b <= 0x66)
  }

  function HexValue(b: Byte): (v: int)
    requires IsHex(b)
    ensures 0 <= v < 16
  {
    if b <= 0x39 then b - 0x30 else if b <= 0x46 then b - 0x41 + 10 else b - 0x61 + 10
  }

  /** One byte after encoding, with space-as-plus: a space becomes `+`, an
      unreserved byte stays, every other byte becomes `%XY`. */
  function EscapeByte(b: Byte): (e: seq<Byte>)
  {
    if b == Space then [Plus]
    else if Unreserved(b) then [b]
    else [Percent, HexDigit(b / 16), HexDigit(b % 16)]
  }

  function EscapeBytes(bs: seq<Byte>): seq<Byte>
  {
    if |bs| == 0 then [] else EscapeByte(bs[0]) + EscapeBytes(bs[1..])
  }

  /** Percent-encode after UTF-8 encoding, as the serializer does for each
      name and each value. */
  function EncodeComponent(s: string): seq<Byte>
  {
    EscapeBytes(Utf8.Encode(s))
  }

  /** `name=value` for one pair. */
  function SerializePair(p: Pair): seq<Byte>
  {
    EncodeComponent(p.0) + [Eq] + EncodeComponent(p.1)
  }

  function SerializePairs(list: seq<Pair>): (r: seq<seq<Byte>>)
    ensures |r| == |list|
  {
    if |list| == 0 then [] else [SerializePair(list[0])] + SerializePairs(list[1..])
  }

  /** The urlencoded serializer, as bytes: the pairs' `name=value` joined by `&`. */
  function SerializeBytes(list: seq<Pair>): seq<Byte>
  {
    JoinAll(SerializePairs(list), Amp)
  }

  /** A byte sequence read as a string, one code point per byte (isomorphic decode). */
  function IsomorphicDecode(bs: seq<Byte>): (s: string)
    ensures |s| == |bs|
    ensures forall i :: 0 <= i < |bs| ==> s[i] as int == bs[i]
  {
    if |bs| == 0 then [] else [bs[0] as char] + IsomorphicDecode(bs[1..])
  }

  /** The urlencoded serializer's output string. */
  function Serialize(list: seq<Pair>): string
  {
    IsomorphicDecode(SerializeBytes(list))
  }

  /** Percent-decode a byte sequence: `%` followed by two hex digits is the byte
      they spell; any other byte, a lone `%` included, is kept. */
  function PercentDecode(bs: seq<Byte>): seq<Byte>
    decreases |bs|
  {
    if |bs| == 0 then []
    else if bs[0] == Percent && |bs| >= 3 && IsHex(bs[1]) && IsHex(bs[2]) then
      [HexValue(bs[1]) * 16 + HexValue(bs[2])] + PercentDecode(bs[3..])
    else [bs[0]] + PercentDecode(bs[1..])
  }

  function PlusToSpace(bs: seq<Byte>): (r: seq<Byte>)
    ensures |r| == |bs|
  {
    seq(|bs|, i requires 0 <= i < |bs| => if bs[i] == Plus then Space else bs[i])
  }

  /** A name or value as the parser turns it into a string. */
  function DecodeComponent(bs: seq<Byte>): string
  {
    Utf8.Decode(PercentDecode(PlusToSpace(bs)))
  }

  /** One `&`-separated sequence: split at its first `=`, or all name. */
  function ParsePair(bs: seq<Byte>): Pair
  {
    var (name, value) := SplitFirst(bs, Eq);
    (DecodeComponent(name), DecodeComponent(value.GetOr([])))
  }

  function ParseSequences(seqs: seq<seq<Byte>>): seq<Pair>
  {
    if |seqs| == 0 then []
    else if |seqs[0]| == 0 then ParseSequences(seqs[1..])
    else [ParsePair(seqs[0])] + ParseSequences(seqs[1..])
  }

  /** The urlencoded parser: split on `&`, skip empty sequences, parse the rest. */
  function Parse(input: seq<Byte>): seq<Pair>
  {
    ParseSequences(Split(input, Amp))
  }

  /** `get(name)`: the value of the first pair with that name, or `null`. */
  function Lookup(list: seq<Pair>, name: string): (r: Option<string>)
    ensures r.None? <==> forall i :: 0 <= i < |list| ==> list[i].0 != name
    ensures r.Some? ==> exists i :: 0 <= i < |list| && list[i] == (name, r.value)
                                    && forall j :: 0 <= j < i ==> list[j].0 != name
  {
    if |list| == 0 then None
    else if list[0].0 == name then Some(list[0].1)
    else
      var r := Lookup(list[1..], name);
      assert r.Some? ==> exists i :: 0 <= i < |list| && list[i] == (name, r.value)
                                     && forall j :: 0 <= j < i ==> list[j].0 != name by {
        if r.Some? {
          var i :| 0 <= i < |list[1..]| && list[1..][i] == (name, r.value)
                   && forall j :: 0 <= j < i ==> list[1..][j].0 != name;
          assert list[i + 1] == (name, r.value);
          assert forall j :: 1 <= j < i + 1 ==> list[j] == list[1..][j - 1];
        }
      }
      r
  }

  /** The string a `URLSearchParams` constructor parses: a leading `?` is dropped. */
  function ParseInit(init: string): seq<Pair>
  {
    var s := if |init| > 0 && init[0] == '?' then init[1..] else init;
    Parse(Utf8.Encode(s))
  }

  /** A `URLSearchParams` object: its list of name-value pairs, in order. */
  class SearchParams {
    var list: seq<Pair>

    /** `new URLSearchParams()`. */
    constructor Empty()
      ensures list == []
    {
      list := [];
    }

    /** `new URLSearchParams(init)` for a string `init`. */
    constructor FromString(init: string)
      ensures list == ParseInit(init)
    {
      list := ParseInit(init);
    }

    /** `append(name, value)`. */
    method Append(name: string, value: string)
      modifies this
      ensures list == old(list) + [(name, value)]
    {
      list := list + [(name, value)];
    }

    /** `get(name)`. */
    function Get(name: string): Option<string>
      reads this
    {
      Lookup(list, name)
    }

    /** `toString()`. */
    function ToString(): string
      reads this
    {
      Serialize(list)
    }
  }

  // ---------------------------------------------------------------------
  // What serializing guarantees

  /** A byte an escaped name or value may hold: ASCII, and none of `&`, `=`,
      `?` and `#`. */
  predicate SafeEscaped(b: Byte)
  {
    b < 0x80 && b != Amp && b != Eq && b != 0x3F && b != 0x23
  }

  /** Bytes that may stand in a query string as they are: ASCII, and neither
      `?` (which would end the query) nor `#` (which would start a fragment). */
  predicate QueryText(bs: seq<Byte>)
  {
    forall i :: 0 <= i < |bs| ==> bs[i] < 0x80 && bs[i] != 0x3F && bs[i] != 0x23
  }

  lemma {:induction false} EscapeBytesSafe(bs: seq<Byte>)
    ensures forall i :: 0 <= i < |EscapeBytes(bs)| ==> SafeEscaped(EscapeBytes(bs)[i])
    decreases |bs|
  {
    if |bs| > 0 {
      EscapeBytesSafe(bs[1..]);
    }
  }

  lemma {:induction false} EscapeBytesAppend(a: seq<Byte>, b: seq<Byte>)
    ensures EscapeBytes(a + b) == EscapeBytes(a) + EscapeBytes(b)
    decreases |a|
  {
    if |a| > 0 {
      assert (a + b)[1..] == a[1..] + b;
      EscapeBytesAppend(a[1..], b);
    } else {
      assert a + b == b;
    }
  }

  /** Undoing one escaped byte. */
  lemma UnescapeByte(b: Byte, rest: seq<Byte>)
    ensures PercentDecode(PlusToSpace(EscapeByte(b)) + rest) == [b] + PercentDecode(rest)
  {
    var e := PlusToSpace(EscapeByte(b));
    if b == Space || Unreserved(b) {
      assert (e + rest)[1..] == rest;
    } else {
      var hi, lo := HexDigit(b / 16), HexDigit(b % 16);
      assert e == [Percent, hi, lo];
      assert (e + rest)[3..] == rest;
    }
  }

  /** Percent-decoding (after `+` becomes space) undoes escaping exactly. */
  lemma {:induction false} UnescapeBytes(bs: seq<Byte>)
    ensures PercentDecode(PlusToSpace(EscapeBytes(bs))) == bs
    decreases |bs|
  {
    if |bs| > 0 {
      assert PlusToSpace(EscapeBytes(bs)) == PlusToSpace(EscapeByte(bs[0])) + PlusToSpace(EscapeBytes(bs[1..]));
      UnescapeByte(bs[0], PlusToSpace(EscapeBytes(bs[1..])));
      UnescapeBytes(bs[1..]);
      assert bs == [bs[0]] + bs[1..];
    }
  }

  /** A component reads back as the string it was serialized from. */
  lemma DecodeEncodeComponent(s: string)
    ensures DecodeComponent(EncodeComponent(s)) == s
  {
    UnescapeBytes(Utf8.Encode(s));
    Utf8.DecodeEncode(s);
  }

  /** An encoded component holds no `&`, `=`, `?` or `#`. */
  lemma EncodeComponentSafe(s: string)
    ensures forall i :: 0 <= i < |EncodeComponent(s)| ==> SafeEscaped(EncodeComponent(s)[i])
  {
    EscapeBytesSafe(Utf8.Encode(s));
  }

  /** One serialized pair reads back as that pair. */
  lemma ParseSerializePair(p: Pair)
    ensures ParsePair(SerializePair(p)) == p
  {
    EncodeComponentSafe(p.0);
    var n := EncodeComponent(p.0);
    assert Eq !in n;
    SplitFirstAt(n, EncodeComponent(p.1), Eq);
    DecodeEncodeComponent(p.0);
    DecodeEncodeComponent(p.1);
  }

  lemma {:induction false} SplitFirstAt<T>(a: seq<T>, b: seq<T>, sep: T)
    requires sep !in a
    ensures SplitFirst(a + [sep] + b, sep) == (a, Some(b))
    decreases |a|
  {
    if |a| > 0 {
      assert (a + [sep] + b)[1..] == a[1..] + [sep] + b;
      SplitFirstAt(a[1..], b, sep);
      assert [a[0]] + a[1..] == a;
    } else {
      assert (a + [sep] + b)[1..] == b;
    }
  }

  /** A serialized pair is never empty, never holds `&`, and is query text. */
  lemma SerializePairShape(p: Pair)
    ensures |SerializePair(p)| > 0 && Amp !in SerializePair(p) && QueryText(SerializePair(p))
  {
    EncodeComponentSafe(p.0);
    EncodeComponentSafe(p.1);
    var n, v := EncodeComponent(p.0), EncodeComponent(p.1);
    var s := SerializePair(p);
    assert forall i :: 0 <= i < |s| ==> s[i] == (if i < |n| then n[i] else if i == |n| then Eq else v[i - |n| - 1]);
  }

  lemma {:induction false} SerializePairsShape(list: seq<Pair>)
    ensures forall i :: 0 <= i < |list| ==>
      && |SerializePairs(list)[i]| > 0 && Amp !in SerializePairs(list)[i]
      && QueryText(SerializePairs(list)[i])
      && SerializePairs(list)[i] == SerializePair(list[i])
    decreases |list|
  {
    if |list| > 0 {
      SerializePairsShape(list[1..]);
      SerializePairShape(list[0]);
    }
  }

  lemma {:induction false} ParseSerializedSequences(list: seq<Pair>)
    requires forall i :: 0 <= i < |list| ==>
      |SerializePairs(list)[i]| > 0 && SerializePairs(list)[i] == SerializePair(list[i])
    ensures ParseSequences(SerializePairs(list)) == list
    decreases |list|
  {
    if |list| > 0 {
      ParseSerializePair(list[0]);
      assert SerializePairs(list)[1..] == SerializePairs(list[1..]);
      forall i | 0 <= i < |list[1..]|
        ensures |SerializePairs(list[1..])[i]| > 0 && SerializePairs(list[1..])[i] == SerializePair(list[1..][i])
      {
        assert SerializePairs(list)[i + 1] == SerializePairs(list[1..])[i];
      }
      ParseSerializedSequences(list[1..]);
      assert list == [list[0]] + list[1..];
    }
  }

  /** Round trip: parsing the serialized bytes gives back exactly the list,
      names, values, order and repetitions included. */
  lemma ParseSerialize(list: seq<Pair>)
    ensures Parse(SerializeBytes(list)) == list
  {
    SerializePairsShape(list);
    var pieces := SerializePairs(list);
    if |list| > 0 {
      SplitJoin(pieces, Amp);
      assert SerializeBytes(list) == Join(pieces, Amp);
      assert Parse(SerializeBytes(list)) == ParseSequences(pieces);
      ParseSerializedSequences(list);
    } else {
      assert Split(SerializeBytes(list), Amp) == [[]];
      assert ParseSequences([[]]) == ParseSequences([]);
    }
  }

  /** The serializer's output is query text: ASCII, with no `?` and no `#`. */
  lemma SerializeBytesSafe(list: seq<Pair>)
    ensures QueryText(SerializeBytes(list))
  {
    SerializePairsShape(list);
    if |list| > 0 {
      JoinQueryText(SerializePairs(list));
    }
  }

  lemma {:induction false} JoinQueryText(pieces: seq<seq<Byte>>)
    requires |pieces| >= 1
    requires forall i :: 0 <= i < |pieces| ==> QueryText(pieces[i])
    ensures QueryText(Join(pieces, Amp))
    decreases |pieces|
  {
    if |pieces| > 1 {
      JoinQueryText(pieces[1..]);
      var a, t := pieces[0], Join(pieces[1..], Amp);
      var j := Join(pieces, Amp);
      assert QueryText(a);
      assert forall k :: 0 <= k < |j| ==> j[k] == (if k < |a| then a[k] else if k == |a| then Amp else t[k - |a| - 1]);
    }
  }

  /** UTF-8 encoding an ASCII string gives its bytes unchanged. */
  lemma {:induction false} EncodeAscii(bs: seq<Byte>)
    requires QueryText(bs)
    ensures Utf8.Encode(IsomorphicDecode(bs)) == bs
    decreases |bs|
  {
    if |bs| > 0 {
      EncodeAscii(bs[1..]);
    }
  }

  /** Round trip through the string form: a `URLSearchParams` built from the
      serializer's output string holds exactly the serialized list. */
  lemma ParseInitSerialize(list: seq<Pair>)
    ensures ParseInit(Serialize(list)) == list
  {
    SerializeBytesSafe(list);
    var bs := SerializeBytes(list);
    EncodeAscii(bs);
    ParseSerialize(list);
    if |bs| > 0 {
      assert Serialize(list)[0] as int == bs[0];
    }
  }
}
