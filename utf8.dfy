/** UTF-8 as the WHATWG Encoding Standard defines it: the encoder that turns a
    string of scalar values into bytes (section 8.1.2, "UTF-8 encoder"), and the decoder
    (section 8.1.1, "UTF-8 decoder") run in replacement mode, which turns each
    ill-formed byte run into U+FFFD. */
module Utf8 {

  type Byte = b: int | 0 <= b < 256

  const Replacement: char := '�'

  /** The one to four bytes that encode one scalar value. */
  function CharBytes(c: char): (bs: seq<Byte>)
    ensures 1 <= |bs| <= 4
    ensures (|bs| == 1) == (c as int < 0x80)
  {
    var n := c as int;
    if n < 0x80 then [n]
    else if n < 0x800 then [0xC0 + n / 64, 0x80 + n % 64]
    else if n < 0x10000 then [0xE0 + n / 64 / 64, 0x80 + n / 64 % 64, 0x80 + n % 64]
    else [0xF0 + n / 64 / 64 / 64, 0x80 + n / 64 / 64 % 64, 0x80 + n / 64 % 64, 0x80 + n % 64]
  }

  /** UTF-8 encode. */
  function Encode(s: string): (bs: seq<Byte>)
    ensures |bs| >= |s|
  {
    if |s| == 0 then [] else CharBytes(s[0]) + Encode(s[1..])
  }

  /** The decoder's variables: bytes needed, bytes seen, code point so far, and
      the lower and upper boundary for the next continuation byte. */
  datatype DecoderState = DecoderState(needed: nat, seen: nat, cp: int, lower: int, upper: int)

  const Initial := DecoderState(0, 0, 0, 0x80, 0xBF)

  /** The states the decoder can reach, by the number of continuation bytes
      still to come; each bound on `cp` is what the boundaries of the lead and
      second byte leave possible. */
  ghost predicate Reachable(st: DecoderState)
  {
    if st.needed == 0 then st == Initial
    else
      var left := st.needed - st.seen;
      && st.seen < st.needed <= 3
      && (left == 1 ==> st.lower == 0x80 && st.upper == 0xBF)
      && (st.needed == 1 ==> 2 <= st.cp <= 31)
      && (st.needed == 2 && left == 2 ==>
            0 <= st.cp <= 15
            && st.lower == (if st.cp == 0 then 0xA0 else 0x80)
            && st.upper == (if st.cp == 13 then 0x9F else 0xBF))
      && (st.needed == 2 && left == 1 ==> 32 <= st.cp <= 1023 && !(864 <= st.cp <= 895))
      && (st.needed == 3 && left == 3 ==>
            0 <= st.cp <= 4
            && st.lower == (if st.cp == 0 then 0x90 else 0x80)
            && st.upper == (if st.cp == 4 then 0x8F else 0xBF))
      && (st.needed == 3 && left == 2 ==> 16 <= st.cp <= 271 && st.lower == 0x80 && st.upper == 0xBF)
      && (st.needed == 3 && left == 1 ==> 1024 <= st.cp <= 17407)
  }

  /** The decoder run over the whole byte queue from state `st`. A byte that
      does not fit the boundaries is an error and is put back on the queue; a
      run cut off by the end of the queue is one error. */
  function Run(bs: seq<Byte>, st: DecoderState): string
    requires Reachable(st)
    decreases |bs|, st.needed
  {
    if |bs| == 0 then
      if st.needed != 0 then [Replacement] else []
    else
      var b := bs[0];
      if st.needed == 0 then
        if b <= 0x7F then [b as char] + Run(bs[1..], st)
        else if 0xC2 <= b <= 0xDF then Run(bs[1..], DecoderState(1, 0, b - 0xC0, 0x80, 0xBF))
        else if 0xE0 <= b <= 0xEF then
          Run(bs[1..], DecoderState(2, 0, b - 0xE0, if b == 0xE0 then 0xA0 else 0x80, if b == 0xED then 0x9F else 0xBF))
        else if 0xF0 <= b <= 0xF4 then
          Run(bs[1..], DecoderState(3, 0, b - 0xF0, if b == 0xF0 then 0x90 else 0x80, if b == 0xF4 then 0x8F else 0xBF))
        else [Replacement] + Run(bs[1..], st)
      else if !(st.lower <= b <= st.upper) then
        [Replacement] + Run(bs, Initial)
      else
        var cp := st.cp * 64 + (b - 0x80);
        if st.seen + 1 == st.needed then [cp as char] + Run(bs[1..], Initial)
        else Run(bs[1..], DecoderState(st.needed, st.seen + 1, cp, 0x80, 0xBF))
  }

  /** UTF-8 decode without BOM, in replacement mode. */
  function Decode(bs: seq<Byte>): string
  {
    Run(bs, Initial)
  }

  /** The decoder reads the bytes of one scalar value back as that value and
      ends in its initial state. */
  lemma DecodeChar(c: char, rest: seq<Byte>)
    ensures Run(CharBytes(c) + rest, Initial) == [c] + Run(rest, Initial)
  {
    var n := c as int;
    if n < 0x80 {
      assert (CharBytes(c) + rest)[1..] == rest;
    } else if n < 0x800 {
      DecodeTwo(c, rest);
    } else if n < 0x10000 {
      DecodeThree(c, rest);
    } else {
      DecodeFour(c, rest);
    }
  }

  lemma DecodeTwo(c: char, rest: seq<Byte>)
    requires 0x80 <= c as int < 0x800
    ensures Run(CharBytes(c) + rest, Initial) == [c] + Run(rest, Initial)
  {
    var n := c as int;
    var bs := CharBytes(c) + rest;
    var s1 := DecoderState(1, 0, n / 64, 0x80, 0xBF);
    assert bs[1..] == [0x80 + n % 64] + rest;
    assert Run(bs, Initial) == Run(bs[1..], s1);
    assert bs[1..][1..] == rest;
  }

  lemma DecodeThree(c: char, rest: seq<Byte>)
    requires 0x800 <= c as int < 0x10000
    ensures Run(CharBytes(c) + rest, Initial) == [c] + Run(rest, Initial)
  {
    var n := c as int;
    var q := n / 64;
    var bs := CharBytes(c) + rest;
    var s1 := DecoderState(2, 0, q / 64, if q / 64 == 0 then 0xA0 else 0x80, if q / 64 == 13 then 0x9F else 0xBF);
    var s2 := DecoderState(2, 1, q, 0x80, 0xBF);
    var t1 := [0x80 + q % 64, 0x80 + n % 64] + rest;
    var t2 := [0x80 + n % 64] + rest;
    assert bs[1..] == t1 && t1[1..] == t2 && t2[1..] == rest;
    assert Run(bs, Initial) == Run(t1, s1);
    assert Run(t1, s1) == Run(t2, s2);
    assert Run(t2, s2) == [c] + Run(rest, Initial);
  }

  lemma DecodeFour(c: char, rest: seq<Byte>)
    requires 0x10000 <= c as int
    ensures Run(CharBytes(c) + rest, Initial) == [c] + Run(rest, Initial)
  {
    var n := c as int;
    var q := n / 64;
    var q2 := q / 64;
    var bs := CharBytes(c) + rest;
    var s1 := DecoderState(3, 0, q2 / 64, if q2 / 64 == 0 then 0x90 else 0x80, if q2 / 64 == 4 then 0x8F else 0xBF);
    var s2 := DecoderState(3, 1, q2, 0x80, 0xBF);
    var s3 := DecoderState(3, 2, q, 0x80, 0xBF);
    var t1 := [0x80 + q2 % 64, 0x80 + q % 64, 0x80 + n % 64] + rest;
    var t2 := [0x80 + q % 64, 0x80 + n % 64] + rest;
    var t3 := [0x80 + n % 64] + rest;
    assert bs[1..] == t1 && t1[1..] == t2 && t2[1..] == t3 && t3[1..] == rest;
    assert Run(bs, Initial) == Run(t1, s1);
    assert Run(t1, s1) == Run(t2, s2);
    assert Run(t2, s2) == Run(t3, s3);
    assert Run(t3, s3) == [c] + Run(rest, Initial);
  }

  /** Decoding the encoding of any string gives the string back. */
  lemma {:induction false} DecodeEncode(s: string)
    ensures Decode(Encode(s)) == s
    decreases |s|
  {
    if |s| > 0 {
      DecodeChar(s[0], Encode(s[1..]));
      DecodeEncode(s[1..]);
      assert s == [s[0]] + s[1..];
    }
  }

  /** Encoding distributes over concatenation. */
  lemma {:induction false} EncodeAppend(s: string, t: string)
    ensures Encode(s + t) == Encode(s) + Encode(t)
    decreases |s|
  {
    if |s| > 0 {
      assert (s + t)[1..] == s[1..] + t;
      EncodeAppend(s[1..], t);
    } else {
      assert s + t == t;
    }
  }
}
