/** The `Headers` object of the WHATWG Fetch Standard (section 5.2) as `http`
    uses it: a header list whose names compare byte-case-insensitively, filled
    from an init list, read with `has`/`get`, written with `set`, and walked by
    `forEach`. */
module FetchHeaders {

  import opened Wrappers
  import opened Seqs

  type Header = (string, string)

  function LowerChar(c: char): char
  {
    if 'A' <= c <= 'Z' then (c as int + 32) as char else c
  }

  /** ASCII lower-case. */
  function LowerCase(s: string): (r: string)
    ensures |r| == |s|
  {
    seq(|s|, i requires 0 <= i < |s| => LowerChar(s[i]))
  }

  /** Header names match when they are equal ignoring ASCII case. */
  predicate SameName(a: string, b: string)
  {
    LowerCase(a) == LowerCase(b)
  }

  /** The values of the headers named `name`, in list order. */
  function Values(list: seq<Header>, name: string): (vs: seq<string>)
    ensures |vs| == 0 <==> forall i :: 0 <= i < |list| ==> !SameName(list[i].0, name)
    ensures |vs| <= |list|
  {
    if |list| == 0 then []
    else (if SameName(list[0].0, name) then [list[0].1] else []) + Values(list[1..], name)
  }

  /** The list contains a header named `name`. */
  predicate Contains(list: seq<Header>, name: string)
  {
    |Values(list, name)| > 0
  }

  function JoinWith(parts: seq<string>, sep: string): string
  {
    if |parts| == 0 then ""
    else if |parts| == 1 then parts[0]
    else parts[0] + sep + JoinWith(parts[1..], sep)
  }

  /** `get(name)`: all values of the name joined with `, `, or `null`. */
  function GetValue(list: seq<Header>, name: string): (r: Option<string>)
    ensures r.Some? <==> Contains(list, name)
  {
    var vs := Values(list, name);
    if |vs| == 0 then None else Some(JoinWith(vs, ", "))
  }

  /** The name of the first header named `name`. */
  function FirstName(list: seq<Header>, name: string): (n: string)
    requires Contains(list, name)
    ensures SameName(n, name)
  {
    if SameName(list[0].0, name) then list[0].0 else FirstName(list[1..], name)
  }

  /** Append to a header list: the name takes the spelling of the first
      header already named so. */
  function AppendHeader(list: seq<Header>, h: Header): seq<Header>
  {
    var name := if Contains(list, h.0) then FirstName(list, h.0) else h.0;
    list + [(name, h.1)]
  }

  /** Set in a header list: the first header named so takes the value and
      the others go; without one, the header is appended. */
  function SetHeader(list: seq<Header>, name: string, value: string): seq<Header>
    decreases |list|
  {
    if |list| == 0 then [(name, value)]
    else if SameName(list[0].0, name) then [(list[0].0, value)] + RemoveName(list[1..], name)
    else [list[0]] + SetHeader(list[1..], name, value)
  }

  function RemoveName(list: seq<Header>, name: string): (r: seq<Header>)
    ensures |r| <= |list|
    ensures !Contains(r, name)
  {
    if |list| == 0 then []
    else (if SameName(list[0].0, name) then [] else [list[0]]) + RemoveName(list[1..], name)
  }

  /** Filling a new `Headers` from an init list: append each header in order. */
  function Filled(init: seq<Header>): seq<Header>
  {
    if |init| == 0 then [] else AppendHeader(Filled(init[..|init| - 1]), init[|init| - 1])
  }

  /** What `forEach` visits: one entry per name, lower-cased, with the
      combined value. */
  function Combine(list: seq<Header>): seq<Header>
    decreases |list|
  {
    if |list| == 0 then []
    else
      var name := list[0].0;
      [(LowerCase(name), JoinWith(Values(list, name), ", "))] + Combine(RemoveName(list[1..], name))
  }

  /** `forEach((value, key) => target.set(key, value))` over `pairs`. */
  function SetAll(list: seq<Header>, pairs: seq<Header>): seq<Header>
    decreases |pairs|
  {
    if |pairs| == 0 then list else SetAll(SetHeader(list, pairs[0].0, pairs[0].1), pairs[1..])
  }

  /** The value the last of `pairs` named `name` carries. */
  function LastValue(pairs: seq<Header>, name: string): Option<string>
  {
    if |pairs| == 0 then None
    else
      var later := LastValue(pairs[1..], name);
      if later.Some? then later
      else if SameName(pairs[0].0, name) then Some(pairs[0].1)
      else None
  }

  class Headers {
    var list: seq<Header>

    /** `new Headers(init)`. */
    constructor (init: seq<Header>)
      ensures list == Filled(init)
    {
      var filled: seq<Header> := [];
      var i := 0;
      while i < |init|
        invariant 0 <= i <= |init|
        invariant filled == Filled(init[..i])
      {
        assert init[..i + 1][..i] == init[..i];
        filled := AppendHeader(filled, init[i]);
        i := i + 1;
      }
      assert init[..|init|] == init;
      list := filled;
    }

    predicate Has(name: string)
      reads this
    {
      Contains(list, name)
    }

    function Get(name: string): Option<string>
      reads this
    {
      GetValue(list, name)
    }

    /** `set(name, value)`. */
    method Set(name: string, value: string)
      modifies this
      ensures list == SetHeader(old(list), name, value)
    {
      list := SetHeader(list, name, value);
    }
  }

  // ---------------------------------------------------------------------
  // How reads see writes

  lemma SameNameSymmetric(a: string, b: string)
    ensures SameName(a, b) == SameName(b, a)
  {
  }

  /** Values depend on the name only up to case. */
  lemma {:induction false} ValuesUpToCase(list: seq<Header>, a: string, b: string)
    requires SameName(a, b)
    ensures Values(list, a) == Values(list, b)
    decreases |list|
  {
    if |list| > 0 {
      ValuesUpToCase(list[1..], a, b);
    }
  }

  lemma {:induction false} ValuesAppend(list: seq<Header>, more: seq<Header>, name: string)
    ensures Values(list + more, name) == Values(list, name) + Values(more, name)
    decreases |list|
  {
    if |list| > 0 {
      assert (list + more)[1..] == list[1..] + more;
      ValuesAppend(list[1..], more, name);
    } else {
      assert list + more == more;
    }
  }

  /** Removing one name leaves the values of every other name. */
  lemma {:induction false} ValuesRemoveName(list: seq<Header>, removed: string, name: string)
    ensures Values(RemoveName(list, removed), name)
         == if SameName(removed, name) then [] else Values(list, name)
    decreases |list|
  {
    if |list| > 0 {
      ValuesRemoveName(list[1..], removed, name);
      var rest := RemoveName(list[1..], removed);
      var head := if SameName(list[0].0, removed) then [] else [list[0]];
      ValuesAppend(head, rest, name);
    }
  }

  /** `set` then `get`: the set name reads as the new value and every other
      name reads as before. */
  lemma {:induction false} GetAfterSet(list: seq<Header>, name: string, value: string, other: string)
    ensures Values(SetHeader(list, name, value), other)
         == if SameName(name, other) then [value] else Values(list, other)
    decreases |list|
  {
    if |list| > 0 {
      if SameName(list[0].0, name) {
        ValuesRemoveName(list[1..], name, other);
        ValuesAppend([(list[0].0, value)], RemoveName(list[1..], name), other);
      } else {
        GetAfterSet(list[1..], name, value, other);
        ValuesAppend([list[0]], SetHeader(list[1..], name, value), other);
      }
    }
  }

  /** Filling keeps every value: a filled list reads like its init list. */
  lemma {:induction false} ValuesFilled(init: seq<Header>, name: string)
    ensures Values(Filled(init), name) == Values(init, name)
    decreases |init|
  {
    if |init| > 0 {
      var front, h := init[..|init| - 1], init[|init| - 1];
      ValuesFilled(front, name);
      var prev := Filled(front);
      var n := if Contains(prev, h.0) then FirstName(prev, h.0) else h.0;
      ValuesAppend(prev, [(n, h.1)], name);
      assert init == front + [h];
      ValuesAppend(front, [h], name);
    }
  }

  /** Setting every pair in turn: a name reads as the last pair that names it,
      or as before when none does. */
  lemma {:induction false} GetAfterSetAll(list: seq<Header>, pairs: seq<Header>, name: string)
    ensures GetValue(SetAll(list, pairs), name)
         == match LastValue(pairs, name) case Some(v) => Some(v) case None => GetValue(list, name)
    decreases |pairs|
  {
    if |pairs| > 0 {
      var next := SetHeader(list, pairs[0].0, pairs[0].1);
      GetAfterSetAll(next, pairs[1..], name);
      GetAfterSet(list, pairs[0].0, pairs[0].1, name);
    }
  }

  /** `forEach` visits each name once, with its combined value. */
  lemma {:induction false} LastValueCombine(list: seq<Header>, name: string)
    ensures LastValue(Combine(list), name) == GetValue(list, name)
    decreases |list|
  {
    if |list| > 0 {
      var first := list[0].0;
      var rest := RemoveName(list[1..], first);
      LastValueCombine(rest, name);
      ValuesRemoveName(list[1..], first, name);
      assert SameName(LowerCase(first), name) <==> SameName(first, name) by {
        LowerCaseIdempotent(first);
      }
      var c := Combine(list);
      assert c == [(LowerCase(first), JoinWith(Values(list, first), ", "))] + Combine(rest);
      assert c[1..] == Combine(rest);
      if SameName(first, name) {
        ValuesUpToCase(list, first, name);
        assert Values(rest, name) == [];
        assert LastValue(c[1..], name) == None;
      } else {
        assert Values(list, name) == Values(list[1..], name);
        assert Values(rest, name) == Values(list, name);
      }
    }
  }

  lemma LowerCaseIdempotent(s: string)
    ensures LowerCase(LowerCase(s)) == LowerCase(s)
  {
  }
}
