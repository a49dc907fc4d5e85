/** Byte strings and the few string functions the program uses, on ASCII. */
module Bytes {

  newtype byte = x: int | 0 <= x < 256

  type Text = seq<byte>

  const AT: byte := 64
  const DOT: byte := 46
  const HASH: byte := 35
  const PLUS: byte := 43

  datatype Option<T> = None | Some(value: T)

  predicate IsSpace(c: byte) { 9 <= c <= 13 || c == 32 }

  function LowerByte(c: byte): byte { if 65 <= c <= 90 then c + 32 else c }

  function Lower(s: Text): (r: Text)
    ensures |r| == |s|
  {
    seq(|s|, i requires 0 <= i < |s| => LowerByte(s[i]))
  }

  function TrimLeft(s: Text): (r: Text)
    ensures |r| <= |s|
    ensures r != [] ==> !IsSpace(r[0])
  {
    if s != [] && IsSpace(s[0]) then TrimLeft(s[1..]) else s
  }

  function TrimRight(s: Text): (r: Text)
    ensures r <= s
    ensures r != [] ==> !IsSpace(r[|r| - 1])
  {
    if s != [] && IsSpace(s[|s| - 1]) then TrimRight(s[..|s| - 1]) else s
  }

  function Trim(s: Text): (r: Text)
    ensures |r| <= |s|
    ensures r != [] ==> !IsSpace(r[0]) && !IsSpace(r[|r| - 1])
  {
    TrimRight(TrimLeft(s))
  }

  // Position of the last c, or -1.
  function LastIndex(s: Text, c: byte): (i: int)
    ensures -1 <= i < |s|
    ensures i >= 0 ==> s[i] == c && c !in s[i + 1..]
    ensures i == -1 ==> c !in s
  {
    if s == [] then -1 else if s[|s| - 1] == c then |s| - 1 else LastIndex(s[..|s| - 1], c)
  }

  // Position of the first c, or -1.
  function FirstIndex(s: Text, c: byte): (i: int)
    ensures -1 <= i < |s|
    ensures i >= 0 ==> s[i] == c && c !in s[..i]
    ensures i == -1 ==> c !in s
  {
    if s == [] then -1 else if s[0] == c then 0
    else
      var i := FirstIndex(s[1..], c);
      if i < 0 then -1 else i + 1
  }

  function Remove(s: Text, c: byte): (r: Text)
    ensures c !in r && |r| <= |s|
    ensures forall x :: x in r ==> x in s
  {
    if s == [] then [] else (if s[0] == c then [] else [s[0]]) + Remove(s[1..], c)
  }

  // ---------- what these functions mean ----------

  // The bytes of an ASCII literal.
  function Spelled(s: string): (t: Text)
    requires forall c :: c in s ==> c < 128 as char
    ensures |t| == |s| && forall i :: 0 <= i < |s| ==> t[i] as int == s[i] as int
  {
    seq(|s|, i requires 0 <= i < |s| => assert s[i] in s; s[i] as byte)
  }

  lemma Separators()
    ensures [AT] == Spelled("@") && [DOT] == Spelled(".") && [HASH] == Spelled("#") && [PLUS] == Spelled("+")
  {
  }

  // t is s with every capital letter made small and nothing else changed.
  predicate Folded(s: Text, t: Text) {
    |s| == |t| && forall i :: 0 <= i < |s| ==> t[i] == if 'A' as byte <= s[i] <= 'Z' as byte then s[i] + 32 else s[i]
  }

  lemma LowerIs(s: Text, t: Text)
    ensures Folded(s, t) <==> t == Lower(s)
  {
    assert forall i :: 0 <= i < |s| ==> Lower(s)[i] == LowerByte(s[i]);
  }

  // Tab, line feed, vertical tab, form feed, carriage return and space.
  predicate Blank(s: Text) { forall i :: 0 <= i < |s| ==> s[i] in {9, 10, 11, 12, 13, 32} }

  // s without blanks around it.
  predicate Bare(s: Text) { s != [] && !Blank([s[0]]) && !Blank([s[|s| - 1]]) }

  lemma BlankIsSpace(c: byte)
    ensures Blank([c]) <==> IsSpace(c)
  {
    assert [c][0] == c;
  }

  lemma {:induction false} TrimLeftIs(before: Text, s: Text)
    requires Blank(before) && (s == [] || !Blank([s[0]]))
    ensures TrimLeft(before + s) == s
    decreases |before|
  {
    if before == [] {
      assert before + s == s;
      if s != [] { BlankIsSpace(s[0]); }
    } else {
      assert [before[0]][0] == before[0];
      BlankIsSpace(before[0]);
      assert (before + s)[1..] == before[1..] + s;
      TrimLeftIs(before[1..], s);
    }
  }

  lemma {:induction false} TrimRightIs(s: Text, after: Text)
    requires Blank(after) && (s == [] || !Blank([s[|s| - 1]]))
    ensures TrimRight(s + after) == s
    decreases |after|
  {
    if after == [] {
      assert s + after == s;
      if s != [] { BlankIsSpace(s[|s| - 1]); }
    } else {
      var n := |after| - 1;
      assert [after[n]][0] == after[n];
      BlankIsSpace(after[n]);
      assert (s + after)[..|s + after| - 1] == s + after[..n];
      TrimRightIs(s, after[..n]);
    }
  }

  /** Trim takes the blanks off both ends and nothing else. */
  lemma TrimIs(before: Text, s: Text, after: Text)
    requires Blank(before) && Blank(after) && (s == [] ==> before == []) && (s != [] ==> Bare(s))
    ensures Trim(before + s + after) == s
  {
    if s == [] {
      assert before + s + after == after + [];
      TrimLeftIs(after, []);
    } else {
      assert before + s + after == before + (s + after);
      TrimLeftIs(before, s + after);
      TrimRightIs(s, after);
    }
  }

  // The same bytes in the same order once every c is taken out of both.
  predicate SameWithout(c: byte, a: Text, b: Text)
    decreases |a| + |b|
  {
    if a != [] && a[0] == c then SameWithout(c, a[1..], b)
    else if b != [] && b[0] == c then SameWithout(c, a, b[1..])
    else if a == [] || b == [] then a == b
    else a[0] == b[0] && SameWithout(c, a[1..], b[1..])
  }

  lemma {:induction false} RemoveIs(s: Text, c: byte, r: Text)
    ensures r == Remove(s, c) <==> c !in r && SameWithout(c, s, r)
    decreases |s| + |r|
  {
    if s != [] {
      if s[0] == c {
        RemoveIs(s[1..], c, r);
      } else if r != [] {
        RemoveIs(s[1..], c, r[1..]);
        assert r == [r[0]] + r[1..];
        assert c in r <==> r[0] == c || c in r[1..];
      }
    } else if r != [] && r[0] != c {
      assert !SameWithout(c, s, r);
    }
  }

  lemma {:induction false} RemoveAgrees(a: Text, b: Text, c: byte)
    ensures Remove(a, c) == Remove(b, c) <==> SameWithout(c, a, b)
    decreases |a| + |b|
  {
    if a != [] && a[0] == c {
      RemoveAgrees(a[1..], b, c);
    } else if b != [] && b[0] == c {
      RemoveAgrees(a, b[1..], c);
    } else if a != [] && b != [] {
      RemoveAgrees(a[1..], b[1..], c);
      assert Remove(a, c)[1..] == Remove(a[1..], c) && Remove(b, c)[1..] == Remove(b[1..], c);
    }
  }
}
