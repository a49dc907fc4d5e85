/** Optimal string alignment distance of internal/validation/typo/levenshtein.go: the
    declarative meaning, the recurrence, and the three-row loop. */
module Levenshtein {
  import opened Bytes

  // ---------- what the distance means ----------

  datatype Edit = Keep | Replace(c: byte) | Delete | Insert(c: byte) | Swap

  function Cost(script: seq<Edit>): nat {
    if script == [] then 0
    else Cost(script[..|script| - 1]) + (if script[|script| - 1].Keep? then 0 else 1)
  }

  // The text a script makes of `a`, reading both from their right ends.  Every byte of `a`
  // is used by exactly one edit, so nothing is edited twice.
  function Outcome(script: seq<Edit>, a: Text): Option<Text>
    decreases |script|
  {
    if script == [] then (if a == [] then Some([]) else None)
    else
      var front, n := script[..|script| - 1], |a|;
      match script[|script| - 1]
      case Keep => if n < 1 then None else Append(Outcome(front, a[..n - 1]), [a[n - 1]])
      case Replace(c) => if n < 1 then None else Append(Outcome(front, a[..n - 1]), [c])
      case Delete => if n < 1 then None else Outcome(front, a[..n - 1])
      case Insert(c) => Append(Outcome(front, a), [c])
      case Swap => if n < 2 then None else Append(Outcome(front, a[..n - 2]), [a[n - 1], a[n - 2]])
  }

  function Append(t: Option<Text>, tail: Text): Option<Text> {
    match t case None => None case Some(u) => Some(u + tail)
  }

  // ---------- the recurrence ----------

  function Min(a: int, b: int): int { if b < a then b else a }

  // Both texts end in the same two bytes, in opposite order.
  predicate EndsSwapped(a: Text, b: Text) {
    |a| > 1 && |b| > 1 && a[|a| - 1] == b[|b| - 2] && a[|a| - 2] == b[|b| - 1]
  }

  // The cheapest way to finish, given the distances of the shorter pairs.
  function Cheapest(del: int, ins: int, diagonal: int, same: bool, swapped: bool, swap: int): int {
    var best := Min(Min(del + 1, ins + 1), if same then diagonal else diagonal + 1);
    if swapped then Min(best, swap + 1) else best
  }

  function Osa(a: Text, b: Text): nat
    decreases |a| + |b|
  {
    var n, m := |a|, |b|;
    if n == 0 then m
    else if m == 0 then n
    else Cheapest(Osa(a[..n - 1], b), Osa(a, b[..m - 1]), Osa(a[..n - 1], b[..m - 1]), a[n - 1] == b[m - 1],
                  EndsSwapped(a, b), if EndsSwapped(a, b) then Osa(a[..n - 2], b[..m - 2]) else 0)
  }

  function Price(e: Edit): nat { if e.Keep? then 0 else 1 }

  // What is left of `a` and of `b` before edit e at their right ends.
  function Before(e: Edit, a: Text, b: Text): (Text, Text)
    requires Ends(e, a, b)
  {
    var n, m := |a|, |b|;
    match e
    case Keep => (a[..n - 1], b[..m - 1])
    case Replace(_) => (a[..n - 1], b[..m - 1])
    case Delete => (a[..n - 1], b)
    case Insert(_) => (a, b[..m - 1])
    case Swap => (a[..n - 2], b[..m - 2])
  }

  // Edit e can be the last one of a script from `a` to `b`.
  predicate Ends(e: Edit, a: Text, b: Text) {
    var n, m := |a|, |b|;
    match e
    case Keep => n > 0 && m > 0 && a[n - 1] == b[m - 1]
    case Replace(c) => n > 0 && m > 0 && b[m - 1] == c
    case Delete => n > 0
    case Insert(c) => m > 0 && b[m - 1] == c
    case Swap => EndsSwapped(a, b)
  }

  lemma OutcomeExtended(front: seq<Edit>, e: Edit, a: Text, b: Text)
    requires Ends(e, a, b) && Outcome(front, Before(e, a, b).0) == Some(Before(e, a, b).1)
    ensures Outcome(front + [e], a) == Some(b) && Cost(front + [e]) == Cost(front) + Price(e)
  {
    assert (front + [e])[..|front|] == front;
    assert |b| > 0 ==> b == b[..|b| - 1] + [b[|b| - 1]];
    assert |b| > 1 ==> b == b[..|b| - 2] + [b[|b| - 2], b[|b| - 1]];
  }

  lemma OutcomeShortened(script: seq<Edit>, a: Text, b: Text)
    requires script != [] && Outcome(script, a) == Some(b)
    ensures var e, front := script[|script| - 1], script[..|script| - 1];
      Ends(e, a, b) && Outcome(front, Before(e, a, b).0) == Some(Before(e, a, b).1)
  {
  }

  lemma EditBound(e: Edit, a: Text, b: Text)
    requires Ends(e, a, b)
    ensures Osa(a, b) <= Osa(Before(e, a, b).0, Before(e, a, b).1) + Price(e)
  {
    var n, m := |a|, |b|;
    if n == 0 || m == 0 { EmptyDistance(a, b); }
  }

  lemma EmptyDistance(a: Text, b: Text)
    requires a == [] || b == []
    ensures Osa(a, b) == |a| + |b|
  {
  }

  // An edit that the recurrence attains.
  function LastEdit(a: Text, b: Text): (e: Edit)
    requires a != [] || b != []
    ensures Ends(e, a, b) && Osa(a, b) == Osa(Before(e, a, b).0, Before(e, a, b).1) + Price(e)
  {
    var n, m := |a|, |b|;
    if m == 0 then Delete
    else if n == 0 then Insert(b[m - 1])
    else if Osa(a, b) == Osa(a[..n - 1], b) + 1 then Delete
    else if Osa(a, b) == Osa(a, b[..m - 1]) + 1 then Insert(b[m - 1])
    else if EndsSwapped(a, b) && Osa(a, b) == Osa(a[..n - 2], b[..m - 2]) + 1 then Swap
    else if a[n - 1] == b[m - 1] then Keep else Replace(b[m - 1])
  }

  lemma {:induction false} BestScript(a: Text, b: Text) returns (script: seq<Edit>)
    ensures Outcome(script, a) == Some(b) && Cost(script) == Osa(a, b)
    decreases |a| + |b|
  {
    if a == [] && b == [] {
      script := [];
    } else {
      var e := LastEdit(a, b);
      var front := BestScript(Before(e, a, b).0, Before(e, a, b).1);
      OutcomeExtended(front, e, a, b);
      script := front + [e];
    }
  }

  /** Some script achieves the distance. */
  lemma DistanceIsAchieved(a: Text, b: Text)
    ensures exists script :: Outcome(script, a) == Some(b) && Cost(script) == Osa(a, b)
  {
    var script := BestScript(a, b);
  }

  /** And none is cheaper. */
  lemma {:induction false} NoScriptIsCheaper(script: seq<Edit>, a: Text, b: Text)
    requires Outcome(script, a) == Some(b)
    ensures Osa(a, b) <= Cost(script)
    decreases |script|
  {
    if script != [] {
      var e := script[|script| - 1];
      OutcomeShortened(script, a, b);
      EditBound(e, a, b);
      NoScriptIsCheaper(script[..|script| - 1], Before(e, a, b).0, Before(e, a, b).1);
    }
  }

  // ---------- laws ----------

  lemma {:induction false} Symmetric(a: Text, b: Text)
    ensures Osa(a, b) == Osa(b, a)
    decreases |a| + |b|
  {
    var n, m := |a|, |b|;
    if n > 0 && m > 0 {
      Symmetric(a[..n - 1], b);
      Symmetric(a, b[..m - 1]);
      Symmetric(a[..n - 1], b[..m - 1]);
      if n > 1 && m > 1 { Symmetric(a[..n - 2], b[..m - 2]); }
    }
  }

  lemma {:induction false} LengthBounds(a: Text, b: Text)
    ensures |a| - |b| <= Osa(a, b) && |b| - |a| <= Osa(a, b)
    ensures Osa(a, b) <= (if |a| > |b| then |a| else |b|)
    decreases |a| + |b|
  {
    var n, m := |a|, |b|;
    if n > 0 && m > 0 {
      LengthBounds(a[..n - 1], b);
      LengthBounds(a, b[..m - 1]);
      LengthBounds(a[..n - 1], b[..m - 1]);
      if n > 1 && m > 1 { LengthBounds(a[..n - 2], b[..m - 2]); }
    }
  }

  lemma {:induction false} ZeroIffEqual(a: Text, b: Text)
    ensures Osa(a, b) == 0 <==> a == b
    decreases |a| + |b|
  {
    var n, m := |a|, |b|;
    if n > 0 && m > 0 {
      ZeroIffEqual(a[..n - 1], b[..m - 1]);
      assert a == a[..n - 1] + [a[n - 1]] && b == b[..m - 1] + [b[m - 1]];
    }
  }

  lemma {:induction false} CommonEnding(a: Text, b: Text, v: Text)
    ensures Osa(a + v, b + v) <= Osa(a, b)
    decreases |v|
  {
    if v == [] {
      assert a + v == a && b + v == b;
    } else {
      var w, c := v[..|v| - 1], v[|v| - 1];
      assert (a + v)[..|a + v| - 1] == a + w && (b + v)[..|b + v| - 1] == b + w;
      EditBound(Keep, a + v, b + v);
      CommonEnding(a, b, w);
    }
  }

  // One more edit after a common beginning, and then a common ending.
  lemma OneEdit(u: Text, v: Text, e: Edit, a: Text, b: Text)
    requires Ends(e, u + a, u + b) && Before(e, u + a, u + b) == (u, u) && u + a + v != u + b + v && !e.Keep?
    ensures Osa(u + a + v, u + b + v) == 1
  {
    CommonEnding(u + a, u + b, v);
    EditBound(e, u + a, u + b);
    ZeroIffEqual(u, u);
    ZeroIffEqual(u + a + v, u + b + v);
  }

  /** Wherever it is made, a single typing mistake costs one: a wrong byte, one too many or too
      few, or two neighbours in the wrong order. */
  lemma SingleMistakes(u: Text, v: Text, x: byte, y: byte)
    ensures x != y ==> Osa(u + [x] + v, u + [y] + v) == 1
    ensures Osa(u + [x] + v, u + [] + v) == Osa(u + [] + v, u + [x] + v) == 1
    ensures x != y ==> Osa(u + [x, y] + v, u + [y, x] + v) == 1
  {
    assert u + [] == u;
    OneEdit(u, v, Delete, [x], []);
    OneEdit(u, v, Insert(x), [], [x]);
    if x != y {
      assert (u + [x] + v)[|u|] != (u + [y] + v)[|u|];
      OneEdit(u, v, Replace(y), [x], [y]);
      assert (u + [x, y] + v)[|u|] != (u + [y, x] + v)[|u|];
      OneEdit(u, v, Swap, [x, y], [y, x]);
    }
  }

  // ---------- the program ----------

  // The recurrence at cell (i, j) of the table.
  lemma Cell(a: Text, b: Text, i: nat, j: nat)
    requires 1 <= i <= |a| && 1 <= j <= |b|
    ensures var swapped := i > 1 && j > 1 && a[i - 1] == b[j - 2] && a[i - 2] == b[j - 1];
      Osa(a[..i], b[..j]) ==
        Cheapest(Osa(a[..i - 1], b[..j]), Osa(a[..i], b[..j - 1]), Osa(a[..i - 1], b[..j - 1]), a[i - 1] == b[j - 1],
                 swapped, if swapped then Osa(a[..i - 2], b[..j - 2]) else 0)
  {
    assert a[..i][..i - 1] == a[..i - 1] && b[..j][..j - 1] == b[..j - 1];
    if i > 1 && j > 1 {
      assert a[..i][..i - 2] == a[..i - 2] && b[..j][..j - 2] == b[..j - 2];
    }
  }

  // row[..upTo] holds the first cells of row i.
  ghost predicate Row(row: array<int>, a: Text, b: Text, i: nat, upTo: nat)
    requires i <= |a| && upTo <= |b| + 1 && row.Length == |b| + 1
    reads row
  {
    forall j :: 0 <= j < upTo ==> row[j] == Osa(a[..i], b[..j])
  }

  function Min3(a: int, b: int, c: int): (m: int)
    ensures m <= a && m <= b && m <= c && (m == a || m == b || m == c)
  {
    var m := if b < a then b else a;
    if c < m then c else m
  }

  method DamerauLevenshtein(a: Text, b: Text) returns (d: int)
    ensures d == Osa(a, b)
  {
    var la, lb := |a|, |b|;
    if la == 0 {
      return lb;
    }
    if lb == 0 {
      return la;
    }
    var prev2 := new int[lb + 1](_ => 0);
    var prev1 := new int[lb + 1](_ => 0);
    var curr := new int[lb + 1](_ => 0);
    for j := 0 to lb + 1
      invariant Row(prev1, a, b, 0, j)
    {
      prev1[j] := j;
    }
    for i := 1 to la + 1
      invariant prev2 != prev1 && prev1 != curr && prev2 != curr
      invariant fresh(prev2) && fresh(prev1) && fresh(curr)
      invariant prev2.Length == prev1.Length == curr.Length == lb + 1
      invariant Row(prev1, a, b, i - 1, lb + 1)
      invariant i > 1 ==> Row(prev2, a, b, i - 2, lb + 1)
    {
      FillRow(a, b, i, prev2, prev1, curr);
      prev2, prev1, curr := prev1, curr, prev2;
    }
    assert a[..la] == a && b[..lb] == b;
    return prev1[lb];
  }

  // The inner loop: row i from the two rows above it.
  method FillRow(a: Text, b: Text, i: nat, prev2: array<int>, prev1: array<int>, curr: array<int>)
    requires 1 <= i <= |a|
    requires prev2 != prev1 && prev1 != curr && prev2 != curr
    requires prev2.Length == prev1.Length == curr.Length == |b| + 1
    requires Row(prev1, a, b, i - 1, |b| + 1)
    requires i > 1 ==> Row(prev2, a, b, i - 2, |b| + 1)
    modifies curr
    ensures Row(curr, a, b, i, |b| + 1)
  {
    curr[0] := i;
    for j := 1 to |b| + 1
      invariant Row(curr, a, b, i, j)
    {
      Cell(a, b, i, j);
      FillCell(a, b, i, j, prev2, prev1, curr);
    }
  }

  // One cell from its neighbours.
  method FillCell(a: Text, b: Text, i: nat, j: nat, prev2: array<int>, prev1: array<int>, curr: array<int>)
    requires 1 <= i <= |a| && 1 <= j <= |b|
    requires prev2 != prev1 && prev1 != curr && prev2 != curr
    requires prev2.Length == prev1.Length == curr.Length == |b| + 1
    modifies curr
    ensures var swapped := i > 1 && j > 1 && a[i - 1] == b[j - 2] && a[i - 2] == b[j - 1];
      curr[j] == Cheapest(prev1[j], curr[j - 1], prev1[j - 1], a[i - 1] == b[j - 1], swapped,
                          if swapped then prev2[j - 2] else 0)
    ensures forall k :: 0 <= k <= |b| && k != j ==> curr[k] == old(curr[k])
  {
    var cost := 1;
    if a[i - 1] == b[j - 1] {
      cost := 0;
    }
    var del := prev1[j] + 1;
    var ins := curr[j - 1] + 1;
    var sub := prev1[j - 1] + cost;
    curr[j] := Min3(del, ins, sub);
    if i > 1 && j > 1 && a[i - 1] == b[j - 2] && a[i - 2] == b[j - 1] {
      var t := prev2[j - 2] + 1;
      if t < curr[j] {
        curr[j] := t;
      }
    }
  }
}
