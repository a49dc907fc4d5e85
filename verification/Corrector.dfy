/** The bucketed, length-pruned typo search of internal/validation/typo/corrector.go,
    proved against the plain search that measures every listed domain. */
module Corrector {
  import opened Bytes
  import opened Levenshtein

  // ---------- the list and its buckets ----------

  function Listed(lines: seq<Text>): (domains: seq<Text>)
    ensures forall d :: d in domains ==> d != []
  {
    if lines == [] then []
    else
      var line := Trim(Lower(lines[|lines| - 1]));
      Listed(lines[..|lines| - 1]) + (if line == [] || line[0] == HASH then [] else [line])
  }

  function Starting(domains: seq<Text>, b: byte): (r: seq<Text>)
    ensures forall d :: d in r <==> d in domains && d != [] && d[0] == b
  {
    if domains == [] then []
    else
      var d := domains[|domains| - 1];
      Starting(domains[..|domains| - 1], b) + (if d != [] && d[0] == b then [d] else [])
  }

  lemma {:induction false} ListedInOrder(xs: seq<Text>, ys: seq<Text>)
    ensures Listed(xs + ys) == Listed(xs) + Listed(ys)
    decreases |ys|
  {
    if ys == [] {
      assert xs + ys == xs;
    } else {
      assert (xs + ys)[..|xs + ys| - 1] == xs + ys[..|ys| - 1];
      ListedInOrder(xs, ys[..|ys| - 1]);
    }
  }

  lemma {:induction false} StartingInOrder(xs: seq<Text>, ys: seq<Text>, b: byte)
    ensures Starting(xs + ys, b) == Starting(xs, b) + Starting(ys, b)
    decreases |ys|
  {
    if ys == [] {
      assert xs + ys == xs;
    } else {
      assert (xs + ys)[..|xs + ys| - 1] == xs + ys[..|ys| - 1];
      StartingInOrder(xs, ys[..|ys| - 1], b);
    }
  }

  lemma OneDomain(d: Text, b: byte)
    ensures Starting([d], b) == if d != [] && d[0] == b then [d] else []
  {
  }

  lemma FoldedIsNoBlank(s: Text, t: Text, i: nat)
    requires Folded(s, t) && i < |s| && !Blank([s[i]])
    ensures !Blank([t[i]])
  {
    BlankIsSpace(s[i]);
    BlankIsSpace(t[i]);
  }

  /** A line lists its text in small letters, without the blanks around it; an empty line and one
      that starts with '#' list nothing. */
  lemma OneLine(before: Text, s: Text, after: Text, t: Text)
    requires Blank(before) && Blank(after) && Folded(s, t) && (s == [] ==> before == []) && (s != [] ==> Bare(s))
    ensures Listed([before + s + after]) == if t == [] || t[0] == '#' as byte then [] else [t]
  {
    LowerIs(s, t);
    assert Lower(before + s + after) == before + t + after;
    if s != [] {
      FoldedIsNoBlank(s, t, 0);
      FoldedIsNoBlank(s, t, |s| - 1);
    }
    TrimIs(before, t, after);
    assert Listed([before + s + after][..0]) == [];
  }

  // ---------- the unpruned search ----------

  predicate Within(d: Text, query: Text, maxDist: int) { Osa(query, d) <= maxDist }

  predicate NoneWithin(pool: seq<Text>, query: Text, maxDist: int) {
    forall d :: d in pool ==> !Within(d, query, maxDist)
  }

  // best is at position k, nothing is nearer, and everything listed before k is farther.
  predicate NearestAt(pool: seq<Text>, query: Text, k: nat, best: Text) {
    && k < |pool| && pool[k] == best
    && (forall j :: 0 <= j < |pool| ==> Osa(query, best) <= Osa(query, pool[j]))
    && (forall j :: 0 <= j < k ==> Osa(query, best) < Osa(query, pool[j]))
  }

  ghost predicate FirstNearest(pool: seq<Text>, query: Text, best: Text) {
    exists k :: NearestAt(pool, query, k, best)
  }

  lemma FirstNearestIsUnique(pool: seq<Text>, query: Text, x: Text, y: Text)
    requires FirstNearest(pool, query, x) && FirstNearest(pool, query, y)
    ensures x == y
  {
    var i: nat :| NearestAt(pool, query, i, x);
    var j: nat :| NearestAt(pool, query, j, y);
    assert i == j;
  }

  // What Suggest must answer, with no buckets of candidates left out by length.
  ghost predicate RightAnswer(domains: seq<Text>, query: Text, maxDist: int, answer: Text) {
    if query == [] || query in domains || NoneWithin(domains, query, maxDist) then answer == []
    else if !NoneWithin(Starting(domains, query[0]), query, maxDist)
    then FirstNearest(Starting(domains, query[0]), query, answer) && Within(answer, query, maxDist)
    else FirstNearest(domains, query, answer) && Within(answer, query, maxDist)
  }

  /** The specification has exactly one answer. */
  lemma RightAnswerIsUnique(domains: seq<Text>, query: Text, maxDist: int, x: Text, y: Text)
    requires RightAnswer(domains, query, maxDist, x) && RightAnswer(domains, query, maxDist, y)
    ensures x == y
  {
    if !(query == [] || query in domains || NoneWithin(domains, query, maxDist)) {
      if !NoneWithin(Starting(domains, query[0]), query, maxDist) {
        FirstNearestIsUnique(Starting(domains, query[0]), query, x, y);
      } else {
        FirstNearestIsUnique(domains, query, x, y);
      }
    }
  }

  function Abs(x: int): int { if x < 0 then -x else x }

  /** The pruning is sound: a domain skipped for its length is out of reach. */
  lemma PrunedIsTooFar(query: Text, d: Text, maxDist: int)
    requires Abs(|d| - |query|) > maxDist
    ensures !Within(d, query, maxDist)
  {
    LengthBounds(query, d);
  }

  // State of the scan after the first n candidates.
  ghost predicate Scanned(pool: seq<Text>, n: nat, query: Text, maxDist: int, best: Text, bestDist: int)
    requires n <= |pool|
  {
    if best == [] then bestDist == maxDist + 1 && NoneWithin(pool[..n], query, maxDist)
    else bestDist == Osa(query, best) <= maxDist && FirstNearest(pool[..n], query, best)
  }

  lemma ScanStep(pool: seq<Text>, n: nat, query: Text, maxDist: int, best: Text, bestDist: int)
    requires n < |pool| && pool[n] != [] && Scanned(pool, n, query, maxDist, best, bestDist)
    ensures var dist := Osa(query, pool[n]);
      if dist < bestDist then Scanned(pool, n + 1, query, maxDist, pool[n], dist)
      else Scanned(pool, n + 1, query, maxDist, best, bestDist)
  {
    var dist := Osa(query, pool[n]);
    var longer := pool[..n + 1];
    assert longer == pool[..n] + [pool[n]];
    if dist < bestDist {
      forall j | 0 <= j < n ensures dist < Osa(query, longer[j]) {
        assert longer[j] == pool[..n][j] && longer[j] in pool[..n];
      }
      assert NearestAt(longer, query, n, pool[n]);
    } else if best != [] {
      var k: nat :| NearestAt(pool[..n], query, k, best);
      assert NearestAt(longer, query, k, best);
    }
  }

  lemma StartingExtended(domains: seq<Text>, i: nat, b: byte)
    requires i < |domains|
    ensures var d := domains[i];
      Starting(domains[..i + 1], b) == Starting(domains[..i], b) + (if d != [] && d[0] == b then [d] else [])
  {
    assert domains[..i + 1][..i] == domains[..i];
  }

  ghost predicate BucketsOf(domains: seq<Text>, bucket: map<byte, seq<Text>>) {
    forall b :: (b in bucket <==> Starting(domains, b) != []) && (b in bucket ==> bucket[b] == Starting(domains, b))
  }

  // The second loop of load.
  method Buckets(domains: seq<Text>) returns (bucket: map<byte, seq<Text>>)
    requires forall d :: d in domains ==> d != []
    ensures BucketsOf(domains, bucket)
  {
    bucket := map[];
    for i := 0 to |domains|
      invariant BucketsOf(domains[..i], bucket)
    {
      var d := domains[i];
      assert d in domains;
      forall b ensures Starting(domains[..i + 1], b)
                    == Starting(domains[..i], b) + (if d != [] && d[0] == b then [d] else [])
      {
        StartingExtended(domains, i, b);
      }
      bucket := bucket[d[0] := (if d[0] in bucket then bucket[d[0]] else []) + [d]];
    }
    assert domains[..|domains|] == domains;
  }

  class Corrector {
    var domains: seq<Text>
    var bucket: map<byte, seq<Text>>

    ghost predicate Valid()
      reads this
    {
      (forall d :: d in domains ==> d != []) && BucketsOf(domains, bucket)
    }

    constructor (lines: seq<Text>)
      ensures Valid() && domains == Listed(lines)
    {
      domains := [];
      bucket := map[];
      new;
      for i := 0 to |lines|
        invariant bucket == map[] && domains == Listed(lines[..i])
      {
        assert lines[..i + 1][..i] == lines[..i];
        var line := Trim(Lower(lines[i]));
        if line == [] || line[0] == HASH {
          continue;
        }
        domains := domains + [line];
      }
      assert lines[..|lines|] == lines;
      bucket := Buckets(domains);
    }

    // One pass over a pool, skipping candidates whose length alone puts them out of reach.
    method Scan(pool: seq<Text>, query: Text, maxDist: int) returns (best: Text, bestDist: int)
      requires forall d :: d in pool ==> d != []
      ensures Scanned(pool, |pool|, query, maxDist, best, bestDist)
    {
      best, bestDist := [], maxDist + 1;
      for n := 0 to |pool|
        invariant Scanned(pool, n, query, maxDist, best, bestDist)
      {
        var d := pool[n];
        assert d in pool;
        ScanStep(pool, n, query, maxDist, best, bestDist);
        if Abs(|d| - |query|) > maxDist {
          PrunedIsTooFar(query, d, maxDist);
          continue;
        }
        var dist := DamerauLevenshtein(query, d);
        if dist < bestDist {
          bestDist := dist;
          best := d;
        }
      }
    }

    method Suggest(domain: Text, maxDist: int) returns (answer: Text)
      requires Valid()
      ensures RightAnswer(domains, Lower(Trim(domain)), maxDist, answer)
      ensures answer != [] ==> answer in domains && answer != Lower(Trim(domain))
      // no suggestion: an empty or listed domain, or every listed one is too far away
      ensures var query := Lower(Trim(domain));
        answer == [] <==>
          query == [] || query in domains || forall d :: d in domains ==> Osa(query, d) > maxDist
      // else a nearest one, among those with the same first byte if any of them is near enough
      ensures var query := Lower(Trim(domain)); answer != [] ==>
        && Osa(query, answer) <= maxDist
        && (forall d :: d in domains && d[0] == query[0] && Osa(query, d) <= maxDist ==>
              answer[0] == query[0] && Osa(query, answer) <= Osa(query, d))
        && (answer[0] != query[0] ==> forall d :: d in domains ==> Osa(query, answer) <= Osa(query, d))
    {
      var query := Lower(Trim(domain));
      if query == [] {
        return [];
      }
      for i := 0 to |domains|
        invariant query !in domains[..i]
      {
        if domains[i] == query {
          return [];
        }
      }
      var best, bestDist := [], maxDist + 1;
      if query[0] in bucket {
        best, bestDist := Scan(bucket[query[0]], query, maxDist);
        ScannedAll(bucket[query[0]], query, maxDist, best, bestDist);
      }
      if best == [] {
        best, bestDist := Scan(domains, query, maxDist);
        ScannedAll(domains, query, maxDist, best, bestDist);
      }
      if bestDist <= maxDist && best != query {
        return best;
      }
      return [];
    }
  }

  lemma ScannedAll(pool: seq<Text>, query: Text, maxDist: int, best: Text, bestDist: int)
    requires Scanned(pool, |pool|, query, maxDist, best, bestDist)
    ensures best == [] <==> NoneWithin(pool, query, maxDist)
    ensures best != [] ==> best in pool && FirstNearest(pool, query, best) && Within(best, query, maxDist)
    ensures best == [] ==> bestDist == maxDist + 1
    ensures best != [] ==> bestDist <= maxDist
  {
    assert pool[..|pool|] == pool;
    if best == [] {
      assert NoneWithin(pool, query, maxDist);
    } else {
      assert FirstNearest(pool, query, best);
      var k: nat :| NearestAt(pool, query, k, best);
      assert pool[k] in pool && Within(pool[k], query, maxDist);
    }
  }
}
