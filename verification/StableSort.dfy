/** Stable sorting by priority, as sort.SliceStable promises it, and the fact that the
    promise leaves exactly one possible result. */
module StableSort {
  import opened Bytes

  datatype MXRecord = MXRecord(host: Text, priority: nat)

  predicate Sorted(xs: seq<MXRecord>) {
    forall i, j :: 0 <= i < j < |xs| ==> xs[i].priority <= xs[j].priority
  }

  // The records of one priority, in order.
  function Level(xs: seq<MXRecord>, p: nat): seq<MXRecord> {
    if xs == [] then []
    else Level(xs[..|xs| - 1], p) + (if xs[|xs| - 1].priority == p then [xs[|xs| - 1]] else [])
  }

  ghost predicate SameLevels(ys: seq<MXRecord>, zs: seq<MXRecord>) { forall p :: Level(ys, p) == Level(zs, p) }

  ghost predicate StablySorts(xs: seq<MXRecord>, ys: seq<MXRecord>) {
    Sorted(ys) && SameLevels(ys, xs)
  }

  function Insert(ys: seq<MXRecord>, x: MXRecord): seq<MXRecord> {
    if ys == [] || ys[|ys| - 1].priority <= x.priority then ys + [x]
    else Insert(ys[..|ys| - 1], x) + [ys[|ys| - 1]]
  }

  function Sort(xs: seq<MXRecord>): seq<MXRecord> {
    if xs == [] then [] else Insert(Sort(xs[..|xs| - 1]), xs[|xs| - 1])
  }

  lemma LevelAppend(xs: seq<MXRecord>, x: MXRecord, p: nat)
    ensures Level(xs + [x], p) == Level(xs, p) + (if x.priority == p then [x] else [])
  {
    assert (xs + [x])[..|xs|] == xs;
  }

  lemma {:induction false} InsertReorders(ys: seq<MXRecord>, x: MXRecord)
    ensures |Insert(ys, x)| == |ys| + 1 && multiset(Insert(ys, x)) == multiset(ys) + multiset{x}
    decreases |ys|
  {
    if ys != [] && ys[|ys| - 1].priority > x.priority {
      InsertReorders(ys[..|ys| - 1], x);
      assert ys == ys[..|ys| - 1] + [ys[|ys| - 1]];
    }
  }

  lemma SortedAppend(front: seq<MXRecord>, last: MXRecord)
    requires Sorted(front) && forall z :: z in front ==> z.priority <= last.priority
    ensures Sorted(front + [last])
  {
  }

  lemma {:induction false} InsertSorted(ys: seq<MXRecord>, x: MXRecord)
    requires Sorted(ys)
    ensures Sorted(Insert(ys, x))
    decreases |ys|
  {
    if ys == [] || ys[|ys| - 1].priority <= x.priority {
      SortedAppend(ys, x);
    } else {
      var front, last := ys[..|ys| - 1], ys[|ys| - 1];
      InsertSorted(front, x);
      InsertReorders(front, x);
      forall z | z in Insert(front, x) ensures z.priority <= last.priority {
        assert z in multiset(Insert(front, x));
        assert z == x || z in front;
      }
      SortedAppend(Insert(front, x), last);
    }
  }

  lemma {:induction false} InsertLevels(ys: seq<MXRecord>, x: MXRecord, p: nat)
    ensures Level(Insert(ys, x), p) == Level(ys, p) + (if x.priority == p then [x] else [])
    decreases |ys|
  {
    if ys == [] || ys[|ys| - 1].priority <= x.priority {
      LevelAppend(ys, x, p);
    } else {
      var front, last := ys[..|ys| - 1], ys[|ys| - 1];
      InsertLevels(front, x, p);
      LevelAppend(Insert(front, x), last, p);
    }
  }

  /** Sort meets the contract and only reorders. */
  lemma {:induction false} SortStablySorts(xs: seq<MXRecord>)
    ensures StablySorts(xs, Sort(xs))
    ensures |Sort(xs)| == |xs| && multiset(Sort(xs)) == multiset(xs)
    decreases |xs|
  {
    if xs != [] {
      var front, last := xs[..|xs| - 1], xs[|xs| - 1];
      assert xs == front + [last];
      SortStablySorts(front);
      InsertSorted(Sort(front), last);
      InsertReorders(Sort(front), last);
      forall p ensures Level(Sort(xs), p) == Level(xs, p) {
        InsertLevels(Sort(front), last, p);
      }
    }
  }

  lemma {:induction false} LevelMembers(xs: seq<MXRecord>, p: nat)
    ensures forall x :: x in Level(xs, p) <==> x in xs && x.priority == p
    decreases |xs|
  {
    if xs != [] {
      LevelMembers(xs[..|xs| - 1], p);
      assert xs == xs[..|xs| - 1] + [xs[|xs| - 1]];
    }
  }

  lemma LastOfLevel(ys: seq<MXRecord>)
    requires ys != []
    ensures var p := ys[|ys| - 1].priority; Level(ys, p) != [] && Level(ys, p)[|Level(ys, p)| - 1] == ys[|ys| - 1]
  {
  }

  // The last record's priority is nowhere exceeded in the other sequence.
  lemma LastIsIn(ys: seq<MXRecord>, zs: seq<MXRecord>)
    requires ys != [] && Sorted(zs) && SameLevels(ys, zs)
    ensures zs != [] && ys[|ys| - 1].priority <= zs[|zs| - 1].priority
  {
    var y := ys[|ys| - 1];
    LastOfLevel(ys);
    assert Level(zs, y.priority) == Level(ys, y.priority);
    LevelMembers(zs, y.priority);
    assert y in zs;
  }

  lemma SameLast(ys: seq<MXRecord>, zs: seq<MXRecord>)
    requires ys != [] && Sorted(ys) && Sorted(zs) && SameLevels(ys, zs)
    ensures zs != [] && ys[|ys| - 1] == zs[|zs| - 1]
  {
    LastIsIn(ys, zs);
    LastIsIn(zs, ys);
    LastOfLevel(ys);
    LastOfLevel(zs);
    assert Level(ys, ys[|ys| - 1].priority) == Level(zs, ys[|ys| - 1].priority);
  }

  lemma SameFronts(ys: seq<MXRecord>, zs: seq<MXRecord>, x: MXRecord)
    requires SameLevels(ys + [x], zs + [x])
    ensures SameLevels(ys, zs)
  {
    forall p ensures Level(ys, p) == Level(zs, p) {
      LevelAppend(ys, x, p);
      LevelAppend(zs, x, p);
      assert Level(ys + [x], p) == Level(zs + [x], p);
      DropSuffix(Level(ys, p), Level(zs, p), if x.priority == p then [x] else []);
    }
  }

  /** Any two stable sorts of the same records are the same sequence. */
  lemma {:induction false} StableSortIsUnique(ys: seq<MXRecord>, zs: seq<MXRecord>)
    requires Sorted(ys) && Sorted(zs) && SameLevels(ys, zs)
    ensures ys == zs
    decreases |ys|
  {
    if ys == [] {
      if zs != [] { SameLast(zs, ys); }
    } else {
      SameLast(ys, zs);
      var ys', zs', x := ys[..|ys| - 1], zs[..|zs| - 1], ys[|ys| - 1];
      assert ys == ys' + [x] && zs == zs' + [x];
      SameFronts(ys', zs', x);
      StableSortIsUnique(ys', zs');
    }
  }

  lemma DropSuffix<T>(a: seq<T>, b: seq<T>, tail: seq<T>)
    requires a + tail == b + tail
    ensures a == b
  {
    assert |a| == |b|;
    assert a == (a + tail)[..|a|] && b == (b + tail)[..|b|];
  }
}
