/** The two-level cache of internal/cache: an expiring in-memory layer in front of Redis.

    Redis is a partial map with expiry whose calls may fail; either layer may drop entries
    at any moment (eviction).  What Get can answer is stated over whole histories. */
module TieredCache {
  import opened Bytes

  type Key = Text

  // expiresAt None: never expires.
  datatype Entry<V> = Entry(val: V, expiresAt: Option<int>)

  predicate Live<V>(e: Entry<V>, now: int) {
    e.expiresAt.None? || now <= e.expiresAt.value
  }

  function Expiry(now: int, ttl: int): Option<int> {
    if ttl > 0 then Some(now + ttl) else None
  }

  datatype Tiers<V> = Tiers(hasL1: bool, hasL2: bool, l1: map<Key, Entry<V>>, l2: map<Key, Entry<V>>, now: int)

  datatype Event<V> =
    | Get(k: Key, l2Fails: bool)
    | Set(k: Key, v: V, ttl: int, l2Fails: bool)
    | Delete(k: Key, l2Fails: bool)
    | PurgeL1
    | DropL1(ks: set<Key>)   // eviction by the in-memory library
    | DropL2(ks: set<Key>)   // eviction or expiry sweep in Redis
    | Advance(d: nat)

  // ---------- one operation ----------

  predicate HitsL1<V>(t: Tiers<V>, k: Key) { k in t.l1 && Live(t.l1[k], t.now) }

  predicate HitsL2<V>(t: Tiers<V>, k: Key, l2Fails: bool) {
    t.hasL2 && !l2Fails && k in t.l2 && Live(t.l2[k], t.now)
  }

  // A Get that misses L1 and finds the key in L2 copies it into L1.
  predicate Refills<V>(t: Tiers<V>, k: Key, l2Fails: bool) {
    t.hasL1 && !HitsL1(t, k) && HitsL2(t, k, l2Fails)
  }

  function Answer<V>(t: Tiers<V>, k: Key, l2Fails: bool): Option<V> {
    if HitsL1(t, k) then Some(t.l1[k].val)
    else if HitsL2(t, k, l2Fails) then Some(t.l2[k].val)
    else None
  }

  function Apply<V>(t: Tiers<V>, e: Event<V>): Tiers<V> {
    match e
    case Get(k, fails) =>
      if HitsL1(t, k) then t
      else if Refills(t, k, fails) then t.(l1 := t.l1[k := Entry(t.l2[k].val, None)])
      else t.(l1 := t.l1 - {k})
    case Set(k, v, ttl, fails) =>
      var entry := Entry(v, Expiry(t.now, ttl));
      t.(l1 := if t.hasL1 then t.l1[k := entry] else t.l1,
         l2 := if t.hasL2 && !fails then t.l2[k := entry] else t.l2)
    case Delete(k, fails) =>
      t.(l1 := t.l1 - {k}, l2 := if t.hasL2 && !fails then t.l2 - {k} else t.l2)
    case PurgeL1 => t.(l1 := map[])
    case DropL1(ks) => t.(l1 := t.l1 - ks)
    case DropL2(ks) => t.(l2 := t.l2 - ks)
    case Advance(d) => t.(now := t.now + d)
  }

  // A Get, with what a full L1 throws out when it takes the copy.
  function Read<V>(t: Tiers<V>, k: Key, l2Fails: bool, evicted: set<Key>): Tiers<V> {
    Apply(if Refills(t, k, l2Fails) then Apply(t, DropL1(evicted)) else t, Event.Get(k, l2Fails))
  }

  function After<V>(start: Tiers<V>, h: seq<Event<V>>): Tiers<V> {
    if h == [] then start else Apply(After(start, h[..|h| - 1]), h[|h| - 1])
  }

  lemma Unfold<V>(start: Tiers<V>, h: seq<Event<V>>, i: nat)
    requires 1 <= i <= |h|
    ensures After(start, h[..i]) == Apply(After(start, h[..i - 1]), h[i - 1])
  {
    assert h[..i][..i - 1] == h[..i - 1];
  }

  predicate Empty<V>(t: Tiers<V>) { t.l1 == map[] && t.l2 == map[] }

  // ---------- what a history means, layers aside ----------

  predicate Writes<V>(e: Event<V>, k: Key) { (e.Set? || e.Delete?) && e.k == k }

  // The value of the latest Set since the last Delete.
  function LatestSet<V>(h: seq<Event<V>>, k: Key): Option<V> {
    if h == [] then None
    else
      var e := h[|h| - 1];
      if !Writes(e, k) then LatestSet(h[..|h| - 1], k) else if e.Set? then Some(e.v) else None
  }

  // The value of the latest Set that Redis took since the last Delete it took.
  function Accepted<V>(h: seq<Event<V>>, k: Key): Option<V> {
    if h == [] then None
    else
      var e := h[|h| - 1];
      if !Writes(e, k) || e.l2Fails then Accepted(h[..|h| - 1], k) else if e.Set? then Some(e.v) else None
  }

  // When the latest Set of k stops being fresh, if it ever does.
  function Deadline<V>(start: Tiers<V>, h: seq<Event<V>>, k: Key): Option<int> {
    if h == [] then None
    else
      var past, e := h[..|h| - 1], h[|h| - 1];
      if !Writes(e, k) then Deadline(start, past, k)
      else if e.Set? then Expiry(After(start, past).now, e.ttl) else None
  }

  // The same for the Set that Redis took last.
  function AcceptedDeadline<V>(start: Tiers<V>, h: seq<Event<V>>, k: Key): Option<int> {
    if h == [] then None
    else
      var past, e := h[..|h| - 1], h[|h| - 1];
      if !Writes(e, k) || e.l2Fails then AcceptedDeadline(start, past, k)
      else if e.Set? then Expiry(After(start, past).now, e.ttl) else None
  }

  // The L1 entry of k, if there is one, was copied from L2 after the latest write of k.
  predicate CopiedFromL2<V>(start: Tiers<V>, h: seq<Event<V>>, k: Key) {
    h != [] &&
    var past, e := h[..|h| - 1], h[|h| - 1];
    if Writes(e, k) then false
    else (e.Get? && e.k == k && Refills(After(start, past), k, e.l2Fails)) || CopiedFromL2(start, past, k)
  }

  // ---------- refinement of a partial map ----------

  // L1 holds the latest Set, or a copy of what Redis took; L2 holds what Redis took.
  predicate Agrees<V(==)>(t: Tiers<V>, k: Key, latest: Option<V>, accepted: Option<V>, copied: bool) {
    && (k in t.l1 ==> Some(t.l1[k].val) == if copied then accepted else latest)
    && (k in t.l2 ==> Some(t.l2[k].val) == accepted)
  }

  lemma AgreesOn<V>(t: Tiers<V>, e: Event<V>, k: Key, latest: Option<V>, accepted: Option<V>, copied: bool)
    requires Agrees(t, k, latest, accepted, copied) && (!t.hasL1 ==> t.l1 == map[]) && (!t.hasL2 ==> t.l2 == map[])
    ensures Agrees(Apply(t, e), k, if !Writes(e, k) then latest else if e.Set? then Some(e.v) else None,
                   if !Writes(e, k) || e.l2Fails then accepted else if e.Set? then Some(e.v) else None,
                   !Writes(e, k) && ((e.Get? && e.k == k && Refills(t, k, e.l2Fails)) || copied))
  {
  }

  lemma {:induction false} LayersAgree<V>(start: Tiers<V>, h: seq<Event<V>>, k: Key)
    requires Empty(start)
    ensures Agrees(After(start, h), k, LatestSet(h, k), Accepted(h, k), CopiedFromL2(start, h, k))
    decreases |h|
  {
    if h != [] {
      var past, e := h[..|h| - 1], h[|h| - 1];
      LayersStay(start, past);
      NoLayerNoEntry(start, past);
      LayersAgree(start, past, k);
      AgreesOn(After(start, past), e, k, LatestSet(past, k), Accepted(past, k), CopiedFromL2(start, past, k));
    }
  }

  lemma LayersStayOn<V>(t: Tiers<V>, e: Event<V>)
    ensures Apply(t, e).hasL1 == t.hasL1 && Apply(t, e).hasL2 == t.hasL2
  {
  }

  lemma {:induction false} LayersStay<V>(start: Tiers<V>, h: seq<Event<V>>)
    ensures After(start, h).hasL1 == start.hasL1 && After(start, h).hasL2 == start.hasL2
    decreases |h|
  {
    if h != [] {
      LayersStay(start, h[..|h| - 1]);
      LayersStayOn(After(start, h[..|h| - 1]), h[|h| - 1]);
    }
  }

  // A layer that does not exist stays empty.
  lemma {:induction false} NoLayerNoEntry<V>(start: Tiers<V>, h: seq<Event<V>>)
    requires Empty(start)
    ensures !start.hasL1 ==> After(start, h).l1 == map[]
    ensures !start.hasL2 ==> After(start, h).l2 == map[]
    decreases |h|
  {
    if h != [] {
      NoLayerNoEntry(start, h[..|h| - 1]);
      LayersStay(start, h[..|h| - 1]);
    }
  }

  /** What Get answers after any history at all: the latest Set while L1 has it, what Redis took
      last when L1 has a copy of it or nothing and L2 answers, and a miss otherwise. */
  lemma AnswerIs<V>(start: Tiers<V>, h: seq<Event<V>>, k: Key, l2Fails: bool)
    requires Empty(start)
    ensures var t := After(start, h);
      Answer(t, k, l2Fails) ==
        if HitsL1(t, k) then (if CopiedFromL2(start, h, k) then Accepted(h, k) else LatestSet(h, k))
        else if HitsL2(t, k, l2Fails) then Accepted(h, k) else None
  {
    LayersAgree(start, h, k);
  }

  /** So Get answers a miss or exactly the latest Set since the last Delete, except when Redis
      refused a write that changed the value and the answer comes out of Redis, directly or
      through a copy. */
  lemma GetAnswersLatestSetIff<V>(start: Tiers<V>, h: seq<Event<V>>, k: Key, l2Fails: bool)
    requires Empty(start)
    ensures var t := After(start, h); var a := Answer(t, k, l2Fails);
      (a == None || a == LatestSet(h, k))
      <==> || Accepted(h, k) == LatestSet(h, k)
           || if HitsL1(t, k) then !CopiedFromL2(start, h, k) else !HitsL2(t, k, l2Fails)
  {
    LayersAgree(start, h, k);
  }

  /** The caller's view: if Redis took nothing that is left, or took the latest Set, no eviction,
      purge, expiry, copy or failing read makes Get wrong. */
  lemma GetAnswersLatestSet<V>(start: Tiers<V>, h: seq<Event<V>>, k: Key, l2Fails: bool)
    requires Empty(start)
    requires !start.hasL2 || Accepted(h, k) == None || Accepted(h, k) == LatestSet(h, k)
    ensures var a := Answer(After(start, h), k, l2Fails); a == None || a == LatestSet(h, k)
  {
    LayersAgree(start, h, k);
    LayersStay(start, h);
    NoLayerNoEntry(start, h);
    if !start.hasL2 { NoCopyWithoutL2(start, h, k); }
  }

  lemma {:induction false} NoCopyWithoutL2<V>(start: Tiers<V>, h: seq<Event<V>>, k: Key)
    requires !start.hasL2
    ensures !CopiedFromL2(start, h, k)
    decreases |h|
  {
    if h != [] {
      NoCopyWithoutL2(start, h[..|h| - 1], k);
      LayersStay(start, h[..|h| - 1]);
    }
  }

  /** Otherwise one eviction is enough, exactly while Redis still holds its value alive. */
  lemma ResurfacesIff<V>(start: Tiers<V>, h: seq<Event<V>>, k: Key, l2Fails: bool)
    requires Empty(start)
    ensures var t := After(start, h); var a := Answer(Apply(t, DropL1({k})), k, l2Fails);
      a != None && a != LatestSet(h, k) <==> HitsL2(t, k, l2Fails) && Accepted(h, k) != LatestSet(h, k)
  {
    LayersAgree(start, h, k);
  }

  /** Such a history: Redis refuses the second Set, and the in-memory copy is evicted. */
  lemma RefusedWriteResurfaces(k: Key)
    ensures var h := [Set(k, 1, 0, false), Set(k, 2, 0, true), DropL1({k})];
      && LatestSet(h, k) == Some(2)
      && Answer(After(Tiers(true, true, map[], map[], 0), h), k, false) == Some(1)
  {
    var start: Tiers<int> := Tiers(true, true, map[], map[], 0);
    var h := [Set(k, 1, 0, false), Set(k, 2, 0, true), DropL1({k})];
    Unfold(start, h, 1);
    Unfold(start, h, 2);
    Unfold(start, h, 3);
    assert h[..3] == h;
  }

  // ---------- freshness ----------

  // A copy carries no deadline, every other entry the one of the Set that wrote it.
  predicate Dated<V>(t: Tiers<V>, k: Key, deadline: Option<int>, accepted: Option<int>, copied: bool) {
    && (k in t.l1 ==> t.l1[k].expiresAt == if copied then None else deadline)
    && (k in t.l2 ==> t.l2[k].expiresAt == accepted)
  }

  lemma DatedOn<V>(t: Tiers<V>, e: Event<V>, k: Key, deadline: Option<int>, accepted: Option<int>, copied: bool)
    requires Dated(t, k, deadline, accepted, copied) && (!t.hasL1 ==> t.l1 == map[]) && (!t.hasL2 ==> t.l2 == map[])
    ensures Dated(Apply(t, e), k, if !Writes(e, k) then deadline else if e.Set? then Expiry(t.now, e.ttl) else None,
                  if !Writes(e, k) || e.l2Fails then accepted else if e.Set? then Expiry(t.now, e.ttl) else None,
                  !Writes(e, k) && ((e.Get? && e.k == k && Refills(t, k, e.l2Fails)) || copied))
  {
  }

  lemma {:induction false} EntriesAreDated<V>(start: Tiers<V>, h: seq<Event<V>>, k: Key)
    requires Empty(start)
    ensures Dated(After(start, h), k, Deadline(start, h, k), AcceptedDeadline(start, h, k), CopiedFromL2(start, h, k))
    decreases |h|
  {
    if h != [] {
      var past, e := h[..|h| - 1], h[|h| - 1];
      LayersStay(start, past);
      NoLayerNoEntry(start, past);
      EntriesAreDated(start, past, k);
      DatedOn(After(start, past), e, k, Deadline(start, past, k), AcceptedDeadline(start, past, k),
              CopiedFromL2(start, past, k));
    }
  }

  // Once copied, the L1 entry has no deadline, so it cannot be refreshed by expiring.
  lemma CopyNeverExpires<V>(start: Tiers<V>, h: seq<Event<V>>, k: Key)
    requires Empty(start) && CopiedFromL2(start, h, k)
    ensures var t := After(start, h); k in t.l1 ==> HitsL1(t, k)
  {
    EntriesAreDated(start, h, k);
  }

  // The deadline of the Set whose value Get would serve.
  function ServedDeadline<V>(start: Tiers<V>, h: seq<Event<V>>, k: Key): Option<int> {
    if HitsL1(After(start, h), k) && !CopiedFromL2(start, h, k) then Deadline(start, h, k)
    else AcceptedDeadline(start, h, k)
  }

  predicate Passed(deadline: Option<int>, now: int) { deadline.Some? && now > deadline.value }

  /** A value is served past the deadline of the Set that wrote it exactly when L1 holds a copy
      of it taken from L2: entries written by Set itself are never served late. */
  lemma ServedLateIff<V>(start: Tiers<V>, h: seq<Event<V>>, k: Key, l2Fails: bool)
    requires Empty(start)
    ensures var t := After(start, h);
      Answer(t, k, l2Fails).Some? && Passed(ServedDeadline(start, h, k), t.now)
      <==> k in t.l1 && CopiedFromL2(start, h, k) && Passed(AcceptedDeadline(start, h, k), t.now)
  {
    EntriesAreDated(start, h, k);
  }

  /** And such a run exists: ten units of life, one purge, one Get, and an hour later. */
  lemma CopyOutlivesItsDeadline(k: Key)
    ensures var start: Tiers<int> := Tiers(true, true, map[], map[], 0);
      var h := [Set(k, 7, 10, false), PurgeL1, Get(k, false), Advance(3600)];
      && Deadline(start, h, k) == Some(10) && After(start, h).now == 3600
      && Answer(After(start, h), k, false) == Some(7)
  {
    var h: seq<Event<int>> := [Set(k, 7, 10, false), PurgeL1, Get(k, false), Advance(3600)];
    var start: Tiers<int> := Tiers(true, true, map[], map[], 0);
    Unfold(start, h, 1);
    Unfold(start, h, 2);
    Unfold(start, h, 3);
    Unfold(start, h, 4);
    assert h[..4] == h;
    assert h[..1][..0] == [] && h[..2][..1] == h[..1] && h[..3][..2] == h[..2];
    assert Deadline(start, h[..1], k) == Some(10);
    assert Deadline(start, h[..2], k) == Some(10);
    assert Deadline(start, h[..3], k) == Some(10);
  }

  // ---------- what is set is found ----------

  lemma AfterConcat<V>(start: Tiers<V>, h: seq<Event<V>>, e: Event<V>)
    ensures After(start, h + [e]) == Apply(After(start, h), e)
  {
    assert (h + [e])[..|h|] == h;
  }

  // L1 holds the entry for as long as it is alive, and with no Redis behind it nothing else.
  predicate HeldInL1<V(==)>(t: Tiers<V>, k: Key, v: V, end: Option<int>) {
    && (end == None || t.now <= end.value ==> k in t.l1 && t.l1[k] == Entry(v, end))
    && (!t.hasL2 && k in t.l1 ==> t.l1[k] == Entry(v, end))
  }

  // Neither writes k nor throws it out of L1.
  predicate SparesL1<V>(e: Event<V>, k: Key) {
    !Writes(e, k) && !e.PurgeL1? && (e.DropL1? ==> k !in e.ks)
  }

  // Neither writes k nor throws it out of Redis.
  predicate SparesL2<V>(e: Event<V>, k: Key) {
    !Writes(e, k) && (e.DropL2? ==> k !in e.ks)
  }

  lemma L1HoldsOn<V>(t: Tiers<V>, e: Event<V>, k: Key, v: V, end: Option<int>)
    requires t.hasL1 && HeldInL1(t, k, v, end) && SparesL1(e, k)
    ensures HeldInL1(Apply(t, e), k, v, end)
  {
  }

  lemma {:induction false} L1Holds<V>(t: Tiers<V>, later: seq<Event<V>>, k: Key, v: V, end: Option<int>)
    requires t.hasL1 && HeldInL1(t, k, v, end)
    requires forall e :: e in later ==> SparesL1(e, k)
    ensures HeldInL1(After(t, later), k, v, end)
    decreases |later|
  {
    if later != [] {
      var past, e := later[..|later| - 1], later[|later| - 1];
      L1Holds(t, past, k, v, end);
      LayersStay(t, past);
      L1HoldsOn(After(t, past), e, k, v, end);
    }
  }

  // Redis holds the entry, and L1 holds its value or nothing.
  predicate HeldInL2<V(==)>(t: Tiers<V>, k: Key, v: V, end: Option<int>) {
    && k in t.l2 && t.l2[k] == Entry(v, end)
    && (k in t.l1 ==> t.l1[k].val == v)
  }

  lemma L2HoldsOn<V>(t: Tiers<V>, e: Event<V>, k: Key, v: V, end: Option<int>)
    requires HeldInL2(t, k, v, end) && SparesL2(e, k)
    ensures HeldInL2(Apply(t, e), k, v, end)
  {
  }

  lemma {:induction false} L2Holds<V>(t: Tiers<V>, later: seq<Event<V>>, k: Key, v: V, end: Option<int>)
    requires HeldInL2(t, k, v, end)
    requires forall e :: e in later ==> SparesL2(e, k)
    ensures HeldInL2(After(t, later), k, v, end)
    decreases |later|
  {
    if later != [] {
      var past, e := later[..|later| - 1], later[|later| - 1];
      L2Holds(t, past, k, v, end);
      L2HoldsOn(After(t, past), e, k, v, end);
    }
  }

  lemma {:induction false} AfterSplit<V>(start: Tiers<V>, h: seq<Event<V>>, later: seq<Event<V>>)
    ensures After(start, h + later) == After(After(start, h), later)
    decreases |later|
  {
    if later == [] {
      assert h + later == h;
    } else {
      var n := |later| - 1;
      AfterSplit(start, h, later[..n]);
      assert (h + later)[..|h + later| - 1] == h + later[..n];
    }
  }

  /** A value set in a cache with an L1 is found until its deadline, whatever Redis does, unless
      the key is written again or thrown out of L1; and with no Redis it is not found after. */
  lemma SetIsFound<V>(start: Tiers<V>, h: seq<Event<V>>, k: Key, v: V, ttl: int, refused: bool,
                      later: seq<Event<V>>, l2Fails: bool)
    requires start.hasL1
    requires forall e :: e in later ==>
      && !(e.Set? && e.k == k) && !(e.Delete? && e.k == k) && !e.PurgeL1? && !(e.DropL1? && k in e.ks)
    ensures var t, set_ := After(start, h + [Set(k, v, ttl, refused)] + later), After(start, h);
      && (ttl <= 0 || t.now <= set_.now + ttl ==> Answer(t, k, l2Fails) == Some(v))
      && (ttl > 0 && t.now > set_.now + ttl && !start.hasL2 ==> Answer(t, k, l2Fails) == None)
  {
    var e, end := Set(k, v, ttl, refused), Expiry(After(start, h).now, ttl);
    AfterConcat(start, h, e);
    AfterSplit(start, h + [e], later);
    LayersStay(start, h);
    LayersStay(start, h + [e]);
    LayersStay(After(start, h + [e]), later);
    L1Holds(After(start, h + [e]), later, k, v, end);
  }

  /** A value Redis took is found until its deadline by every read that reaches Redis, whatever
      L1 throws out and however often it is purged, unless the key is written again or thrown
      out of Redis. */
  lemma SetIsFoundInRedis<V>(start: Tiers<V>, h: seq<Event<V>>, k: Key, v: V, ttl: int, later: seq<Event<V>>)
    requires start.hasL2 && Empty(start)
    requires forall e :: e in later ==>
      && !(e.Set? && e.k == k) && !(e.Delete? && e.k == k) && !(e.DropL2? && k in e.ks)
    ensures var t, set_ := After(start, h + [Set(k, v, ttl, false)] + later), After(start, h);
      && (ttl <= 0 || t.now <= set_.now + ttl ==> Answer(t, k, false) == Some(v))
      && (ttl > 0 && t.now > set_.now + ttl && !start.hasL1 ==> Answer(t, k, false) == None)
  {
    var e, end := Set(k, v, ttl, false), Expiry(After(start, h).now, ttl);
    AfterConcat(start, h, e);
    AfterSplit(start, h + [e], later);
    LayersStay(start, h);
    LayersStay(start, h + [e]);
    LayersStay(start, h + [e] + later);
    NoLayerNoEntry(start, h);
    NoLayerNoEntry(start, h + [e] + later);
    L2Holds(After(start, h + [e]), later, k, v, end);
  }

  // ---------- the objects ----------

  class LRU<V> {
    var entries: map<Key, Entry<V>>

    constructor ()
      ensures entries == map[]
    {
      entries := map[];
    }

    method Get(key: Key, now: int) returns (r: Option<V>)
      modifies this
      ensures r == if key in old(entries) && Live(old(entries)[key], now) then Some(old(entries)[key].val) else None
      ensures entries == if r.Some? then old(entries) else old(entries) - {key}
    {
      if key !in entries {
        return None;
      }
      var e := entries[key];
      if e.expiresAt.Some? && now > e.expiresAt.value {
        entries := entries - {key};
        return None;
      }
      return Some(e.val);
    }

    // evicted: what the library throws out to make room, never the key being added.
    method Set(key: Key, val: V, ttl: int, now: int, evicted: set<Key>)
      requires key !in evicted
      modifies this
      ensures entries == (old(entries) - evicted)[key := Entry(val, Expiry(now, ttl))]
    {
      var exp := None;
      if ttl > 0 {
        exp := Some(now + ttl);
      }
      entries := entries[key := Entry(val, exp)] - evicted;
    }

    method Delete(key: Key)
      modifies this
      ensures entries == old(entries) - {key}
    {
      entries := entries - {key};
    }

    method Purge()
      modifies this
      ensures entries == map[]
    {
      entries := map[];
    }
  }

  datatype Fetched<V> = Hit(val: V) | Missing | Broken

  class Redis<V> {
    var store: map<Key, Entry<V>>

    constructor ()
      ensures store == map[]
    {
      store := map[];
    }

    method Get(key: Key, now: int, fails: bool) returns (r: Fetched<V>)
      ensures r.Broken? <==> fails
      ensures r.Hit? ==> key in store && Live(store[key], now) && r.val == store[key].val
      ensures r.Missing? ==> key !in store || !Live(store[key], now)
    {
      r := if fails then Broken
           else if key in store && Live(store[key], now) then Hit(store[key].val) else Missing;
    }

    method Set(key: Key, val: V, ttl: int, now: int, fails: bool)
      modifies this
      ensures store == if fails then old(store) else old(store)[key := Entry(val, Expiry(now, ttl))]
    {
      if !fails {
        store := store[key := Entry(val, Expiry(now, ttl))];
      }
    }

    method Delete(key: Key, fails: bool)
      modifies this
      ensures store == if fails then old(store) else old(store) - {key}
    {
      if !fails {
        store := store - {key};
      }
    }
  }

  class Multi<V> {
    const l1: LRU?<V>
    const l2: Redis?<V>

    constructor (l1: LRU?<V>, l2: Redis?<V>)
      ensures this.l1 == l1 && this.l2 == l2
    {
      this.l1, this.l2 := l1, l2;
    }

    ghost function Parts(): set<object> {
      (if l1 == null then {} else {l1}) + (if l2 == null then {} else {l2})
    }

    ghost function View(now: int): Tiers<V>
      reads Parts()
    {
      Tiers(l1 != null, l2 != null, if l1 == null then map[] else l1.entries,
            if l2 == null then map[] else l2.store, now)
    }

    method Get(key: Key, now: int, evicted: set<Key>, l2Fails: bool) returns (r: Option<V>)
      requires key !in evicted
      modifies Parts()
      ensures r == Answer(old(View(now)), key, l2Fails)
      ensures View(now) == Read(old(View(now)), key, l2Fails, evicted)
      // Redis is only read; what L1 answers with stays, what Redis answers with is copied for good
      ensures l2 != null ==> l2.store == old(l2.store)
      ensures r != None && l1 != null ==> key in l1.entries && l1.entries[key].val == r.value
      ensures l1 != null && r != None && l1.entries != old(l1.entries) ==>
        l1.entries == (old(l1.entries) - evicted)[key := Entry(r.value, None)]
      ensures l1 != null && r == None ==> l1.entries == old(l1.entries) - {key}
    {
      if l1 != null {
        var v := l1.Get(key, now);
        if v.Some? {
          return v;
        }
      }
      if l2 != null {
        var v := l2.Get(key, now, l2Fails);
        match v {
          case Hit(val) =>
            if l1 != null {
              l1.Set(key, val, 0, now, evicted);
            }
            return Some(val);
          case Broken =>
            return None;
          case Missing =>
        }
      }
      return None;
    }

    method Set(key: Key, val: V, ttl: int, now: int, evicted: set<Key>, l2Fails: bool)
      requires key !in evicted
      modifies Parts()
      ensures View(now) == Apply(Apply(old(View(now)), DropL1(evicted)), Event.Set(key, val, ttl, l2Fails))
      ensures var entry := Entry(val, if ttl > 0 then Some(now + ttl) else None);
        && (l1 != null ==> l1.entries == (old(l1.entries) - evicted)[key := entry])
        && (l2 != null ==> l2.store == if l2Fails then old(l2.store) else old(l2.store)[key := entry])
    {
      if l1 != null {
        l1.Set(key, val, ttl, now, evicted);
      }
      if l2 != null {
        l2.Set(key, val, ttl, now, l2Fails);
      }
    }

    method Delete(key: Key, now: int, l2Fails: bool)
      modifies Parts()
      ensures View(now) == Apply(old(View(now)), Event.Delete(key, l2Fails))
      ensures l1 != null ==> l1.entries == old(l1.entries) - {key}
      ensures l2 != null ==> l2.store == if l2Fails then old(l2.store) else old(l2.store) - {key}
    {
      if l1 != null {
        l1.Delete(key);
      }
      if l2 != null {
        l2.Delete(key, l2Fails);
      }
    }

    method PurgeL1(now: int)
      modifies Parts()
      ensures View(now) == Apply(old(View(now)), Event.PurgeL1)
      ensures (l1 != null ==> l1.entries == map[]) && (l2 != null ==> l2.store == old(l2.store))
    {
      if l1 != null {
        l1.Purge();
      }
    }
  }
}
