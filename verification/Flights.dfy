/** Concurrent lookups: LookupMX's singleflight body around the semaphore.

    x/sync singleflight is the contract "one flight per key, gone when its function
    returns"; callers that join a running flight change nothing here.  A flight waits for
    the rate limiter, acquires a slot, resolves while it holds the slot, and gives the slot
    back in its deferred Release on every way out. */
module Flights {
  import opened Bytes
  import opened SemaphoreProtocol
  import opened SemaphoreRuns

  type Key = Text

  datatype Stage = Limiting | Admitted

  datatype Flight = Flight(call: CallId, stage: Stage)

  datatype Sky = Sky(sem: State, flights: map<Key, Flight>)

  datatype Move =
    | TakeOff(k: Key, call: CallId)
    | LimiterFails(k: Key)
    | Acquire(k: Key, expired: bool)
    | AcquireFails(k: Key)
    | Return(k: Key, woken: set<CallId>)   // the deferred Release, after any outcome
    | Land(k: Key)                         // counter bumped, function returned, key freed
    | Semaphore(l: Label)                  // everything the semaphore does by itself

  predicate Flying(s: Sky, k: Key, stage: Stage) {
    k in s.flights && s.flights[k].stage == stage
  }

  predicate InPhase(s: Sky, k: Key, p: Phase) {
    Flying(s, k, Admitted) && s.flights[k].call in s.sem.calls && s.sem.calls[s.flights[k].call].phase == p
  }

  predicate Can(s: Sky, m: Move) {
    match m
    case TakeOff(k, c) => k !in s.flights && c !in s.sem.calls && forall j :: j in s.flights ==> s.flights[j].call != c
    case LimiterFails(k) => Flying(s, k, Limiting)
    case Acquire(k, expired) => Flying(s, k, Limiting) && Enabled(s.sem, Enter(s.flights[k].call, expired))
    case AcquireFails(k) => InPhase(s, k, Refused)
    case Return(k, woken) => InPhase(s, k, Holding) && Enabled(s.sem, Release(s.flights[k].call, woken))
    case Land(k) => InPhase(s, k, Uncounted)
    case Semaphore(l) => !l.Enter? && !l.Release? && !l.CountRelease? && Enabled(s.sem, l)
  }

  function Do(s: Sky, m: Move): Sky
    requires Can(s, m)
  {
    match m
    case TakeOff(k, c) => s.(flights := s.flights[k := Flight(c, Limiting)])
    case LimiterFails(k) => s.(flights := s.flights - {k})
    case Acquire(k, expired) =>
      Sky(Step(s.sem, Enter(s.flights[k].call, expired)), s.flights[k := s.flights[k].(stage := Admitted)])
    case AcquireFails(k) => s.(flights := s.flights - {k})
    case Return(k, woken) => s.(sem := Step(s.sem, Release(s.flights[k].call, woken)))
    case Land(k) => Sky(Step(s.sem, CountRelease(s.flights[k].call)), s.flights - {k})
    case Semaphore(l) => s.(sem := Step(s.sem, l))
  }

  predicate Plays(s: Sky, ms: seq<Move>)
    decreases |ms|
  {
    ms == [] || (Can(s, ms[0]) && Plays(Do(s, ms[0]), ms[1..]))
  }

  function Played(s: Sky, ms: seq<Move>): Sky
    requires Plays(s, ms)
    decreases |ms|
  {
    if ms == [] then s else Played(Do(s, ms[0]), ms[1..])
  }

  predicate Clear(s: Sky) { Initial(s.sem) && s.flights == map[] }

  // ---------- every call belongs to exactly one flight ----------

  predicate Unfinished(p: Phase) { p.Parked? || p.Woken? || p.Holding? || p.Uncounted? }

  ghost predicate Owns(s: Sky, c: CallId) {
    exists k :: Flying(s, k, Admitted) && s.flights[k].call == c
  }

  ghost predicate Paired(s: Sky) {
    && Accounted(s.sem)
    && (forall j, k :: j in s.flights && k in s.flights && s.flights[j].call == s.flights[k].call ==> j == k)
    && (forall k :: Flying(s, k, Limiting) ==> s.flights[k].call !in s.sem.calls)
    && (forall k :: Flying(s, k, Admitted) ==>
          && s.flights[k].call in s.sem.calls && !s.sem.calls[s.flights[k].call].phase.Finished?)
    && (forall c :: c in s.sem.calls && Unfinished(s.sem.calls[c].phase) ==> Owns(s, c))
  }

  // A semaphore step of its own neither starts nor ends a call.
  lemma OwnStepsKeepCalls(s: State, l: Label, c: CallId)
    requires Enabled(s, l) && !l.Enter? && !l.Release? && !l.CountRelease?
    ensures Step(s, l).calls.Keys == s.calls.Keys
    ensures c in s.calls ==>
      && (Unfinished(Step(s, l).calls[c].phase) ==> Unfinished(s.calls[c].phase))
      && (Step(s, l).calls[c].phase.Finished? <==> s.calls[c].phase.Finished?)
  {
  }

  lemma SemaphoreKeepsPairing(s: Sky, l: Label)
    requires Paired(s) && Can(s, Semaphore(l))
    ensures Paired(Do(s, Semaphore(l)))
  {
    var t := Do(s, Semaphore(l));
    StepAccounted(s.sem, l);
    forall c ensures t.sem.calls.Keys == s.sem.calls.Keys
      ensures c in s.sem.calls ==>
        && (Unfinished(t.sem.calls[c].phase) ==> Unfinished(s.sem.calls[c].phase))
        && (t.sem.calls[c].phase.Finished? <==> s.sem.calls[c].phase.Finished?)
    {
      OwnStepsKeepCalls(s.sem, l, c);
    }
    forall c | c in t.sem.calls && Unfinished(t.sem.calls[c].phase) ensures Owns(t, c) {
      assert Owns(s, c);
      var k :| Flying(s, k, Admitted) && s.flights[k].call == c;
      assert Flying(t, k, Admitted);
    }
  }

  lemma OwnersStay(s: Sky, t: Sky, gone: Key, c: CallId)
    requires Owns(s, c)
    requires gone in s.flights ==> s.flights[gone].call != c
    requires forall k :: k in s.flights && k != gone ==> k in t.flights && t.flights[k] == s.flights[k]
    ensures Owns(t, c)
  {
    var k :| Flying(s, k, Admitted) && s.flights[k].call == c;
    assert Flying(t, k, Admitted);
  }

  lemma ReleaseTouches(s: State, c: CallId, woken: set<CallId>, d: CallId)
    requires Enabled(s, Release(c, woken)) && d in s.calls
    ensures var t := Step(s, Release(c, woken));
      && t.calls.Keys == s.calls.Keys
      && (d == c ==> t.calls[d].phase.Uncounted?)
      && (Unfinished(t.calls[d].phase) <==> Unfinished(s.calls[d].phase))
      && (t.calls[d].phase.Finished? <==> s.calls[d].phase.Finished?)
  {
    WaitersAfterRelease(s.calls, c);
  }

  lemma ReturnKeepsPairing(s: Sky, k: Key, woken: set<CallId>)
    requires Paired(s) && Can(s, Return(k, woken))
    ensures Paired(Do(s, Return(k, woken)))
  {
    var c, t := s.flights[k].call, Do(s, Return(k, woken));
    StepAccounted(s.sem, Release(c, woken));
    forall d | d in s.sem.calls
      ensures t.sem.calls.Keys == s.sem.calls.Keys
      ensures Unfinished(t.sem.calls[d].phase) <==> Unfinished(s.sem.calls[d].phase)
      ensures t.sem.calls[d].phase.Finished? <==> s.sem.calls[d].phase.Finished?
    {
      ReleaseTouches(s.sem, c, woken, d);
    }
    assert c in s.sem.calls;
    forall d | d in t.sem.calls && Unfinished(t.sem.calls[d].phase) ensures Owns(t, d) {
      assert Owns(s, d);
      var j :| Flying(s, j, Admitted) && s.flights[j].call == d;
      assert Flying(t, j, Admitted);
    }
  }

  lemma AcquireKeepsPairing(s: Sky, k: Key, expired: bool)
    requires Paired(s) && Can(s, Acquire(k, expired))
    ensures Paired(Do(s, Acquire(k, expired)))
  {
    var c, t := s.flights[k].call, Do(s, Acquire(k, expired));
    StepAccounted(s.sem, Enter(c, expired));
    assert Flying(t, k, Admitted) && t.flights[k].call == c;
    forall d | d in t.sem.calls && Unfinished(t.sem.calls[d].phase) && d != c ensures Owns(t, d) {
      OwnersStay(s, t, k, d);
    }
  }

  lemma LandKeepsPairing(s: Sky, k: Key)
    requires Paired(s) && Can(s, Land(k))
    ensures Paired(Do(s, Land(k)))
  {
    var t := Do(s, Land(k));
    StepAccounted(s.sem, CountRelease(s.flights[k].call));
    forall d | d in t.sem.calls && Unfinished(t.sem.calls[d].phase) ensures Owns(t, d) {
      OwnersStay(s, t, k, d);
    }
  }

  // The moves that leave the semaphore alone.
  lemma GroundKeepsPairing(s: Sky, m: Move)
    requires Paired(s) && Can(s, m) && (m.TakeOff? || m.LimiterFails? || m.AcquireFails?)
    ensures Paired(Do(s, m))
  {
    var t := Do(s, m);
    forall d | d in t.sem.calls && Unfinished(t.sem.calls[d].phase) ensures Owns(t, d) {
      assert Owns(s, d);
      if m.LimiterFails? { assert s.flights[m.k].call !in s.sem.calls; }
      OwnersStay(s, t, m.k, d);
    }
  }

  lemma MoveKeepsPairing(s: Sky, m: Move)
    requires Paired(s) && Can(s, m)
    ensures Paired(Do(s, m))
  {
    match m {
      case Semaphore(l) => SemaphoreKeepsPairing(s, l);
      case Return(k, woken) => ReturnKeepsPairing(s, k, woken);
      case Acquire(k, expired) => AcquireKeepsPairing(s, k, expired);
      case Land(k) => LandKeepsPairing(s, k);
      case _ => GroundKeepsPairing(s, m);
    }
  }

  lemma {:induction false} PlayKeepsPairing(s: Sky, ms: seq<Move>)
    requires Paired(s) && Plays(s, ms)
    ensures Paired(Played(s, ms))
    decreases |ms|
  {
    if ms != [] {
      MoveKeepsPairing(s, ms[0]);
      PlayKeepsPairing(Do(s, ms[0]), ms[1..]);
    }
  }

  // ---------- what follows ----------

  // The domains being resolved now: between Acquire and the deferred Release.
  function Resolving(s: Sky): set<Key> {
    set k | k in s.flights && InPhase(s, k, Holding)
  }

  lemma {:induction false} SameSize(ks: set<Key>, cs: set<CallId>, flights: map<Key, Flight>)
    requires forall k :: k in ks ==> k in flights && flights[k].call in cs
    requires forall c :: c in cs ==> exists k :: k in ks && flights[k].call == c
    requires forall j, k :: j in ks && k in ks && flights[j].call == flights[k].call ==> j == k
    ensures |ks| == |cs|
    decreases |ks|
  {
    if ks == {} {
      assert cs == {};
    } else {
      var k :| k in ks;
      var c := flights[k].call;
      forall d | d in cs - {c} ensures exists j :: j in ks - {k} && flights[j].call == d {
        var j :| j in ks && flights[j].call == d;
        assert j in ks - {k};
      }
      SameSize(ks - {k}, cs - {c}, flights);
    }
  }

  lemma InflightIsResolving(s: Sky)
    requires Paired(s)
    ensures s.sem.inflight == |Resolving(s)|
  {
    var holders := Those(s.sem.calls, Holds);
    forall c | c in holders ensures exists k :: k in Resolving(s) && s.flights[k].call == c {
      assert Owns(s, c);
      var k :| Flying(s, k, Admitted) && s.flights[k].call == c;
      assert k in Resolving(s);
    }
    SameSize(Resolving(s), holders, s.flights);
  }

  // The semaphore labels of a play, in order.
  function SemaphoreRun(s: Sky, ms: seq<Move>): seq<Label>
    requires Plays(s, ms)
    decreases |ms|
  {
    if ms == [] then []
    else
      var m, rest := ms[0], SemaphoreRun(Do(s, ms[0]), ms[1..]);
      match m
      case Acquire(k, expired) => [Enter(s.flights[k].call, expired)] + rest
      case Return(k, woken) => [Release(s.flights[k].call, woken)] + rest
      case Land(k) => [CountRelease(s.flights[k].call)] + rest
      case Semaphore(l) => [l] + rest
      case _ => rest
  }

  /** The lookups refine the semaphore: every play is one of its runs. */
  lemma {:induction false} PlayIsSemaphoreRun(s: Sky, ms: seq<Move>)
    requires Plays(s, ms)
    ensures Runs(s.sem, SemaphoreRun(s, ms))
    ensures Exec(s.sem, SemaphoreRun(s, ms)) == Played(s, ms).sem
    decreases |ms|
  {
    if ms != [] {
      PlayIsSemaphoreRun(Do(s, ms[0]), ms[1..]);
      var run := SemaphoreRun(s, ms);
      if |run| > 0 && !(ms[0].TakeOff? || ms[0].LimiterFails? || ms[0].AcquireFails?) {
        assert run[1..] == SemaphoreRun(Do(s, ms[0]), ms[1..]);
      }
    }
  }

  /** In every run of concurrent lookups: inflight counts exactly the domains being resolved,
      there are never more of them than the largest limit in force, and a slot can be given
      back only while inflight is positive. */
  lemma FlightAccounting(s: Sky, ms: seq<Move>)
    requires Clear(s) && Plays(s, ms)
    ensures Runs(s.sem, SemaphoreRun(s, ms))
    ensures var t := Played(s, ms);
      && t.sem.inflight == |Resolving(t)|
      && |Resolving(t)| <= PeakLimit(s.sem, SemaphoreRun(s, ms))
      && forall k :: k in t.flights && InPhase(t, k, Holding) ==> t.sem.inflight > 0
  {
    InitialIsSafe(s.sem);
    PlayKeepsPairing(s, ms);
    PlayIsSemaphoreRun(s, ms);
    LimitIsRespected(s.sem, SemaphoreRun(s, ms));
    var t := Played(s, ms);
    InflightIsResolving(t);
    forall k | k in t.flights && InPhase(t, k, Holding) ensures t.sem.inflight > 0 {
      assert k in Resolving(t);
    }
  }

  // Flights begun less flights over: refused by the limiter, refused a slot, or landed.
  function Net(ms: seq<Move>): int
    decreases |ms|
  {
    if ms == [] then 0 else Begun(ms[0]) - Over(ms[0]) + Net(ms[1..])
  }

  function Begun(m: Move): nat { if m.TakeOff? then 1 else 0 }

  function Over(m: Move): nat { if m.LimiterFails? || m.AcquireFails? || m.Land? then 1 else 0 }

  lemma KeyTaken(flights: map<Key, Flight>, k: Key, f: Flight)
    ensures |flights[k := f]| == |flights| + if k in flights then 0 else 1
  {
    assert flights[k := f].Keys == flights.Keys + {k};
    assert |flights[k := f].Keys| == |flights[k := f]| && |flights.Keys| == |flights|;
  }

  lemma KeyFreed(flights: map<Key, Flight>, k: Key)
    requires k in flights
    ensures |flights - {k}| == |flights| - 1
  {
    assert (flights - {k}).Keys == flights.Keys - {k};
    assert |(flights - {k}).Keys| == |flights - {k}| && |flights.Keys| == |flights|;
  }

  lemma MoveIsCounted(s: Sky, m: Move)
    requires Can(s, m)
    ensures |Do(s, m).flights| == |s.flights| + Begun(m) - Over(m)
  {
    match m {
      case TakeOff(k, c) => KeyTaken(s.flights, k, Flight(c, Limiting));
      case Acquire(k, _) => KeyTaken(s.flights, k, s.flights[k].(stage := Admitted));
      case LimiterFails(k) => KeyFreed(s.flights, k);
      case AcquireFails(k) => KeyFreed(s.flights, k);
      case Land(k) => KeyFreed(s.flights, k);
      case _ =>
    }
  }

  /** Every way out frees its key: the flights under way are those begun less those over. */
  lemma {:induction false} EveryWayOutFreesTheKey(s: Sky, ms: seq<Move>)
    requires Plays(s, ms)
    ensures |Played(s, ms).flights| == |s.flights| + Net(ms)
    decreases |ms|
  {
    if ms != [] {
      MoveIsCounted(s, ms[0]);
      EveryWayOutFreesTheKey(Do(s, ms[0]), ms[1..]);
    }
  }

  /** When no lookup is under way no slot is in use and everything acquired was counted back. */
  lemma QuiescenceIsClean(s: Sky, ms: seq<Move>)
    requires Clear(s) && Plays(s, ms) && Played(s, ms).flights == map[]
    ensures var t := Played(s, ms);
      Settled(t.sem) && t.sem.acquiredTotal == t.sem.releasedTotal
  {
    InitialIsSafe(s.sem);
    PlayKeepsPairing(s, ms);
    var t := Played(s, ms);
    InflightIsResolving(t);
    forall c | c in t.sem.calls ensures !Unfinished(t.sem.calls[c].phase) {
      assert !Owns(t, c);
    }
    EmptyWhen(t.sem.calls, OwesCount);
  }
}
