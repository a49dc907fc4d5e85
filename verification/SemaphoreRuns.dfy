/** What holds of every run of the semaphore: conservation, the limit, draining after a
    shrink, no lost wakeup, and completion of everyone who waits. */
module SemaphoreRuns {
  import opened SemaphoreProtocol

  // ---------- conservation and the limit ----------

  lemma {:induction false} RunAccounted(s: State, ls: seq<Label>)
    requires Accounted(s) && Runs(s, ls)
    ensures Accounted(Exec(s, ls))
    decreases |ls|
  {
    if ls != [] {
      StepAccounted(s, ls[0]);
      RunAccounted(Step(s, ls[0]), ls[1..]);
    }
  }

  // The largest limit in force anywhere along the run.
  function PeakLimit(s: State, ls: seq<Label>): (peak: int)
    requires Runs(s, ls)
    ensures peak >= s.limit
    decreases |ls|
  {
    if ls == [] then s.limit
    else
      var rest := PeakLimit(Step(s, ls[0]), ls[1..]);
      if s.limit > rest then s.limit else rest
  }

  lemma StepTakesOnlyFreeSlots(s: State, l: Label)
    requires Accounted(s) && Enabled(s, l)
    ensures Step(s, l).inflight <= s.inflight || (s.inflight < s.limit && Step(s, l).inflight == s.inflight + 1)
  {
  }

  lemma {:induction false} InflightWithinPeak(s: State, ls: seq<Label>, bound: int)
    requires Accounted(s) && Runs(s, ls)
    requires s.inflight <= bound && PeakLimit(s, ls) <= bound
    ensures Exec(s, ls).inflight <= bound
    decreases |ls|
  {
    if ls != [] {
      StepAccounted(s, ls[0]);
      StepTakesOnlyFreeSlots(s, ls[0]);
      InflightWithinPeak(Step(s, ls[0]), ls[1..], bound);
    }
  }

  /** From the start: 0 <= inflight <= the largest limit ever set, and every acquisition is
      accounted for as in flight, counted back, or given back and not yet counted. */
  lemma LimitIsRespected(s: State, ls: seq<Label>)
    requires Initial(s) && Runs(s, ls)
    ensures var t := Exec(s, ls);
      && 0 <= t.inflight <= PeakLimit(s, ls)
      && t.inflight == Count(t.calls, Holds)
      && t.acquiredTotal == t.inflight + t.releasedTotal + Count(t.calls, OwesCount)
  {
    InitialIsSafe(s);
    RunAccounted(s, ls);
    InflightWithinPeak(s, ls, PeakLimit(s, ls));
  }

  lemma {:induction false} PeakIsWithin(s: State, ls: seq<Label>, bound: int)
    requires Runs(s, ls) && s.limit <= bound && 1 <= bound
    requires forall n :: SetLimit(n) in ls ==> n <= bound
    ensures PeakLimit(s, ls) <= bound
    decreases |ls|
  {
    if ls != [] {
      assert ls[0].SetLimit? ==> SetLimit(ls[0].newLimit) in ls;
      PeakIsWithin(Step(s, ls[0]), ls[1..], bound);
    }
  }

  /** So inflight never passes the largest limit the semaphore was given, at the start or since. */
  lemma InflightWithinLimitsSet(s: State, ls: seq<Label>, bound: int)
    requires Initial(s) && Runs(s, ls) && s.limit <= bound
    requires forall n :: SetLimit(n) in ls ==> n <= bound
    ensures 0 <= Exec(s, ls).inflight <= bound
  {
    LimitIsRespected(s, ls);
    PeakIsWithin(s, ls, bound);
  }

  // ---------- draining after a shrink ----------

  // Slots given back since the start.
  function Returned(s: State): int { s.acquiredTotal - s.inflight }

  lemma StepCountsForward(s: State, l: Label)
    requires Accounted(s) && Enabled(s, l)
    ensures var t := Step(s, l);
      && s.acquiredTotal <= t.acquiredTotal && Returned(s) <= Returned(t)
      && (s.acquiredTotal < t.acquiredTotal ==> s.inflight < s.limit)
  {
    if l.Release? { ReleaseCounts(s.calls, l.c, l.woken); }
  }

  lemma {:induction false} DrainFrom(origin: State, s: State, ls: seq<Label>, bound: int)
    requires Accounted(s) && Runs(s, ls) && PeakLimit(s, ls) <= bound
    requires origin.acquiredTotal <= s.acquiredTotal && Returned(origin) <= Returned(s)
    requires s.acquiredTotal > origin.acquiredTotal ==> Returned(s) - Returned(origin) >= origin.inflight - bound + 1
    ensures var t := Exec(s, ls);
      t.acquiredTotal > origin.acquiredTotal ==> Returned(t) - Returned(origin) >= origin.inflight - bound + 1
    decreases |ls|
  {
    if ls != [] {
      StepAccounted(s, ls[0]);
      StepCountsForward(s, ls[0]);
      DrainFrom(origin, Step(s, ls[0]), ls[1..], bound);
    }
  }

  /** While the limit stays at or below `bound`, nobody gets a slot before the surplus over
      `bound`, plus one, has been given back. */
  lemma ShrinkDrains(s: State, ls: seq<Label>, bound: int)
    requires Accounted(s) && Runs(s, ls) && PeakLimit(s, ls) <= bound
    requires Exec(s, ls).acquiredTotal > s.acquiredTotal
    ensures Returned(Exec(s, ls)) - Returned(s) >= s.inflight - bound + 1
  {
    DrainFrom(s, s, ls, bound);
  }

  // ---------- no lost wakeup ----------

  lemma {:induction false} FaithfulKeepsWakeups(s: State, ls: seq<Label>)
    requires Accounted(s) && NoLostWakeup(s) && Runs(s, ls) && Faithful(s, ls)
    ensures NoLostWakeup(Exec(s, ls))
    decreases |ls|
  {
    if ls != [] {
      StepAccounted(s, ls[0]);
      StepLosesWakeupIff(s, ls[0]);
      FaithfulKeepsWakeups(Step(s, ls[0]), ls[1..]);
    }
  }

  // No context has ended.
  predicate NoneCancelled(s: State) { forall c :: c in s.calls ==> !s.calls[c].cancelled }

  lemma StaysUncancelled(s: State, l: Label)
    requires Accounted(s) && NoneCancelled(s) && Enabled(s, l) && !l.Cancel? && (l.Enter? ==> !l.expired)
    ensures NoneCancelled(Step(s, l)) && !DropsBroadcast(s, l)
  {
  }

  /** As long as no context ends, no Broadcast is dropped and no wakeup lost. */
  lemma {:induction false} UncancelledKeepsWakeups(s: State, ls: seq<Label>)
    requires Accounted(s) && NoLostWakeup(s) && NoneCancelled(s) && Runs(s, ls)
    requires forall l :: l in ls ==> !l.Cancel? && (l.Enter? ==> !l.expired)
    ensures Faithful(s, ls) && NoLostWakeup(Exec(s, ls))
    decreases |ls|
  {
    if ls != [] {
      StepAccounted(s, ls[0]);
      StepLosesWakeupIff(s, ls[0]);
      StaysUncancelled(s, ls[0]);
      UncancelledKeepsWakeups(Step(s, ls[0]), ls[1..]);
    }
  }

  // The semaphore's own moves: no new call, no change of limit, no cancellation.
  predicate Internal(l: Label) {
    !l.Enter? && !l.SetLimit? && !l.Cancel?
  }

  ghost predicate Quiet(s: State) {
    forall l :: Internal(l) ==> !Enabled(s, l)
  }

  predicate Settled(s: State) {
    s.inflight == 0 && forall c :: c in s.calls ==> s.calls[c].phase.Finished? || s.calls[c].phase.Refused?
  }

  // Some call can be picked by Signal whenever one waits.
  lemma SignalCanChoose(calls: map<CallId, Call>) returns (cs: set<CallId>)
    ensures SignalChoice(calls, cs)
  {
    if Those(calls, InWait) == {} {
      cs := {};
    } else {
      var p :| p in Those(calls, InWait);
      cs := {p};
    }
  }

  lemma EmptyWhen(calls: map<CallId, Call>, k: Kind)
    requires forall c :: c in calls ==> !Is(k, calls[c])
    ensures Count(calls, k) == 0
  {
    assert Those(calls, k) == {};
  }

  /** If nothing can move and no wakeup was lost, nobody waits and nobody holds. */
  lemma QuietIsSettled(s: State)
    requires Accounted(s) && NoLostWakeup(s) && Quiet(s)
    ensures Settled(s)
  {
    var cs := SignalCanChoose(s.calls);
    forall c | c in s.calls
      ensures !s.calls[c].phase.Woken? && !s.calls[c].phase.Holding? && !s.calls[c].phase.Uncounted?
      ensures !Is(OwesBroadcast, s.calls[c])
    {
      assert !Enabled(s, Recheck(c)) && !Enabled(s, Release(c, cs)) && !Enabled(s, CountRelease(c));
      assert !Enabled(s, WatchCtx(c)) && !Enabled(s, Broadcast(c));
    }
    EmptyWhen(s.calls, Holds);
    EmptyWhen(s.calls, Hopeful);
    EmptyWhen(s.calls, OwesBroadcast);
    assert Those(s.calls, InWait) == {};
    forall c | c in s.calls ensures !s.calls[c].phase.Parked? {
      assert c !in Those(s.calls, InWait);
    }
  }

  // ---------- and everything that can move stops moving ----------

  function Load(n: nat, open: nat, armed: nat, firing: nat, rest: nat): nat {
    open + (n + 2) * armed + (n + 1) * firing + rest
  }

  function Rest(calls: map<CallId, Call>): nat {
    4 * Count(calls, InWait) + 5 * Count(calls, IsWoken) + 3 * Count(calls, Holds) + Count(calls, OwesCount)
  }

  // Work left: every internal step lowers it.
  function Work(s: State): nat {
    Load(|s.calls|, Count(s.calls, IsOpen), Count(s.calls, IsArmed), Count(s.calls, IsFiring), Rest(s.calls))
  }

  lemma FiringSpent(n: nat, open: nat, armed: nat, firing: nat, rest: nat, rest': nat)
    requires rest' <= rest + n
    ensures Load(n, open, armed, firing, rest') < Load(n, open, armed, firing + 1, rest)
  {
  }

  lemma ArmedMoves(n: nat, open: nat, armed: nat, firing: nat, rest: nat)
    ensures Load(n, open, armed, firing + 1, rest) < Load(n, open, armed + 1, firing, rest)
    ensures Load(n, open, armed, firing, rest) < Load(n, open, armed + 1, firing, rest)
  {
  }

  lemma CountAtMost(calls: map<CallId, Call>, k: Kind)
    ensures Count(calls, k) <= |calls|
  {
    SubsetSize(Those(calls, k), calls.Keys);
  }

  lemma SubsetSize<T>(xs: set<T>, ys: set<T>)
    requires xs <= ys
    ensures |xs| <= |ys|
  {
    assert ys == xs + (ys - xs);
  }

  lemma CallsStay(s: State, l: Label)
    requires Enabled(s, l) && Internal(l)
    ensures Step(s, l).calls.Keys == s.calls.Keys && |Step(s, l).calls| == |s.calls|
  {
    var t := Step(s, l);
    assert t.calls.Keys == s.calls.Keys;
    assert |t.calls| == |t.calls.Keys| && |s.calls| == |s.calls.Keys|;
  }

  lemma FiredCounts(calls: map<CallId, Call>, c: CallId)
    requires c in calls && calls[c].watcher.Firing?
    ensures var after := calls[c := calls[c].(watcher := Fired)];
      && Count(after, IsFiring) + 1 == Count(calls, IsFiring)
      && forall k :: k !in {IsFiring, Hopeful, OwesBroadcast} ==> Count(after, k) == Count(calls, k)
  {
    CountsUpdate(calls, c, calls[c].(watcher := Fired));
  }

  lemma BroadcastCounts(s: State, c: CallId)
    requires Accounted(s) && Enabled(s, Broadcast(c))
    ensures var t := Step(s, Broadcast(c));
      && Count(t.calls, IsOpen) == Count(s.calls, IsOpen)
      && Count(t.calls, IsArmed) == Count(s.calls, IsArmed)
      && Count(t.calls, IsFiring) + 1 == Count(s.calls, IsFiring)
      && Rest(t.calls) == Rest(s.calls) + Count(s.calls, InWait)
  {
    FiredCounts(s.calls, c);
    CountsWakeAll(s.calls[c := s.calls[c].(watcher := Fired)]);
  }

  lemma BroadcastLowersWork(s: State, c: CallId)
    requires Accounted(s) && Enabled(s, Broadcast(c))
    ensures Work(Step(s, Broadcast(c))) < Work(s)
  {
    var t := Step(s, Broadcast(c));
    CallsStay(s, Broadcast(c));
    BroadcastCounts(s, c);
    CountAtMost(s.calls, InWait);
    FiringSpent(|s.calls|, Count(s.calls, IsOpen), Count(s.calls, IsArmed), Count(t.calls, IsFiring),
                Rest(s.calls), Rest(t.calls));
  }

  lemma ReleaseLowersWork(s: State, c: CallId, woken: set<CallId>)
    requires Accounted(s) && Enabled(s, Release(c, woken))
    ensures Work(Step(s, Release(c, woken))) < Work(s)
  {
    CallsStay(s, Release(c, woken));
    ReleaseCounts(s.calls, c, woken);
  }

  // The internal steps that touch a single call: its watcher, and what the call itself still owes.
  lemma OneWatcherCounts(s: State, l: Label)
    requires Accounted(s) && Enabled(s, l) && Internal(l) && OneCall(l)
    ensures var t := Step(s, l); var arm := One(l.WatchCtx? || l.WatchDone?);
      && Count(t.calls, IsOpen) + One(l.CloseDone?) == Count(s.calls, IsOpen)
      && Count(t.calls, IsArmed) + arm == Count(s.calls, IsArmed)
      && Count(t.calls, IsFiring) == Count(s.calls, IsFiring) + One(l.WatchCtx?)
  {
    var call := Step(s, l).calls[l.c];
    assert Step(s, l).calls == s.calls[l.c := call];
    CountUpdate(s.calls, l.c, call, IsOpen);
    CountUpdate(s.calls, l.c, call, IsArmed);
    CountUpdate(s.calls, l.c, call, IsFiring);
  }

  lemma OneCallRest(s: State, l: Label)
    requires Accounted(s) && Enabled(s, l) && Internal(l) && OneCall(l)
    ensures Rest(Step(s, l).calls) <= Rest(s.calls) - One(l.Recheck? || l.CountRelease?)
  {
    var call := Step(s, l).calls[l.c];
    assert Step(s, l).calls == s.calls[l.c := call];
    CountUpdate(s.calls, l.c, call, InWait);
    CountUpdate(s.calls, l.c, call, IsWoken);
    CountUpdate(s.calls, l.c, call, Holds);
    CountUpdate(s.calls, l.c, call, OwesCount);
  }

  lemma OneCallLowersWork(s: State, l: Label)
    requires Accounted(s) && Enabled(s, l) && Internal(l) && OneCall(l)
    ensures Work(Step(s, l)) < Work(s)
  {
    var t := Step(s, l);
    CallsStay(s, l);
    OneWatcherCounts(s, l);
    OneCallRest(s, l);
    ArmedMoves(|s.calls|, Count(t.calls, IsOpen), Count(t.calls, IsArmed), Count(s.calls, IsFiring), Rest(t.calls));
  }

  lemma InternalStepLowersWork(s: State, l: Label)
    requires Accounted(s) && Enabled(s, l) && Internal(l)
    ensures Work(Step(s, l)) < Work(s)
  {
    match l {
      case Release(c, woken) => ReleaseLowersWork(s, c, woken);
      case Broadcast(c) => BroadcastLowersWork(s, c);
      case _ => OneCallLowersWork(s, l);
    }
  }

  lemma {:induction false} InternalRunsAreShort(s: State, ls: seq<Label>)
    requires Accounted(s) && Runs(s, ls) && forall l :: l in ls ==> Internal(l)
    ensures |ls| + Work(Exec(s, ls)) <= Work(s)
    decreases |ls|
  {
    if ls != [] {
      StepAccounted(s, ls[0]);
      InternalStepLowersWork(s, ls[0]);
      InternalRunsAreShort(Step(s, ls[0]), ls[1..]);
    }
  }

  lemma SettledHasNoWaiter(s: State)
    requires Settled(s)
    ensures NoLostWakeup(s)
  {
    EmptyWhen(s.calls, InWait);
  }

  /** Whatever happened before (arrivals, cancellations, shrinks, growths), once the outside
      stops, every schedule of the semaphore's own steps is finite.  Where it cannot be extended
      every waiter has been served or refused and no slot is in use, unless a wakeup was lost,
      and none is lost if no watcher dropped an owed Broadcast. */
  lemma EveryWaiterIsServed(s: State, past: seq<Label>, rest: seq<Label>)
    requires Initial(s) && Runs(s, past) && Runs(Exec(s, past), rest)
    requires forall l :: l in rest ==> Internal(l)
    ensures |rest| <= Work(Exec(s, past))
    ensures var end := Exec(Exec(s, past), rest);
      && (Quiet(end) ==> (Settled(end) <==> NoLostWakeup(end)))
      && (Faithful(s, past) && Faithful(Exec(s, past), rest) ==> NoLostWakeup(end))
  {
    var mid := Exec(s, past);
    var end := Exec(mid, rest);
    InitialIsSafe(s);
    RunAccounted(s, past);
    InternalRunsAreShort(mid, rest);
    RunAccounted(mid, rest);
    if Faithful(s, past) && Faithful(mid, rest) {
      FaithfulKeepsWakeups(s, past);
      FaithfulKeepsWakeups(mid, rest);
    }
    if Settled(end) { SettledHasNoWaiter(end); }
    if Quiet(end) && NoLostWakeup(end) { QuietIsSettled(end); }
  }

  // ---------- the run that does lose a wakeup ----------

  function LosingRun(): seq<Label> {
    [Enter(0, false), Enter(1, false), Enter(2, false), Cancel({1}), Release(0, {1}),
     Recheck(1), CloseDone(1), WatchDone(1), CountRelease(0)]
  }

  // The state before label i of that run.
  function Losing(i: nat): State
    requires i <= 9
  {
    var held, waits := Call(Holding, Absent, false, false), Call(Parked, Armed, false, false);
    var given, gave := held.(phase := Uncounted), Call(Refused, Armed, true, false);
    match i
    case 0 => State(1, 0, 0, 0, map[])
    case 1 => State(1, 1, 1, 0, map[0 := held])
    case 2 => State(1, 1, 1, 0, map[0 := held, 1 := waits])
    case 3 => State(1, 1, 1, 0, map[0 := held, 1 := waits, 2 := waits])
    case 4 => State(1, 1, 1, 0, map[0 := held, 1 := waits.(cancelled := true), 2 := waits])
    case 5 => State(1, 0, 1, 0, map[0 := given, 1 := waits.(cancelled := true, phase := Woken), 2 := waits])
    case 6 => State(1, 0, 1, 0, map[0 := given, 1 := gave, 2 := waits])
    case 7 => State(1, 0, 1, 0, map[0 := given, 1 := gave.(doneClosed := true), 2 := waits])
    case 8 => State(1, 0, 1, 0, map[0 := given, 1 := gave.(doneClosed := true, watcher := Dismissed), 2 := waits])
    case _ => State(1, 0, 1, 1, map[0 := held.(phase := Finished),
                                    1 := gave.(doneClosed := true, watcher := Dismissed), 2 := waits])
  }

  lemma LosingStep(i: nat)
    requires i < 9
    ensures Enabled(Losing(i), LosingRun()[i]) && Step(Losing(i), LosingRun()[i]) == Losing(i + 1)
  {
    var s := Losing(i);
    if i == 4 {
      assert 1 in Those(s.calls, InWait);
      assert Step(s, Release(0, {1})).calls == Losing(5).calls;
    }
    assert Step(s, LosingRun()[i]).calls == Losing(i + 1).calls;
  }

  lemma {:induction false} LosingFrom(i: nat)
    requires i <= 9
    ensures Runs(Losing(i), LosingRun()[i..]) && Exec(Losing(i), LosingRun()[i..]) == Losing(9)
    decreases 9 - i
  {
    if i < 9 {
      LosingStep(i);
      LosingFrom(i + 1);
      assert LosingRun()[i..][1..] == LosingRun()[i + 1..];
    }
  }

  lemma LosingEndIsStuck()
    ensures Quiet(Losing(9)) && !NoLostWakeup(Losing(9))
  {
    var t := Losing(9);
    assert 2 in Those(t.calls, InWait);
    EmptyWhen(t.calls, Hopeful);
    EmptyWhen(t.calls, OwesBroadcast);
  }

  /** Limit 1.  Call 1 is cancelled, takes the Signal, leaves with the context's error, and
      its watcher picks done: call 2 stays parked beside a free slot and nothing inside the
      semaphore can move any more. */
  lemma LosingRunStrandsAWaiter()
    ensures Initial(Losing(0)) && Runs(Losing(0), LosingRun()) && !Faithful(Losing(0), LosingRun())
    ensures var t := Exec(Losing(0), LosingRun());
      && t.inflight < t.limit && 2 in t.calls && t.calls[2].phase.Parked?
      && !NoLostWakeup(t) && Quiet(t)
  {
    LosingFrom(0);
    assert LosingRun()[0..] == LosingRun();
    LosingEndIsStuck();
    if Faithful(Losing(0), LosingRun()) {
      InitialIsSafe(Losing(0));
      FaithfulKeepsWakeups(Losing(0), LosingRun());
    }
  }
}
