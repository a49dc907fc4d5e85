/** The counting semaphore of internal/dns/adaptive.go as a transition system.

    Every critical section of the mutex is one step.  A call to Acquire is the unit of
    concurrency: a goroutine that acquires twice makes two calls, because the watcher
    goroutine of the first call can outlive it.  The scheduler is free: a run is any
    sequence of enabled labels. */
module SemaphoreProtocol {

  type CallId = nat

  datatype Phase =
    | Parked     // inside cond.Wait
    | Woken      // notified, not yet back under the mutex
    | Holding    // owns a slot
    | Uncounted  // slot given back, releasedTotal not yet incremented
    | Finished   // given back and counted
    | Refused    // returned the context's error

  // The goroutine that turns a cancelled context into a Broadcast.
  datatype Watcher =
    | Absent     // fast path: never started
    | Armed      // blocked in its select
    | Firing     // chose ctx.Done(), Broadcast still to come
    | Fired      // Broadcast done
    | Dismissed  // chose done

  datatype Call = Call(phase: Phase, watcher: Watcher, cancelled: bool, doneClosed: bool)

  datatype State = State(limit: int, inflight: int, acquiredTotal: nat, releasedTotal: nat,
                         calls: map<CallId, Call>)

  datatype Label =
    | Enter(c: CallId, expired: bool)            // first critical section of Acquire
    | Recheck(c: CallId)                         // a woken call is back under the mutex
    | Release(c: CallId, woken: set<CallId>)     // woken: whom Signal picked (at most one)
    | CountRelease(c: CallId)
    | SetLimit(newLimit: int)
    | Cancel(cs: set<CallId>)                    // one context may cancel several calls
    | CloseDone(c: CallId)                       // the deferred close(done)
    | WatchCtx(c: CallId)
    | WatchDone(c: CallId)
    | Broadcast(c: CallId)

  // ---------- counting calls by situation ----------

  datatype Kind = InWait | IsWoken | Hopeful | Holds | OwesCount | OwesBroadcast | IsArmed | IsFiring | IsOpen

  predicate Is(k: Kind, call: Call) {
    match k
    case InWait => call.phase.Parked?
    case IsWoken => call.phase.Woken?
    // woken, and its own Broadcast has not been spent yet
    case Hopeful => call.phase.Woken? && !call.watcher.Fired?
    case Holds => call.phase.Holding?
    case OwesCount => call.phase.Uncounted?
    // gave up waiting, and its watcher still has a Broadcast to make
    case OwesBroadcast => call.phase.Refused? && (call.watcher.Armed? || call.watcher.Firing?)
    case IsArmed => call.watcher.Armed?
    case IsFiring => call.watcher.Firing?
    case IsOpen => !call.watcher.Absent? && !call.doneClosed
  }

  function Those(calls: map<CallId, Call>, k: Kind): set<CallId> {
    set c | c in calls && Is(k, calls[c])
  }

  function Count(calls: map<CallId, Call>, k: Kind): nat {
    |Those(calls, k)|
  }

  function One(b: bool): nat { if b then 1 else 0 }

  lemma SizeWithout<T>(ts: set<T>, t: T)
    ensures |ts| == |ts - {t}| + One(t in ts)
  {
    if t in ts {
      assert ts == (ts - {t}) + {t};
    } else {
      assert ts == ts - {t};
    }
  }

  lemma CountUpdate(calls: map<CallId, Call>, c: CallId, call: Call, k: Kind)
    ensures Count(calls[c := call], k)
         == Count(calls, k) - One(c in calls && Is(k, calls[c])) + One(Is(k, call))
  {
    var before, after := Those(calls, k), Those(calls[c := call], k);
    SizeWithout(before, c);
    SizeWithout(after, c);
    forall d | d != c ensures d in after <==> d in before {
    }
    assert after - {c} == before - {c};
  }

  lemma CountsUpdate(calls: map<CallId, Call>, c: CallId, call: Call)
    ensures forall k :: Count(calls[c := call], k)
                     == Count(calls, k) - One(c in calls && Is(k, calls[c])) + One(Is(k, call))
  {
    forall k ensures Count(calls[c := call], k)
                  == Count(calls, k) - One(c in calls && Is(k, calls[c])) + One(Is(k, call))
    {
      CountUpdate(calls, c, call, k);
    }
  }

  // ---------- the steps ----------

  function WakeAll(calls: map<CallId, Call>): map<CallId, Call> {
    map c | c in calls :: if calls[c].phase.Parked? then calls[c].(phase := Woken) else calls[c]
  }

  function WakeSome(calls: map<CallId, Call>, cs: set<CallId>): map<CallId, Call> {
    map c | c in calls :: if c in cs then calls[c].(phase := Woken) else calls[c]
  }

  // Signal wakes one waiter if there is one; which one is not specified.
  predicate SignalChoice(calls: map<CallId, Call>, cs: set<CallId>) {
    cs <= Those(calls, InWait) && |cs| == (if Those(calls, InWait) == {} then 0 else 1)
  }

  predicate Enabled(s: State, l: Label) {
    match l
    case Enter(c, _) => c !in s.calls
    case Recheck(c) => c in s.calls && s.calls[c].phase.Woken?
    case Release(c, woken) => c in s.calls && s.calls[c].phase.Holding? && SignalChoice(s.calls, woken)
    case CountRelease(c) => c in s.calls && s.calls[c].phase.Uncounted?
    case SetLimit(_) => true
    case Cancel(cs) => cs <= s.calls.Keys
    case CloseDone(c) =>
      && c in s.calls && !s.calls[c].watcher.Absent? && !s.calls[c].doneClosed
      && !s.calls[c].phase.Parked? && !s.calls[c].phase.Woken?
    case WatchCtx(c) => c in s.calls && s.calls[c].watcher.Armed? && s.calls[c].cancelled
    case WatchDone(c) => c in s.calls && s.calls[c].watcher.Armed? && s.calls[c].doneClosed
    case Broadcast(c) => c in s.calls && s.calls[c].watcher.Firing?
  }

  function AfterEnter(s: State, c: CallId, expired: bool): State {
    if s.inflight < s.limit then
      s.(inflight := s.inflight + 1, acquiredTotal := s.acquiredTotal + 1,
         calls := s.calls[c := Call(Holding, Absent, expired, false)])
    else
      s.(calls := s.calls[c := Call(if expired then Refused else Parked, Armed, expired, false)])
  }

  function AfterRecheck(s: State, c: CallId): State
    requires c in s.calls
  {
    var call := s.calls[c];
    if call.cancelled then
      s.(calls := s.calls[c := call.(phase := Refused)])
    else if s.inflight >= s.limit then
      s.(calls := s.calls[c := call.(phase := Parked)])
    else
      s.(inflight := s.inflight + 1, acquiredTotal := s.acquiredTotal + 1,
         calls := s.calls[c := call.(phase := Holding)])
  }

  function AfterSetLimit(s: State, newLimit: int): State {
    var n := if newLimit < 1 then 1 else newLimit;
    s.(limit := n, calls := if n > s.limit then WakeAll(s.calls) else s.calls)
  }

  function Step(s: State, l: Label): State
    requires Enabled(s, l)
  {
    match l
    case Enter(c, expired) => AfterEnter(s, c, expired)
    case Recheck(c) => AfterRecheck(s, c)
    case Release(c, woken) =>
      s.(inflight := if s.inflight > 0 then s.inflight - 1 else s.inflight,
         calls := AfterRelease(s.calls, c, woken))
    case CountRelease(c) =>
      s.(releasedTotal := s.releasedTotal + 1, calls := s.calls[c := s.calls[c].(phase := Finished)])
    case SetLimit(n) => AfterSetLimit(s, n)
    case Cancel(cs) =>
      s.(calls := map c | c in s.calls :: if c in cs then s.calls[c].(cancelled := true) else s.calls[c])
    case CloseDone(c) => s.(calls := s.calls[c := s.calls[c].(doneClosed := true)])
    case WatchCtx(c) => s.(calls := s.calls[c := s.calls[c].(watcher := Firing)])
    case WatchDone(c) => s.(calls := s.calls[c := s.calls[c].(watcher := Dismissed)])
    case Broadcast(c) => s.(calls := WakeAll(s.calls[c := s.calls[c].(watcher := Fired)]))
  }

  predicate Initial(s: State) {
    s.limit >= 1 && s.inflight == 0 && s.acquiredTotal == 0 && s.releasedTotal == 0 && s.calls == map[]
  }

  // A schedule: labels enabled one after the other.
  predicate Runs(s: State, ls: seq<Label>)
    decreases |ls|
  {
    ls == [] || (Enabled(s, ls[0]) && Runs(Step(s, ls[0]), ls[1..]))
  }

  function Exec(s: State, ls: seq<Label>): State
    requires Runs(s, ls)
    decreases |ls|
  {
    if ls == [] then s else Exec(Step(s, ls[0]), ls[1..])
  }

  lemma CountsWakeAll(calls: map<CallId, Call>)
    ensures Count(WakeAll(calls), InWait) == 0
    ensures Count(WakeAll(calls), IsWoken) == Count(calls, IsWoken) + Count(calls, InWait)
    ensures forall k :: k !in {InWait, IsWoken, Hopeful} ==> Count(WakeAll(calls), k) == Count(calls, k)
  {
    var woke := WakeAll(calls);
    assert Those(woke, InWait) == {};
    assert Those(woke, IsWoken) == Those(calls, IsWoken) + Those(calls, InWait);
    forall k | k !in {InWait, IsWoken, Hopeful} ensures Count(woke, k) == Count(calls, k) {
      assert Those(woke, k) == Those(calls, k);
    }
  }

  lemma CountsCancel(calls: map<CallId, Call>, cs: set<CallId>)
    ensures forall k :: Count((map c | c in calls :: if c in cs then calls[c].(cancelled := true) else calls[c]), k)
                     == Count(calls, k)
  {
    var after := map c | c in calls :: if c in cs then calls[c].(cancelled := true) else calls[c];
    forall k ensures Count(after, k) == Count(calls, k) {
      assert Those(after, k) == Those(calls, k);
    }
  }

  // Signal is one update of the map, or none.
  lemma WakeSomeIsUpdate(calls: map<CallId, Call>, cs: set<CallId>)
    requires SignalChoice(calls, cs)
    ensures if Those(calls, InWait) == {} then WakeSome(calls, cs) == calls
            else exists p :: p in Those(calls, InWait) && WakeSome(calls, cs) == calls[p := calls[p].(phase := Woken)]
  {
    if Those(calls, InWait) == {} {
      assert WakeSome(calls, cs) == calls;
    } else {
      var p :| p in cs;
      SizeWithout(cs, p);
      assert cs == {p};
      assert p in Those(calls, InWait);
      assert WakeSome(calls, cs) == calls[p := calls[p].(phase := Woken)];
    }
  }

  // ---------- what every step keeps ----------

  predicate CallOk(call: Call) {
    && (call.phase.Parked? ==> (call.watcher.Armed? || call.watcher.Firing?) && !call.doneClosed)
    && (call.phase.Woken? ==> (call.watcher.Armed? || call.watcher.Firing? || call.watcher.Fired?) && !call.doneClosed)
    && (call.phase.Refused? ==> call.cancelled && !call.watcher.Absent?)
    && (call.watcher.Firing? || call.watcher.Fired? ==> call.cancelled)
    && (call.watcher.Dismissed? ==> call.doneClosed)
  }

  predicate Accounted(s: State) {
    && s.limit >= 1
    && s.inflight == Count(s.calls, Holds)
    && s.acquiredTotal == s.inflight + s.releasedTotal + Count(s.calls, OwesCount)
    && forall c :: c in s.calls ==> CallOk(s.calls[c])
  }

  // Nobody sleeps beside a slot that no one else is on the way to take.
  predicate NoLostWakeup(s: State) {
    || Count(s.calls, InWait) == 0
    || Count(s.calls, Hopeful) >= s.limit - s.inflight
    || Count(s.calls, OwesBroadcast) > 0
  }

  // The one select outcome that can lose a wakeup: both channels were ready, the call had
  // given up, and the watcher took done.
  predicate DropsBroadcast(s: State, l: Label)
    requires Enabled(s, l)
  {
    l.WatchDone? && s.calls[l.c].phase.Refused?
  }

  predicate Faithful(s: State, ls: seq<Label>)
    requires Runs(s, ls)
    decreases |ls|
  {
    ls == [] || (!DropsBroadcast(s, ls[0]) && Faithful(Step(s, ls[0]), ls[1..]))
  }

  lemma InitialIsSafe(s: State)
    requires Initial(s)
    ensures Accounted(s) && NoLostWakeup(s)
  {
    assert forall k :: Those(s.calls, k) == {};
  }

  lemma WaitersAfterRelease(calls: map<CallId, Call>, c: CallId)
    requires c in calls && calls[c].phase.Holding?
    ensures Those(calls[c := calls[c].(phase := Uncounted)], InWait) == Those(calls, InWait)
  {
  }

  function AfterRelease(calls: map<CallId, Call>, c: CallId, woken: set<CallId>): map<CallId, Call>
    requires c in calls
  {
    WakeSome(calls[c := calls[c].(phase := Uncounted)], woken)
  }

  lemma SignalCounts(calls: map<CallId, Call>, woken: set<CallId>)
    requires SignalChoice(calls, woken)
    requires forall c :: c in calls ==> CallOk(calls[c])
    ensures var one := One(Count(calls, InWait) > 0); var after := WakeSome(calls, woken);
      && Count(after, InWait) == Count(calls, InWait) - one
      && Count(after, IsWoken) == Count(calls, IsWoken) + one
      && Count(after, Hopeful) == Count(calls, Hopeful) + one
      && forall k :: k !in {InWait, IsWoken, Hopeful} ==> Count(after, k) == Count(calls, k)
  {
    WakeSomeIsUpdate(calls, woken);
    if Those(calls, InWait) != {} {
      var p :| p in Those(calls, InWait) && WakeSome(calls, woken) == calls[p := calls[p].(phase := Woken)];
      CountsUpdate(calls, p, calls[p].(phase := Woken));
      SizeWithout(Those(calls, InWait), p);
    }
  }

  // The slot is given back, nobody is woken yet.
  lemma HandBackCounts(calls: map<CallId, Call>, c: CallId)
    requires c in calls && calls[c].phase.Holding?
    ensures var after := calls[c := calls[c].(phase := Uncounted)];
      && Count(calls, Holds) >= 1
      && Count(after, Holds) == Count(calls, Holds) - 1
      && Count(after, OwesCount) == Count(calls, OwesCount) + 1
      && forall k :: k !in {Holds, OwesCount} ==> Count(after, k) == Count(calls, k)
  {
    CountsUpdate(calls, c, calls[c].(phase := Uncounted));
    SizeWithout(Those(calls, Holds), c);
  }

  // Effect of a Release on every count.
  lemma ReleaseCounts(calls: map<CallId, Call>, c: CallId, woken: set<CallId>)
    requires c in calls && calls[c].phase.Holding? && SignalChoice(calls, woken)
    requires forall d :: d in calls ==> CallOk(calls[d])
    ensures var one := One(Count(calls, InWait) > 0); var after := AfterRelease(calls, c, woken);
      && Count(calls, Holds) >= 1
      && Count(after, Holds) == Count(calls, Holds) - 1
      && Count(after, OwesCount) == Count(calls, OwesCount) + 1
      && Count(after, InWait) == Count(calls, InWait) - one
      && Count(after, IsWoken) == Count(calls, IsWoken) + one
      && Count(after, Hopeful) == Count(calls, Hopeful) + one
      && forall k :: k in {OwesBroadcast, IsArmed, IsFiring, IsOpen} ==> Count(after, k) == Count(calls, k)
  {
    HandBackCounts(calls, c);
    WaitersAfterRelease(calls, c);
    SignalCounts(calls[c := calls[c].(phase := Uncounted)], woken);
  }

  lemma StepCallsOk(s: State, l: Label)
    requires Accounted(s) && Enabled(s, l)
    ensures var t := Step(s, l); forall c :: c in t.calls ==> CallOk(t.calls[c])
  {
  }

  predicate OneCall(l: Label) {
    l.Enter? || l.Recheck? || l.CountRelease? || l.CloseDone? || l.WatchCtx? || l.WatchDone?
  }

  lemma OneCallAccounted(s: State, l: Label)
    requires Accounted(s) && Enabled(s, l) && OneCall(l)
    ensures Accounted(Step(s, l))
  {
    var t := Step(s, l);
    StepCallsOk(s, l);
    assert t.calls == s.calls[l.c := t.calls[l.c]];
    CountUpdate(s.calls, l.c, t.calls[l.c], Holds);
    CountUpdate(s.calls, l.c, t.calls[l.c], OwesCount);
  }

  lemma BroadcastAccounted(s: State, c: CallId)
    requires Accounted(s) && Enabled(s, Broadcast(c))
    ensures Accounted(Step(s, Broadcast(c)))
  {
    StepCallsOk(s, Broadcast(c));
    CountsUpdate(s.calls, c, s.calls[c].(watcher := Fired));
    CountsWakeAll(s.calls[c := s.calls[c].(watcher := Fired)]);
  }

  // Slot and counter conservation, whatever the scheduler does.
  lemma StepAccounted(s: State, l: Label)
    requires Accounted(s) && Enabled(s, l)
    ensures Accounted(Step(s, l))
  {
    match l {
      case Release(c, woken) =>
        StepCallsOk(s, l);
        ReleaseCounts(s.calls, c, woken);
      case SetLimit(_) =>
        StepCallsOk(s, l);
        CountsWakeAll(s.calls);
      case Cancel(cs) =>
        StepCallsOk(s, l);
        CountsCancel(s.calls, cs);
      case Broadcast(c) => BroadcastAccounted(s, c);
      case _ => OneCallAccounted(s, l);
    }
  }

  // Whoever was waiting is woken by these.
  lemma WakingKeepsWakeups(s: State, l: Label)
    requires Accounted(s) && Enabled(s, l) && NoLostWakeup(s) && (l.Broadcast? || l.SetLimit?)
    ensures NoLostWakeup(Step(s, l))
  {
    if l.Broadcast? {
      CountsWakeAll(s.calls[l.c := s.calls[l.c].(watcher := Fired)]);
      assert Count(Step(s, l).calls, InWait) == 0;
    } else {
      CountsWakeAll(s.calls);
    }
  }

  lemma ReleaseKeepsWakeups(s: State, c: CallId, woken: set<CallId>)
    requires Accounted(s) && Enabled(s, Release(c, woken)) && NoLostWakeup(s)
    ensures NoLostWakeup(Step(s, Release(c, woken)))
  {
    ReleaseCounts(s.calls, c, woken);
  }

  lemma CancelKeepsWakeups(s: State, cs: set<CallId>)
    requires Accounted(s) && Enabled(s, Cancel(cs)) && NoLostWakeup(s)
    ensures NoLostWakeup(Step(s, Cancel(cs)))
  {
    CountsCancel(s.calls, cs);
  }

  // The steps of one call or its watcher.
  lemma OneCallLosesWakeupIff(s: State, l: Label)
    requires Accounted(s) && Enabled(s, l) && NoLostWakeup(s) && OneCall(l)
    ensures !NoLostWakeup(Step(s, l)) <==>
            && DropsBroadcast(s, l)
            && Count(s.calls, OwesBroadcast) == 1
            && Count(s.calls, InWait) > 0
            && Count(s.calls, Hopeful) < s.limit - s.inflight
  {
    var t := Step(s, l);
    assert t.calls == s.calls[l.c := t.calls[l.c]];
    CountUpdate(s.calls, l.c, t.calls[l.c], InWait);
    CountUpdate(s.calls, l.c, t.calls[l.c], Hopeful);
    CountUpdate(s.calls, l.c, t.calls[l.c], OwesBroadcast);
  }

  /** Exactly one kind of step can turn a state without a lost wakeup into one with a lost
      wakeup: a watcher that drops the last Broadcast owed while the free slots outnumber
      the hopeful waiters. */
  lemma StepLosesWakeupIff(s: State, l: Label)
    requires Accounted(s) && Enabled(s, l) && NoLostWakeup(s)
    ensures !NoLostWakeup(Step(s, l)) <==>
            && DropsBroadcast(s, l)
            && Count(s.calls, OwesBroadcast) == 1
            && Count(s.calls, InWait) > 0
            && Count(s.calls, Hopeful) < s.limit - s.inflight
  {
    match l {
      case Release(c, woken) => ReleaseKeepsWakeups(s, c, woken);
      case SetLimit(_) => WakingKeepsWakeups(s, l);
      case Cancel(cs) => CancelKeepsWakeups(s, cs);
      case Broadcast(_) => WakingKeepsWakeups(s, l);
      case _ => OneCallLosesWakeupIff(s, l);
    }
  }
}
