/** The semaphore object.  Each method is one critical section of its mutex and performs
    exactly one step of SemaphoreProtocol, so every theorem about runs applies to it. */
module AdaptiveSemaphore {
  import opened SemaphoreProtocol

  datatype Outcome = Acquired | MustWait | ContextError

  class Semaphore {
    var limit: int
    var inflight: int
    var acquiredTotal: nat
    var releasedTotal: nat
    // Where each Acquire call and its watcher stand; the runtime's state, not the object's.
    ghost var calls: map<CallId, Call>

    ghost function View(): State
      reads this
    {
      State(limit, inflight, acquiredTotal, releasedTotal, calls)
    }

    ghost predicate Valid()
      reads this
    {
      Accounted(View())
    }

    constructor (initial: int)
      ensures Initial(View()) && Valid()
      ensures limit == if initial < 1 then 1 else initial
    {
      limit := if initial < 1 then 1 else initial;
      inflight, acquiredTotal, releasedTotal := 0, 0, 0;
      calls := map[];
      new;
      InitialIsSafe(View());
    }

    // Acquire up to its first Unlock or Wait.
    method Begin(ghost c: CallId, expired: bool) returns (outcome: Outcome)
      requires Valid() && Enabled(View(), Enter(c, expired))
      modifies this
      ensures View() == Step(old(View()), Enter(c, expired)) && Valid()
      ensures outcome.Acquired? <==> calls[c].phase.Holding?
      ensures outcome.MustWait? <==> calls[c].phase.Parked?
      ensures outcome.Acquired? <==> old(inflight < limit)
      ensures outcome.ContextError? <==> expired && old(inflight >= limit)
      ensures inflight == old(inflight) + (if outcome.Acquired? then 1 else 0)
      ensures acquiredTotal == old(acquiredTotal) + (if outcome.Acquired? then 1 else 0)
      ensures limit == old(limit) && releasedTotal == old(releasedTotal) && calls - {c} == old(calls)
    {
      StepAccounted(View(), Enter(c, expired));
      if inflight < limit {
        inflight := inflight + 1;
        acquiredTotal := acquiredTotal + 1;
        calls := calls[c := Call(Holding, Absent, expired, false)];
        return Acquired;
      }
      if expired {
        calls := calls[c := Call(Refused, Armed, true, false)];
        return ContextError;
      }
      calls := calls[c := Call(Parked, Armed, false, false)];
      return MustWait;
    }

    // Acquire from the return of Wait to the next Unlock or Wait.
    method Resume(ghost c: CallId, expired: bool) returns (outcome: Outcome)
      requires Valid() && Enabled(View(), Recheck(c)) && expired == calls[c].cancelled
      modifies this
      ensures View() == Step(old(View()), Recheck(c)) && Valid()
      ensures outcome.Acquired? <==> calls[c].phase.Holding?
      ensures outcome.ContextError? <==> expired
      ensures outcome.Acquired? <==> !expired && old(inflight < limit)
      ensures inflight == old(inflight) + (if outcome.Acquired? then 1 else 0)
      ensures acquiredTotal == old(acquiredTotal) + (if outcome.Acquired? then 1 else 0)
      ensures limit == old(limit) && releasedTotal == old(releasedTotal) && calls - {c} == old(calls) - {c}
    {
      StepAccounted(View(), Recheck(c));
      if inflight >= limit {
        if expired {
          calls := calls[c := calls[c].(phase := Refused)];
          return ContextError;
        }
        calls := calls[c := calls[c].(phase := Parked)];
        return MustWait;
      }
      if expired {
        calls := calls[c := calls[c].(phase := Refused)];
        return ContextError;
      }
      inflight := inflight + 1;
      acquiredTotal := acquiredTotal + 1;
      calls := calls[c := calls[c].(phase := Holding)];
      return Acquired;
    }

    // Release up to its Unlock; the guard on inflight never fails for paired calls.
    method Release(ghost c: CallId, ghost woken: set<CallId>)
      requires Valid() && Enabled(View(), Label.Release(c, woken))
      modifies this
      ensures View() == Step(old(View()), Label.Release(c, woken)) && Valid()
      ensures inflight == old(inflight) - 1 && limit == old(limit)
      ensures acquiredTotal == old(acquiredTotal) && releasedTotal == old(releasedTotal)
      // one waiter is woken, if there is one, and no other call notices
      ensures calls.Keys == old(calls).Keys && c in calls && calls[c].phase.Uncounted?
      ensures woken == {} <==> forall d :: d in old(calls) ==> !old(calls)[d].phase.Parked?
      ensures forall d :: d in calls && d != c ==>
        calls[d] == if d in woken then old(calls)[d].(phase := Woken) else old(calls)[d]
    {
      StepAccounted(View(), Label.Release(c, woken));
      ReleaseCounts(calls, c, woken);
      if inflight > 0 {
        inflight := inflight - 1;
      }
      calls := AfterRelease(calls, c, woken);
    }

    // The atomic counter bump after Release's Unlock.
    method FinishRelease(ghost c: CallId)
      requires Valid() && Enabled(View(), CountRelease(c))
      modifies this
      ensures View() == Step(old(View()), CountRelease(c)) && Valid()
      ensures releasedTotal == old(releasedTotal) + 1 && acquiredTotal == old(acquiredTotal)
      ensures limit == old(limit) && inflight == old(inflight)
    {
      StepAccounted(View(), CountRelease(c));
      releasedTotal := releasedTotal + 1;
      calls := calls[c := calls[c].(phase := Finished)];
    }

    method SetLimit(newLimit: int)
      requires Valid()
      modifies this
      ensures View() == Step(old(View()), Label.SetLimit(newLimit)) && Valid()
      ensures limit == (if newLimit < 1 then 1 else newLimit) && inflight == old(inflight)
      ensures acquiredTotal == old(acquiredTotal) && releasedTotal == old(releasedTotal)
      // a higher limit wakes every parked call, any other wakes none
      ensures calls.Keys == old(calls).Keys
      ensures forall d :: d in calls ==>
        calls[d] == if limit > old(limit) && old(calls)[d].phase.Parked? then old(calls)[d].(phase := Woken)
                    else old(calls)[d]
    {
      StepAccounted(View(), Label.SetLimit(newLimit));
      var n := newLimit;
      if n < 1 {
        n := 1;
      }
      if n > limit {
        limit := n;
        calls := WakeAll(calls);
      } else {
        limit := n;
      }
    }
  }
}
