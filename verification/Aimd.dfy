/** The AIMD controller of internal/dns/adaptive.go and the delta reader that feeds it.

    An error rate is a pair of counts, so the float comparisons become exact ones:
    rate > 0.20 is 5 * errors > total, rate > 0.05 is 20 * errors > total and
    rate < 0.01 is 100 * errors < total. */
module Aimd {
  import opened SemaphoreProtocol
  import opened AdaptiveSemaphore

  const MIN_LIMIT: nat := 32
  const MAX_LIMIT: nat := 4096
  const ADDITIVE_STEP: nat := 64
  const MIN_SAMPLES: nat := 50

  // What one tick sees: queries and timeouts since the previous tick.
  datatype Sample = Sample(total: nat, errors: nat)

  predicate ActsOn(x: Sample) { x.total >= MIN_SAMPLES }

  predicate Collapse(x: Sample) { 5 * x.errors > x.total }

  predicate Failing(x: Sample) { 20 * x.errors > x.total }

  predicate Clean(x: Sample) { 100 * x.errors < x.total }

  function Clamp(n: int): int {
    if n < MIN_LIMIT then MIN_LIMIT else if n > MAX_LIMIT then MAX_LIMIT else n
  }

  function NextLimit(limit: nat, x: Sample): nat {
    if !ActsOn(x) then limit
    else if Collapse(x) then Clamp(limit / 4)
    else if Failing(x) then Clamp(limit / 2)
    else if Clean(x) then Clamp(limit + ADDITIVE_STEP)
    else Clamp(limit)
  }

  function Ticks(limit: nat, xs: seq<Sample>): nat
    decreases |xs|
  {
    if xs == [] then limit else Ticks(NextLimit(limit, xs[0]), xs[1..])
  }

  // ---------- the delta reader ----------

  datatype Reading = Reading(total: nat, errors: nat)

  function Delta(now: nat, before: nat): nat { if now >= before then now - before else 0 }

  class RateReader {
    var lastTotal: nat
    var lastErrors: nat

    constructor ()
      ensures lastTotal == 0 && lastErrors == 0
    {
      lastTotal, lastErrors := 0, 0;
    }

    method Read(now: Reading) returns (x: Sample)
      modifies this
      ensures x == Sample(Delta(now.total, old(lastTotal)), Delta(now.errors, old(lastErrors)))
      ensures now.total >= old(lastTotal) ==> x.total == now.total - old(lastTotal)
      ensures now.errors >= old(lastErrors) ==> x.errors == now.errors - old(lastErrors)
      // a counter that was reset counts as idle
      ensures now.total < old(lastTotal) ==> x.total == 0
      ensures now.errors < old(lastErrors) ==> x.errors == 0
      ensures Reading(lastTotal, lastErrors) == now
    {
      var prevTotal, prevErrors := lastTotal, lastErrors;
      lastTotal, lastErrors := now.total, now.errors;
      var deltaTotal, deltaErrors := 0, 0;
      if now.total >= prevTotal {
        deltaTotal := now.total - prevTotal;
      }
      if now.errors >= prevErrors {
        deltaErrors := now.errors - prevErrors;
      }
      x := Sample(deltaTotal, deltaErrors);
    }
  }

  class Controller {
    const sem: Semaphore
    const reader: RateReader

    constructor (sem: Semaphore, reader: RateReader)
      ensures this.sem == sem && this.reader == reader
    {
      this.sem, this.reader := sem, reader;
    }

    // One tick.  The semaphore takes at most one SetLimit step and inflight is untouched.
    method Tick(now: Reading)
      requires sem.Valid()
      modifies sem, reader
      ensures sem.Valid() && sem.inflight == old(sem.inflight)
      ensures Reading(reader.lastTotal, reader.lastErrors) == now
      ensures sem.limit == NextLimit(old(sem.limit),
                Sample(Delta(now.total, old(reader.lastTotal)), Delta(now.errors, old(reader.lastErrors))))
      ensures sem.View() == if sem.limit == old(sem.limit) then old(sem.View())
                            else Step(old(sem.View()), SetLimit(sem.limit))
      // fewer than 50 new queries, or an ordinary rate at a limit in range: nothing happens
      ensures now.total < old(reader.lastTotal) + 50 ==> sem.View() == old(sem.View())
      ensures old(reader.lastTotal) + 50 <= now.total && old(reader.lastErrors) <= now.errors ==>
        var limit, total := old(sem.limit), now.total - old(reader.lastTotal);
        var errors := now.errors - old(reader.lastErrors);
        && (20 * errors <= total <= 100 * errors && 32 <= limit <= 4096 ==> sem.View() == old(sem.View()))
        && (20 * errors <= total <= 100 * errors && limit < 32 ==> sem.limit == 32)
        && (5 * errors > total && 128 <= limit <= 16384 ==> sem.limit == limit / 4)
        && (5 * errors > total && limit < 128 ==> sem.limit == 32)
        && (5 * errors <= total < 20 * errors && 64 <= limit <= 8192 ==> sem.limit == limit / 2)
        && (5 * errors <= total < 20 * errors && limit < 64 ==> sem.limit == 32)
        && (100 * errors < total && limit <= 4032 ==> sem.limit == limit + 64)
        && (100 * errors < total && limit > 4032 ==> sem.limit == 4096)
    {
      var x := reader.Read(now);
      if x.total == 0 || x.total < MIN_SAMPLES {
        return;
      }
      var limit := sem.limit;
      var newLimit: int;
      if 5 * x.errors > x.total {
        newLimit := limit / 4;
      } else if 20 * x.errors > x.total {
        newLimit := limit / 2;
      } else if 100 * x.errors < x.total {
        newLimit := limit + ADDITIVE_STEP;
      } else {
        newLimit := limit;
      }
      if newLimit < MIN_LIMIT {
        newLimit := MIN_LIMIT;
      }
      if newLimit > MAX_LIMIT {
        newLimit := MAX_LIMIT;
      }
      if newLimit != limit {
        sem.SetLimit(newLimit);
      }
    }
  }

  // What a sequence of readings feeds the controller, starting after `last`.
  function Samples(last: Reading, rs: seq<Reading>): seq<Sample>
    decreases |rs|
  {
    if rs == [] then []
    else [Sample(Delta(rs[0].total, last.total), Delta(rs[0].errors, last.errors))] + Samples(rs[0], rs[1..])
  }

  predicate Growing(last: Reading, rs: seq<Reading>)
    decreases |rs|
  {
    rs == [] || (last.total <= rs[0].total && last.errors <= rs[0].errors && Growing(rs[0], rs[1..]))
  }

  function SumTotals(xs: seq<Sample>): nat { if xs == [] then 0 else xs[0].total + SumTotals(xs[1..]) }

  function SumErrors(xs: seq<Sample>): nat { if xs == [] then 0 else xs[0].errors + SumErrors(xs[1..]) }

  /** On growing counters no query is counted twice and none is missed: the samples add up to
      the last reading, including the ones the controller was too short of data to act on. */
  lemma {:induction false} SamplesTelescope(last: Reading, rs: seq<Reading>)
    requires Growing(last, rs)
    ensures var end := if rs == [] then last else rs[|rs| - 1];
      && SumTotals(Samples(last, rs)) == end.total - last.total
      && SumErrors(Samples(last, rs)) == end.errors - last.errors
    decreases |rs|
  {
    if rs != [] {
      SamplesTelescope(rs[0], rs[1..]);
      assert Samples(last, rs)[1..] == Samples(rs[0], rs[1..]);
    }
  }

  // ---------- trajectories ----------

  function Pow(b: nat, n: nat): (p: nat)
    ensures b > 0 ==> p > 0
  {
    if n == 0 then 1 else b * Pow(b, n - 1)
  }

  function Max(a: int, b: int): int { if a >= b then a else b }

  function Min(a: int, b: int): int { if a <= b then a else b }

  predicate InRange(limit: nat) { MIN_LIMIT <= limit <= MAX_LIMIT }

  lemma MulMono(x: nat, y: nat, z: nat)
    requires x <= y
    ensures x * z <= y * z
  {
  }

  lemma DivMod(a: nat, d: nat)
    requires d > 0
    ensures a == d * (a / d) + a % d && 0 <= a % d < d && a / d >= 0
  {
  }

  lemma UniqueQuotient(d: nat, q: nat, r: nat, q': nat, r': nat)
    requires d * q + r == d * q' + r' && r < d && r' < d
    ensures q == q'
  {
    if q < q' {
      MulMono(q + 1, q', d);
    } else if q' < q {
      MulMono(q' + 1, q, d);
    }
  }

  lemma QuotientIs(a: nat, d: nat, q: nat, r: nat)
    requires r < d && a == d * q + r
    ensures a / d == q
  {
    DivMod(a, d);
    UniqueQuotient(d, q, r, a / d, a % d);
  }

  lemma Regroup(b: nat, c: nat, q: nat, r': nat, r: nat)
    requires r < b && r' < c
    ensures b * (c * q + r') + r == (b * c) * q + (b * r' + r)
    ensures b * r' + r < b * c
  {
    assert b * (c * q + r') == b * (c * q) + b * r';
    assert b * (c * q) == (b * c) * q;
    MulMono(r' + 1, c, b);
    assert (r' + 1) * b == r' * b + b;
  }

  lemma DivDiv(a: nat, b: nat, c: nat)
    requires b > 0 && c > 0
    ensures b * c > 0 && a / b / c == a / (b * c)
  {
    var q, r := a / b, a % b;
    DivMod(a, b);
    DivMod(q, c);
    Regroup(b, c, q / c, q % c, r);
    QuotientIs(a, b * c, q / c, b * (q % c) + r);
  }

  lemma LeQuotient(a: nat, d: nat, q: nat)
    requires d > 0 && d * q <= a
    ensures q <= a / d
  {
    DivMod(a, d);
    if a / d < q {
      MulMono(a / d + 1, q, d);
    }
  }

  lemma DivSelfSmall(a: nat, d: nat)
    requires d > 0
    ensures a / d <= a
  {
    DivMod(a, d);
    MulMono(1, d, a / d);
  }

  lemma DivAntitone(a: nat, d: nat, e: nat)
    requires 0 < d <= e
    ensures a / e <= a / d
  {
    DivMod(a, e);
    MulMono(d, e, a / e);
    LeQuotient(a, d, a / e);
  }

  // One cut by b and the clamp, then n more, is n + 1 cuts and one clamp.
  lemma CutOnce(limit: nat, b: nat, n: nat)
    requires InRange(limit) && b > 0
    ensures Max(MIN_LIMIT, Max(MIN_LIMIT, limit / b) / Pow(b, n)) == Max(MIN_LIMIT, limit / Pow(b, n + 1))
  {
    var p := Pow(b, n);
    DivDiv(limit, b, p);
    if limit / b < MIN_LIMIT {
      DivSelfSmall(MIN_LIMIT, p);
      DivSelfSmall(limit / b, p);
    }
  }

  /** n ticks with more than 20% timeouts: the limit is divided by 4^n, down to the floor. */
  lemma {:induction false} CollapseTrajectory(limit: nat, xs: seq<Sample>)
    requires 32 <= limit <= 4096 && forall x :: x in xs ==> x.total >= 50 && 5 * x.errors > x.total
    ensures Ticks(limit, xs) == Max(32, limit / Pow(4, |xs|))
    decreases |xs|
  {
    if xs != [] {
      assert xs[0] in xs;
      var next := NextLimit(limit, xs[0]);
      assert next == Max(MIN_LIMIT, limit / 4);
      CollapseTrajectory(next, xs[1..]);
      CutOnce(limit, 4, |xs| - 1);
    }
  }

  /** n ticks between 5% and 20%: divided by 2^n, down to the floor. */
  lemma {:induction false} DecreaseTrajectory(limit: nat, xs: seq<Sample>)
    requires 32 <= limit <= 4096
    requires forall x :: x in xs ==> x.total >= 50 && 20 * x.errors > x.total >= 5 * x.errors
    ensures Ticks(limit, xs) == Max(32, limit / Pow(2, |xs|))
    decreases |xs|
  {
    if xs != [] {
      assert xs[0] in xs;
      var next := NextLimit(limit, xs[0]);
      assert next == Max(MIN_LIMIT, limit / 2);
      DecreaseTrajectory(next, xs[1..]);
      CutOnce(limit, 2, |xs| - 1);
    }
  }

  /** n ticks below 1%: plus 64 each, up to the ceiling. */
  lemma {:induction false} IncreaseTrajectory(limit: nat, xs: seq<Sample>)
    requires 32 <= limit <= 4096 && forall x :: x in xs ==> x.total >= 50 && 100 * x.errors < x.total
    ensures Ticks(limit, xs) == Min(4096, limit + 64 * |xs|)
    decreases |xs|
  {
    if xs != [] {
      assert xs[0] in xs;
      assert NextLimit(limit, xs[0]) == Min(MAX_LIMIT, limit + ADDITIVE_STEP);
      IncreaseTrajectory(NextLimit(limit, xs[0]), xs[1..]);
    }
  }

  /** However long the rate stays between 1% and 5%, or the traffic below 50 queries a tick, the
      limit holds. */
  lemma {:induction false} StableTrajectory(limit: nat, xs: seq<Sample>)
    requires forall x :: x in xs ==>
      x.total < 50 || (32 <= limit <= 4096 && 20 * x.errors <= x.total <= 100 * x.errors)
    ensures Ticks(limit, xs) == limit
    decreases |xs|
  {
    if xs != [] {
      assert xs[0] in xs;
      assert NextLimit(limit, xs[0]) == limit;
      StableTrajectory(limit, xs[1..]);
    }
  }

  lemma {:induction false} LimitStaysInRange(limit: nat, xs: seq<Sample>)
    requires 32 <= limit <= 4096 || exists i :: 0 <= i < |xs| && xs[i].total >= 50
    ensures 32 <= Ticks(limit, xs) <= 4096
    decreases |xs|
  {
    if xs != [] {
      if !InRange(limit) && !ActsOn(xs[0]) {
        var i :| 0 <= i < |xs| && xs[i].total >= 50;
        assert xs[1..][i - 1] == xs[i];
      }
      LimitStaysInRange(NextLimit(limit, xs[0]), xs[1..]);
    }
  }

  // Run a never does worse than run b: same ticks acted on, a's rate never higher.
  predicate NoWorse(as_: seq<Sample>, bs: seq<Sample>) {
    |as_| == |bs| && forall i :: 0 <= i < |as_| ==>
      && (ActsOn(as_[i]) <==> ActsOn(bs[i]))
      && as_[i].errors * bs[i].total <= bs[i].errors * as_[i].total
  }

  lemma RateThreshold(k: nat, a: Sample, b: Sample)
    requires a.total > 0 && b.total > 0 && a.errors * b.total <= b.errors * a.total
    ensures k * a.errors > a.total ==> k * b.errors > b.total
    ensures k * b.errors < b.total ==> k * a.errors < a.total
  {
  }

  lemma TickMonotone(la: nat, a: Sample, lb: nat, b: Sample)
    requires la >= lb && (ActsOn(a) <==> ActsOn(b)) && a.errors * b.total <= b.errors * a.total
    ensures NextLimit(la, a) >= NextLimit(lb, b)
  {
    if ActsOn(a) {
      RateThreshold(5, a, b);
      RateThreshold(20, a, b);
      RateThreshold(100, a, b);
    }
  }

  /** The controller is monotone in the error rate over whole runs. */
  lemma {:induction false} BetterRateNeverLowerLimit(la: nat, as_: seq<Sample>, lb: nat, bs: seq<Sample>)
    requires la >= lb && NoWorse(as_, bs)
    ensures Ticks(la, as_) >= Ticks(lb, bs)
    decreases |as_|
  {
    if as_ != [] {
      TickMonotone(la, as_[0], lb, bs[0]);
      BetterRateNeverLowerLimit(NextLimit(la, as_[0]), as_[1..], NextLimit(lb, bs[0]), bs[1..]);
    }
  }

  /** Recovery: from the ceiling four collapse ticks reach the floor and three do not; from
      the floor 64 clean ticks reach the ceiling and 63 do not. */
  lemma FloorToCeiling(down: seq<Sample>, up: seq<Sample>)
    requires forall x :: x in down ==> x.total >= 50 && 5 * x.errors > x.total
    requires forall x :: x in up ==> x.total >= 50 && 100 * x.errors < x.total
    ensures Ticks(4096, down) == 32 <==> |down| >= 4
    ensures Ticks(32, up) == 4096 <==> |up| >= 64
  {
    CollapseTrajectory(MAX_LIMIT, down);
    IncreaseTrajectory(MIN_LIMIT, up);
    assert Pow(4, 1) == 4 && Pow(4, 2) == 16 && Pow(4, 3) == 64 && Pow(4, 4) == 256;
    if |down| >= 4 {
      PowGrows(4, |down|);
      DivAntitone(MAX_LIMIT, 256, Pow(4, |down|));
    }
  }

  lemma {:induction false} PowGrows(m: nat, n: nat)
    requires m <= n
    ensures Pow(4, m) <= Pow(4, n)
    decreases n
  {
    if m < n { PowGrows(m, n - 1); }
  }
}
