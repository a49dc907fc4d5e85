/** One job from Submit to its final status: the enqueueing request, the worker pool, the
    task handler of every batch, the polling tracker, and the operators' cancel, force-fail
    and stale recovery, interleaved in any order.  Every SQL statement is one step. */
module JobProtocol {
  import opened Bytes
  import opened JobRow

  datatype Batch =
    | Unsent | Queued
    | Working   // handler running, nothing persisted
    | Stored    // BulkInsert committed
    | Counted   // progress incremented
    | Failing   // about to mark the job failed
    | Lost      // dropped from the queue, aborted, or failed

  datatype Submission = NotStarted | Sending(next: nat) | Submitted | Broken

  datatype Tracker =
    | Off | Polling
    | Finishing   // saw processed >= total, about to write completed
    | GivingUp    // 24 hours over, about to write failed
    | Stopped

  datatype Job = Job(row: Row, sizes: seq<nat>, batches: seq<Batch>, submission: Submission, tracker: Tracker, now: int)

  datatype Move =
    | Begin(dbError: bool)
    | Enqueue | EnqueueFails
    | LaunchTracker
    | Take(i: nat) | Drop(i: nat) | Abort(i: nat)
    | Store(i: nat) | StoreFails(i: nat)
    | Count(i: nat, delta: Delta) | CountFails(i: nat)
    | MarkFailed(i: nat, dbError: bool)
    | Poll | PollFails | Expire
    | Finish(dbError: bool) | GiveUp(dbError: bool)
    | Operator(st: Statement)
    | Wait(d: nat)

  function Sum(xs: seq<nat>): nat { if xs == [] then 0 else Sum(xs[..|xs| - 1]) + xs[|xs| - 1] }

  function Tallied(d: Delta): nat { d.valid + d.invalid + d.risky + d.unknown + d.disposable }

  predicate At(j: Job, i: nat, b: Batch) { i < |j.batches| && j.batches[i] == b }

  predicate Can(j: Job, m: Move) {
    match m
    case Begin(_) => j.submission.NotStarted?
    case Enqueue => j.submission.Sending? && j.submission.next < |j.batches|
    case EnqueueFails => j.submission.Sending? && j.submission.next < |j.batches|
    case LaunchTracker => j.submission.Sending? && j.submission.next == |j.batches|
    case Take(i) => At(j, i, Queued)
    case Drop(i) => At(j, i, Queued)
    case Abort(i) => At(j, i, Working)
    case Store(i) => At(j, i, Working)
    case StoreFails(i) => At(j, i, Working)
    // the handler's delta: every e-mail of the batch counted, under one status each
    case Count(i, d) => At(j, i, Stored) && i < |j.sizes| && d.processed == j.sizes[i] == Tallied(d)
    case CountFails(i) => At(j, i, Stored)
    case MarkFailed(i, _) => At(j, i, Failing)
    case Poll => j.tracker.Polling?
    case PollFails => j.tracker.Polling?
    case Expire => j.tracker.Polling?
    case Finish(_) => j.tracker.Finishing?
    case GiveUp(_) => j.tracker.GivingUp?
    case Operator(st) => st.Cancel? || st.ForceFail? || st.MarkStale?
    case Wait(_) => true
  }

  function Run(j: Job, st: Statement, dbError: bool): Job {
    if dbError then j else j.(row := Execute(j.row, st, j.now))
  }

  function Become(j: Job, i: nat, b: Batch): Job
    requires i < |j.batches|
  {
    j.(batches := j.batches[i := b])
  }

  function Do(j: Job, m: Move): Job
    requires Can(j, m)
  {
    match m
    case Begin(dbError) =>
      if dbError || Rejected(j.row, UpdateStatus(Running), j.now) then j.(submission := Broken)
      else Run(j, UpdateStatus(Running), false).(submission := Sending(0))
    case Enqueue => Become(j, j.submission.next, Queued).(submission := Sending(j.submission.next + 1))
    case EnqueueFails => j.(submission := Broken)
    case LaunchTracker =>
      j.(submission := Submitted, tracker := if Sum(j.sizes) <= 0 then Finishing else Polling)
    case Take(i) => Become(j, i, Working)
    case Drop(i) => Become(j, i, Lost)
    case Abort(i) => Become(j, i, Lost)
    case Store(i) => Become(j, i, Stored)
    case StoreFails(i) => Become(j, i, Failing)
    case Count(i, d) =>
      if Rejected(j.row, IncrementProgress(d), j.now) then Become(j, i, Failing)
      else Become(Run(j, IncrementProgress(d), false), i, Counted)
    case CountFails(i) => Become(j, i, Failing)
    case MarkFailed(i, dbError) => Become(Run(j, UpdateStatus(JobRow.Status.Failed), dbError), i, Lost)
    case Poll =>
      if Terminal(j.row.status) then j.(tracker := Stopped)
      else if j.row.counts.processed >= Sum(j.sizes) then j.(tracker := Finishing)
      else j
    case PollFails => j.(tracker := Stopped)
    case Expire => j.(tracker := GivingUp)
    case Finish(dbError) => Run(j, UpdateStatus(Completed), dbError).(tracker := Stopped)
    case GiveUp(dbError) => Run(j, UpdateStatus(JobRow.Status.Failed), dbError).(tracker := Stopped)
    case Operator(st) => Run(j, st, false)
    case Wait(d) => j.(now := j.now + d)
  }

  predicate Plays(j: Job, ms: seq<Move>)
    decreases |ms|
  {
    ms == [] || (Can(j, ms[0]) && Plays(Do(j, ms[0]), ms[1..]))
  }

  function Played(j: Job, ms: seq<Move>): Job
    requires Plays(j, ms)
    decreases |ms|
  {
    if ms == [] then j else Played(Do(j, ms[0]), ms[1..])
  }

  lemma PlaysCons(j: Job, m: Move, ms: seq<Move>)
    requires Can(j, m) && Plays(Do(j, m), ms)
    ensures Plays(j, [m] + ms) && Played(j, [m] + ms) == Played(Do(j, m), ms)
  {
    assert ([m] + ms)[1..] == ms;
  }

  // As the callers of Submit create it: total is the number of e-mails in the batches.
  predicate Fresh(j: Job) {
    && j.row == Created(Sum(j.sizes), j.now)
    && j.submission.NotStarted? && j.tracker.Off?
    && |j.batches| == |j.sizes|
    && (forall i :: 0 <= i < |j.batches| ==> j.batches[i].Unsent?)
    && (forall i :: 0 <= i < |j.sizes| ==> j.sizes[i] > 0)
  }

  // ---------- conservation ----------

  // The e-mails of the batches already counted.
  function CountedSizes(sizes: seq<nat>, batches: seq<Batch>): nat
    requires |sizes| == |batches|
  {
    if sizes == [] then 0
    else
      var n := |sizes| - 1;
      CountedSizes(sizes[..n], batches[..n]) + (if batches[n].Counted? then sizes[n] else 0)
  }

  lemma {:induction false} CountedUpdate(sizes: seq<nat>, batches: seq<Batch>, i: nat, b: Batch)
    requires |sizes| == |batches| && i < |sizes|
    ensures CountedSizes(sizes, batches[i := b]) ==
            CountedSizes(sizes, batches) - (if batches[i].Counted? then sizes[i] else 0)
            + (if b.Counted? then sizes[i] else 0)
    decreases |sizes|
  {
    var n := |sizes| - 1;
    if i < n {
      CountedUpdate(sizes[..n], batches[..n], i, b);
      assert batches[i := b][..n] == batches[..n][i := b];
    } else {
      assert batches[i := b][..n] == batches[..n];
    }
  }

  lemma {:induction false} CountedAtMostSum(sizes: seq<nat>, batches: seq<Batch>)
    requires |sizes| == |batches|
    ensures CountedSizes(sizes, batches) <= Sum(sizes)
    decreases |sizes|
  {
    if sizes != [] { CountedAtMostSum(sizes[..|sizes| - 1], batches[..|sizes| - 1]); }
  }

  // A batch not counted leaves its size missing.
  lemma {:induction false} UncountedIsMissing(sizes: seq<nat>, batches: seq<Batch>, i: nat)
    requires |sizes| == |batches| && i < |sizes| && !batches[i].Counted?
    ensures CountedSizes(sizes, batches) + sizes[i] <= Sum(sizes)
    decreases |sizes|
  {
    var n := |sizes| - 1;
    if i < n { UncountedIsMissing(sizes[..n], batches[..n], i); }
    else { CountedAtMostSum(sizes[..n], batches[..n]); }
  }

  predicate Placed(j: Job) {
    && |j.batches| == |j.sizes|
    && (forall i :: 0 <= i < |j.sizes| ==> j.sizes[i] > 0)
    && (j.tracker.Off? <==> !j.submission.Submitted?)
    && (j.submission.NotStarted? ==> forall i :: 0 <= i < |j.batches| ==> j.batches[i].Unsent?)
    && (j.submission.Sending? ==> j.submission.next <= |j.batches|)
    && (j.submission.Sending? ==> forall i :: j.submission.next <= i < |j.batches| ==> j.batches[i].Unsent?)
  }

  predicate Stamped(r: Row, now: int) {
    && (r.startedAt.Some? ==> r.startedAt.value <= now)
    && (r.startedAt.Some? && r.finishedAt.Some? ==> r.finishedAt.value >= r.startedAt.value)
  }

  predicate Conserved(j: Job) {
    && Placed(j) && Stamped(j.row, j.now)
    && j.row.total == Sum(j.sizes)
    && j.row.counts.processed == CountedSizes(j.sizes, j.batches) == Tallied(j.row.counts)
    && (j.tracker.Finishing? || j.row.status.Completed? ==> j.row.counts.processed >= j.row.total)
  }

  lemma FreshIsConserved(j: Job)
    requires Fresh(j)
    ensures Conserved(j)
  {
    FreshIsPlaced(j);
    NothingCounted(j.sizes, j.batches);
  }

  lemma FreshIsPlaced(j: Job)
    requires Fresh(j)
    ensures Placed(j)
  {
  }

  lemma {:induction false} NothingCounted(sizes: seq<nat>, batches: seq<Batch>)
    requires |sizes| == |batches| && forall i :: 0 <= i < |batches| ==> !batches[i].Counted?
    ensures CountedSizes(sizes, batches) == 0
    decreases |sizes|
  {
    if sizes != [] { NothingCounted(sizes[..|sizes| - 1], batches[..|sizes| - 1]); }
  }

  /** The CHECK constraints never reject a batch's increment. */
  lemma IncrementNeverRejected(j: Job, i: nat, delta: Delta)
    requires Conserved(j) && Can(j, Count(i, delta))
    ensures !Rejected(j.row, IncrementProgress(delta), j.now)
  {
    UncountedIsMissing(j.sizes, j.batches, i);
  }

  lemma BatchMoveConserves(j: Job, i: nat, b: Batch)
    requires Conserved(j) && i < |j.batches| && !j.batches[i].Counted? && !b.Counted? && !j.batches[i].Unsent?
    ensures Conserved(Become(j, i, b))
  {
    CountedUpdate(j.sizes, j.batches, i, b);
  }

  lemma StatementConserves(j: Job, st: Statement)
    requires Conserved(j) && !st.IncrementProgress?
    requires st == UpdateStatus(Completed) ==> j.row.counts.processed >= j.row.total
    ensures Conserved(Run(j, st, false))
  {
  }

  lemma CountConserves(j: Job, i: nat, delta: Delta)
    requires Conserved(j) && Can(j, Count(i, delta))
    ensures Conserved(Do(j, Count(i, delta)))
  {
    IncrementNeverRejected(j, i, delta);
    CountedUpdate(j.sizes, j.batches, i, Counted);
  }

  lemma RequestConserves(j: Job, m: Move)
    requires Conserved(j) && Can(j, m) && (m.Begin? || m.Enqueue? || m.EnqueueFails? || m.LaunchTracker?)
    ensures Conserved(Do(j, m))
  {
    match m {
      case Begin(_) => StatementConserves(j, UpdateStatus(Running));
      case Enqueue => CountedUpdate(j.sizes, j.batches, j.submission.next, Queued);
      case _ =>
    }
  }

  lemma MarkFailedConserves(j: Job, i: nat, dbError: bool)
    requires Conserved(j) && Can(j, MarkFailed(i, dbError))
    ensures Conserved(Do(j, MarkFailed(i, dbError)))
  {
    StatementConserves(j, UpdateStatus(JobRow.Status.Failed));
    BatchMoveConserves(Run(j, UpdateStatus(JobRow.Status.Failed), dbError), i, Lost);
  }

  lemma BatchConserves(j: Job, m: Move)
    requires Conserved(j) && Can(j, m)
    requires m.Take? || m.Drop? || m.Abort? || m.Store? || m.StoreFails? || m.CountFails?
    ensures Conserved(Do(j, m))
  {
    match m {
      case Take(i) => BatchMoveConserves(j, i, Working);
      case Drop(i) => BatchMoveConserves(j, i, Lost);
      case Abort(i) => BatchMoveConserves(j, i, Lost);
      case Store(i) => BatchMoveConserves(j, i, Stored);
      case StoreFails(i) => BatchMoveConserves(j, i, Failing);
      case CountFails(i) => BatchMoveConserves(j, i, Failing);
    }
  }

  // The tracker, the operators and the clock.
  lemma OutsideConserves(j: Job, m: Move)
    requires Conserved(j) && Can(j, m)
    requires m.Poll? || m.PollFails? || m.Expire? || m.Finish? || m.GiveUp? || m.Operator? || m.Wait?
    ensures Conserved(Do(j, m))
  {
    match m {
      case Finish(_) => StatementConserves(j, UpdateStatus(Completed));
      case GiveUp(_) => StatementConserves(j, UpdateStatus(JobRow.Status.Failed));
      case Operator(st) => StatementConserves(j, st);
      case _ =>
    }
  }

  lemma MoveConserves(j: Job, m: Move)
    requires Conserved(j) && Can(j, m)
    ensures Conserved(Do(j, m))
  {
    if m.Begin? || m.Enqueue? || m.EnqueueFails? || m.LaunchTracker? {
      RequestConserves(j, m);
    } else if m.Count? {
      CountConserves(j, m.i, m.delta);
    } else if m.MarkFailed? {
      MarkFailedConserves(j, m.i, m.dbError);
    } else if m.Take? || m.Drop? || m.Abort? || m.Store? || m.StoreFails? || m.CountFails? {
      BatchConserves(j, m);
    } else {
      OutsideConserves(j, m);
    }
  }

  lemma {:induction false} PlayConserves(j: Job, ms: seq<Move>)
    requires Conserved(j) && Plays(j, ms)
    ensures Conserved(Played(j, ms)) && Played(j, ms).sizes == j.sizes
    decreases |ms|
  {
    if ms != [] {
      MoveConserves(j, ms[0]);
      PlayConserves(Do(j, ms[0]), ms[1..]);
    }
  }

  lemma FreshPlayConserves(j: Job, ms: seq<Move>, t: Job)
    requires Fresh(j) && Plays(j, ms) && t == Played(j, ms)
    ensures Conserved(t) && t.sizes == j.sizes
  {
    FreshIsConserved(j);
    PlayConserves(j, ms);
  }

  // The counters are the counted batches under one status per e-mail, and completed means all.
  predicate Balanced(t: Job, sizes: seq<nat>) {
    && |t.batches| == |sizes|
    && t.row.counts.processed == CountedSizes(sizes, t.batches) <= t.row.total == Sum(sizes)
    && t.row.counts.processed == Tallied(t.row.counts)
    && (t.row.status.Completed? ==> t.row.counts.processed == t.row.total)
  }

  lemma ConservedIsBalanced(t: Job)
    requires Conserved(t)
    ensures Balanced(t, t.sizes)
  {
    CountedAtMostSum(t.sizes, t.batches);
  }

  // In a conserved state only a job with every batch counted is completed.
  lemma ConservedState(t: Job)
    requires Conserved(t) && t.row.status.Completed?
    ensures forall i :: 0 <= i < |t.batches| ==> t.batches[i].Counted?
  {
    CountedAtMostSum(t.sizes, t.batches);
    forall i | 0 <= i < |t.batches| ensures t.batches[i].Counted? {
      if !t.batches[i].Counted? {
        UncountedIsMissing(t.sizes, t.batches, i);
      }
    }
  }

  /** Under every interleaving: the counters equal the counted batches and never pass the
      total, and a job marked completed has processed exactly its total. */
  lemma JobConservation(j: Job, ms: seq<Move>, t: Job)
    requires Fresh(j) && Plays(j, ms) && t == Played(j, ms)
    ensures Balanced(t, j.sizes)
  {
    FreshPlayConserves(j, ms, t);
    ConservedIsBalanced(t);
  }

  /** A job with a batch that was never enqueued, dropped, aborted, failed or is still under
      way is not marked completed, however cancel, retries of the tracker and crashes of
      other batches interleave. */
  lemma CompletedMeansEveryBatchCounted(j: Job, ms: seq<Move>, t: Job)
    requires Fresh(j) && Plays(j, ms) && t == Played(j, ms) && t.row.status.Completed?
    ensures |t.batches| == |j.sizes| && forall i :: 0 <= i < |t.batches| ==> t.batches[i].Counted?
  {
    FreshPlayConserves(j, ms, t);
    ConservedState(t);
  }

  lemma {:induction false} AllCountedIsSum(sizes: seq<nat>, batches: seq<Batch>)
    requires |sizes| == |batches| && forall i :: 0 <= i < |batches| ==> batches[i].Counted?
    ensures CountedSizes(sizes, batches) == Sum(sizes)
    decreases |sizes|
  {
    if sizes != [] { AllCountedIsSum(sizes[..|sizes| - 1], batches[..|sizes| - 1]); }
  }

  /** The tracker decides to complete exactly when the job is not in a terminal status and
      every batch has been counted; the write it then makes is never rejected. */
  lemma TrackerCompletesIff(j: Job)
    requires Conserved(j) && j.tracker.Polling?
    ensures Do(j, Poll).tracker.Finishing? <==>
            !Terminal(j.row.status) && forall i :: 0 <= i < |j.batches| ==> j.batches[i].Counted?
    ensures Do(j, Poll).tracker.Finishing? ==> Do(Do(j, Poll), Finish(false)).row.status.Completed?
  {
    CountedAtMostSum(j.sizes, j.batches);
    if forall i :: 0 <= i < |j.batches| ==> j.batches[i].Counted? {
      AllCountedIsSum(j.sizes, j.batches);
    } else {
      var i: nat :| i < |j.batches| && !j.batches[i].Counted?;
      UncountedIsMissing(j.sizes, j.batches, i);
    }
  }

  // ---------- a lost batch, and the end of all work ----------

  // Failed or lost, so never to be counted.
  predicate Gone(j: Job, i: nat) { At(j, i, Failing) || At(j, i, Lost) }

  lemma GoneStays(j: Job, m: Move, i: nat)
    requires Placed(j) && Can(j, m) && Gone(j, i)
    ensures Gone(Do(j, m), i)
  {
  }

  lemma {:induction false} GoneForGood(j: Job, ms: seq<Move>, i: nat)
    requires Conserved(j) && Plays(j, ms) && Gone(j, i)
    ensures Conserved(Played(j, ms)) && Gone(Played(j, ms), i)
    decreases |ms|
  {
    if ms != [] {
      MoveConserves(j, ms[0]);
      GoneStays(j, ms[0], i);
      GoneForGood(Do(j, ms[0]), ms[1..], i);
    }
  }

  /** Once a batch is dropped from the queue, aborted, or fails to be stored or counted, nothing
      that happens afterwards makes the job completed. */
  lemma LostBatchNeverCompletes(j: Job, m: Move, i: nat, ms: seq<Move>)
    requires Conserved(j) && Can(j, m) && Plays(Do(j, m), ms)
    requires m == Drop(i) || m == Abort(i) || m == StoreFails(i) || m == CountFails(i)
    ensures !Played(Do(j, m), ms).row.status.Completed?
  {
    MoveConserves(j, m);
    GoneForGood(Do(j, m), ms, i);
    var t := Played(Do(j, m), ms);
    if t.row.status.Completed? { ConservedState(t); }
  }

  lemma UntrackedStays(j: Job, m: Move)
    requires j.submission.Broken? && j.tracker.Off? && Can(j, m)
    ensures Do(j, m).submission.Broken? && Do(j, m).tracker.Off?
  {
  }

  lemma {:induction false} UntrackedForGood(j: Job, ms: seq<Move>)
    requires j.submission.Broken? && j.tracker.Off? && Plays(j, ms)
    ensures Played(j, ms).tracker.Off?
    decreases |ms|
  {
    if ms != [] {
      UntrackedStays(j, ms[0]);
      UntrackedForGood(Do(j, ms[0]), ms[1..]);
    }
  }

  /** A request whose first statement or one of whose sends fails launches no tracker, then or
      later. */
  lemma FailedRequestIsNotTracked(j: Job, m: Move, ms: seq<Move>)
    requires Conserved(j) && Can(j, m) && Plays(Do(j, m), ms)
    requires m == Begin(true) || m == EnqueueFails
             || (m == Begin(false) && Rejected(j.row, UpdateStatus(Running), j.now))
    ensures Played(Do(j, m), ms).tracker == Off
  {
    UntrackedForGood(Do(j, m), ms);
  }

  /** When its day is over the tracker fails the job, whatever the job's status, unless the database
      refuses; either way it is over. */
  lemma ExpiredJobFails(j: Job, dbError: bool)
    requires Conserved(j) && j.tracker.Polling?
    ensures Can(j, Expire) && Can(Do(j, Expire), GiveUp(dbError))
    ensures Do(Do(j, Expire), GiveUp(dbError)) ==
      j.(tracker := Stopped,
         row := if dbError then j.row
                else j.row.(status := JobRow.Status.Failed, updatedAt := j.now, finishedAt := Some(j.now)))
  {
    CountedAtMostSum(j.sizes, j.batches);
  }

  // How many moves a batch, the request and the tracker have before them at most.
  function Ahead(b: Batch): nat {
    match b
    case Unsent => 5
    case Queued => 4
    case Working => 3
    case Stored => 2
    case Failing => 1
    case Counted => 0
    case Lost => 0
  }

  function AllAhead(batches: seq<Batch>): nat {
    if batches == [] then 0 else AllAhead(batches[..|batches| - 1]) + Ahead(batches[|batches| - 1])
  }

  function Work(j: Job): nat {
    AllAhead(j.batches)
    + (match j.submission case NotStarted => 2 case Sending(_) => 1 case _ => 0)
    + (match j.tracker case Off => 3 case Polling => 2 case Stopped => 0 case _ => 1)
  }

  lemma {:induction false} AheadUpdate(batches: seq<Batch>, i: nat, b: Batch)
    requires i < |batches|
    ensures AllAhead(batches[i := b]) == AllAhead(batches) - Ahead(batches[i]) + Ahead(b)
    decreases |batches|
  {
    var n := |batches| - 1;
    if i < n {
      AheadUpdate(batches[..n], i, b);
      assert batches[i := b][..n] == batches[..n][i := b];
    } else {
      assert batches[i := b][..n] == batches[..n];
    }
  }

  // Neither the world outside nor a poll that decides nothing.
  predicate Own(j: Job, m: Move)
    requires Can(j, m)
  {
    !m.Operator? && !m.Wait? && !(m.Poll? && Do(j, m) == j)
  }

  // Handlers and the queue.
  lemma BatchLowersWork(j: Job, m: Move, i: nat)
    requires Can(j, m)
    requires || m == Take(i) || m == Drop(i) || m == Abort(i) || m == Store(i) || m == StoreFails(i)
             || m == CountFails(i) || (m.Count? && m.i == i) || (m.MarkFailed? && m.i == i)
    ensures Work(Do(j, m)) < Work(j)
  {
    AheadUpdate(j.batches, i, Do(j, m).batches[i]);
    assert Do(j, m).batches == j.batches[i := Do(j, m).batches[i]];
  }

  lemma RequestLowersWork(j: Job, m: Move)
    requires Placed(j) && Can(j, m) && (m.Begin? || m.Enqueue? || m.EnqueueFails? || m.LaunchTracker?)
    ensures Work(Do(j, m)) < Work(j)
  {
    if m.Enqueue? { AheadUpdate(j.batches, j.submission.next, Queued); }
  }

  // The tracker, the operators and the clock.
  lemma OutsideWork(j: Job, m: Move)
    requires Can(j, m)
    requires m.Poll? || m.PollFails? || m.Expire? || m.Finish? || m.GiveUp? || m.Operator? || m.Wait?
    ensures if Own(j, m) then Work(Do(j, m)) < Work(j) else Work(Do(j, m)) == Work(j)
  {
  }

  lemma MoveLowersWork(j: Job, m: Move)
    requires Placed(j) && Can(j, m)
    ensures if Own(j, m) then Work(Do(j, m)) < Work(j) else Work(Do(j, m)) == Work(j)
  {
    if m.Begin? || m.Enqueue? || m.EnqueueFails? || m.LaunchTracker? {
      RequestLowersWork(j, m);
    } else if m.Poll? || m.PollFails? || m.Expire? || m.Finish? || m.GiveUp? || m.Operator? || m.Wait? {
      OutsideWork(j, m);
    } else {
      BatchLowersWork(j, m, m.i);
    }
  }

  // The moves of a play that the job makes of its own.
  function OwnMoves(j: Job, ms: seq<Move>): nat
    requires Plays(j, ms)
    decreases |ms|
  {
    if ms == [] then 0 else (if Own(j, ms[0]) then 1 else 0) + OwnMoves(Do(j, ms[0]), ms[1..])
  }

  /** However operators, clock and idle polls interleave, a job makes no more moves of its own than
      its work at the start. */
  lemma {:induction false} OwnMovesAreFew(j: Job, ms: seq<Move>)
    requires Conserved(j) && Plays(j, ms)
    ensures OwnMoves(j, ms) + Work(Played(j, ms)) <= Work(j)
    decreases |ms|
  {
    if ms != [] {
      MoveConserves(j, ms[0]);
      MoveLowersWork(j, ms[0]);
      OwnMovesAreFew(Do(j, ms[0]), ms[1..]);
    }
  }

  /** And where it has none left, every batch it enqueued is counted or lost, and the request and
      the tracker are over. */
  lemma AtRest(j: Job)
    requires Placed(j) && forall m :: Can(j, m) ==> !Own(j, m)
    ensures forall i :: 0 <= i < |j.batches| ==> j.batches[i] in {Counted, Lost, Unsent}
    ensures j.submission in {Submitted, Broken} && j.tracker in {Off, Stopped}
  {
    forall i | 0 <= i < |j.batches| ensures j.batches[i] in {Counted, Lost, Unsent} {
      var m := match j.batches[i] case Queued => Take(i) case Working => Abort(i) case Stored => CountFails(i)
               case Failing => MarkFailed(i, true) case _ => Wait(0);
      assert Can(j, m) ==> !Own(j, m);
    }
    assert Can(j, Begin(true)) ==> !Own(j, Begin(true));
    assert Can(j, EnqueueFails) ==> !Own(j, EnqueueFails);
    assert Can(j, LaunchTracker) ==> !Own(j, LaunchTracker);
    assert Can(j, PollFails) ==> !Own(j, PollFails);
    assert Can(j, Finish(true)) ==> !Own(j, Finish(true));
    assert Can(j, GiveUp(true)) ==> !Own(j, GiveUp(true));
  }

  // ---------- a cancelled or failed job may still be completed ----------

  predicate Ended(j: Job) { Terminal(j.row.status) && !j.row.status.Completed? }

  // The tracker has read the row and not yet written; or the request is still to launch a
  // tracker with nothing to wait for; or the request has not begun and can still start the job.
  predicate MayComplete(j: Job) {
    || j.tracker.Finishing?
    || (j.submission.Sending? && j.sizes == [])
    || (j.submission.NotStarted? && !Rejected(j.row, UpdateStatus(Running), j.now))
  }

  lemma SumPositive(xs: seq<nat>)
    requires xs != [] && forall i :: 0 <= i < |xs| ==> xs[i] > 0
    ensures Sum(xs) > 0
  {
  }

  lemma StaysRejected(j: Job, d: nat)
    requires Conserved(j) && Rejected(j.row, UpdateStatus(Running), j.now)
    ensures Rejected(j.row, UpdateStatus(Running), j.now + d)
  {
    CountedAtMostSum(j.sizes, j.batches);
  }

  lemma EndedStays(j: Job, m: Move)
    requires Conserved(j) && Ended(j) && !MayComplete(j) && Can(j, m)
    ensures Ended(Do(j, m)) && !MayComplete(Do(j, m))
  {
    match m {
      case Wait(d) => if j.submission.NotStarted? { StaysRejected(j, d); }
      case LaunchTracker => SumPositive(j.sizes);
      case _ =>
    }
  }

  lemma {:induction false} EndedForGood(j: Job, ms: seq<Move>)
    requires Conserved(j) && Ended(j) && !MayComplete(j) && Plays(j, ms)
    ensures Ended(Played(j, ms))
    decreases |ms|
  {
    if ms != [] {
      MoveConserves(j, ms[0]);
      EndedStays(j, ms[0]);
      EndedForGood(Do(j, ms[0]), ms[1..]);
    }
  }

  predicate Completes(j: Job, ms: seq<Move>) { Plays(j, ms) && Played(j, ms).row.status.Completed? }

  lemma CompletesCons(j: Job, m: Move, ms: seq<Move>)
    requires Can(j, m) && Completes(Do(j, m), ms)
    ensures Completes(j, [m] + ms)
  {
    PlaysCons(j, m, ms);
  }

  lemma FinishCompletes(j: Job) returns (ms: seq<Move>)
    requires Conserved(j) && j.tracker.Finishing?
    ensures Completes(j, ms)
  {
    CountedAtMostSum(j.sizes, j.batches);
    assert Do(j, Finish(false)).row.status.Completed?;
    assert Completes(Do(j, Finish(false)), []);
    CompletesCons(j, Finish(false), []);
    ms := [Finish(false)] + [];
  }

  // Everything is counted, the request returns.
  lemma LaunchCompletes(j: Job) returns (ms: seq<Move>)
    requires Conserved(j) && Can(j, LaunchTracker) && (!Terminal(j.row.status) || j.sizes == [])
    requires forall i :: 0 <= i < |j.batches| ==> j.batches[i].Counted?
    ensures Completes(j, ms)
  {
    var t := Do(j, LaunchTracker);
    MoveConserves(j, LaunchTracker);
    if t.tracker.Finishing? {
      ms := FinishCompletes(t);
    } else {
      TrackerCompletesIff(t);
      MoveConserves(t, Poll);
      ms := FinishCompletes(Do(t, Poll));
      CompletesCons(t, Poll, ms);
      ms := [Poll] + ms;
    }
    CompletesCons(j, LaunchTracker, ms);
    ms := [LaunchTracker] + ms;
  }

  // The next batch sent, taken, stored and counted at once.
  function Through(j: Job): Job
    requires j.submission.Sending? && j.submission.next < |j.batches| == |j.sizes|
  {
    var i := j.submission.next; var n := j.sizes[i];
    Become(Run(j, IncrementProgress(Delta(n, 0, n, 0, 0, 0)), false), i, Counted).(submission := Sending(i + 1))
  }

  // A working batch of size n, all of it counted invalid.
  lemma WorkCompletes(j: Job, i: nat, n: nat, rest: seq<Move>) returns (ms: seq<Move>)
    requires Conserved(j) && At(j, i, Working) && n == j.sizes[i]
    requires Completes(Become(Run(j, IncrementProgress(Delta(n, 0, n, 0, 0, 0)), false), i, Counted), rest)
    ensures Completes(j, ms)
  {
    var d := Delta(n, 0, n, 0, 0, 0);
    var stored := Do(j, Store(i));
    MoveConserves(j, Store(i));
    IncrementNeverRejected(stored, i, d);
    assert Do(stored, Count(i, d)).batches == j.batches[i := Counted];
    CompletesCons(stored, Count(i, d), rest);
    CompletesCons(j, Store(i), [Count(i, d)] + rest);
    ms := [Store(i)] + ([Count(i, d)] + rest);
  }

  lemma ThroughCompletes(j: Job, rest: seq<Move>) returns (ms: seq<Move>)
    requires Conserved(j) && j.submission.Sending? && j.submission.next < |j.batches|
    requires Completes(Through(j), rest)
    ensures Completes(j, ms)
  {
    var i := j.submission.next; var n := j.sizes[i];
    var queued := Do(j, Enqueue);
    var working := Do(queued, Take(i));
    MoveConserves(j, Enqueue);
    MoveConserves(queued, Take(i));
    assert working.batches[i := Counted] == j.batches[i := Counted];
    assert Become(Run(working, IncrementProgress(Delta(n, 0, n, 0, 0, 0)), false), i, Counted) == Through(j);
    ms := WorkCompletes(working, i, n, rest);
    CompletesCons(queued, Take(i), ms);
    CompletesCons(j, Enqueue, [Take(i)] + ms);
    ms := [Enqueue] + ([Take(i)] + ms);
  }

  lemma ThroughConserves(j: Job)
    requires Conserved(j) && j.submission.Sending? && j.submission.next < |j.batches|
    ensures Conserved(Through(j)) && Through(j).row.status == j.row.status
  {
    var i := j.submission.next; var d := Delta(j.sizes[i], 0, j.sizes[i], 0, 0, 0);
    UncountedIsMissing(j.sizes, j.batches, i);
    CountedUpdate(j.sizes, j.batches, i, Counted);
  }

  lemma {:induction false} SendingCompletes(j: Job) returns (ms: seq<Move>)
    requires Conserved(j) && j.submission.Sending? && (!Terminal(j.row.status) || j.sizes == [])
    requires forall i :: 0 <= i < j.submission.next ==> j.batches[i].Counted?
    ensures Completes(j, ms)
    decreases |j.batches| - j.submission.next
  {
    if j.submission.next == |j.batches| {
      ms := LaunchCompletes(j);
    } else {
      ThroughConserves(j);
      ms := SendingCompletes(Through(j));
      ms := ThroughCompletes(j, ms);
    }
  }

  /** The tracker means to leave a cancelled or failed job alone, but the job can still be
      completed later, by some continuation, exactly in the three situations of MayComplete. */
  lemma EndedJobCompletesIff(j: Job)
    requires Conserved(j) && Ended(j)
    ensures (exists ms :: Completes(j, ms)) <==> MayComplete(j)
  {
    if j.tracker.Finishing? {
      var ms := FinishCompletes(j);
    } else if j.submission.Sending? && j.sizes == [] {
      var ms := SendingCompletes(j);
    } else if j.submission.NotStarted? && !Rejected(j.row, UpdateStatus(Running), j.now) {
      MoveConserves(j, Begin(false));
      var ms := SendingCompletes(Do(j, Begin(false)));
      CompletesCons(j, Begin(false), ms);
    } else {
      forall ms | Plays(j, ms) ensures !Completes(j, ms) {
        EndedForGood(j, ms);
      }
    }
  }

  // A job without e-mails, cancelled while its request is under way.
  function EmptyCancelled(now: int): Job {
    Job(Created(0, now).(status := Cancelled, startedAt := Some(now), finishedAt := Some(now)),
        [], [], Sending(0), Off, now)
  }

  lemma EmptyIsCancelled(now: int)
    ensures var j := Job(Created(0, now), [], [], NotStarted, Off, now);
      Fresh(j) && Do(Do(j, Begin(false)), Operator(Cancel)) == EmptyCancelled(now)
  {
  }

  /** It is completed two moves later by a tracker that reads nothing. */
  lemma EmptyCancelledJobIsCompleted(now: int)
    ensures Completes(EmptyCancelled(now), [LaunchTracker] + ([Finish(false)] + []))
  {
    var cancelled := EmptyCancelled(now);
    var launched := Do(cancelled, LaunchTracker);
    assert launched == cancelled.(submission := Submitted, tracker := Finishing);
    assert Completes(Do(launched, Finish(false)), []);
    CompletesCons(launched, Finish(false), []);
    CompletesCons(cancelled, LaunchTracker, [Finish(false)] + []);
  }

  function OverwritingRun(): seq<Move> {
    [Begin(false), Enqueue, LaunchTracker, Take(0), Store(0), Count(0, Delta(1, 0, 0, 1, 0, 0)), Poll,
     Operator(Cancel), Finish(false)]
  }

  // The job before move i of that run: one e-mail, counted; the tracker sees it, the operator
  // cancels, the tracker writes.
  function Overwriting(i: nat): Job
    requires i <= 9
  {
    var row := Created(1, 0);
    var running := row.(status := Running, startedAt := Some(0));
    var counted := running.(counts := Delta(1, 0, 0, 1, 0, 0));
    var cancelled := counted.(status := Cancelled, finishedAt := Some(0));
    match i
    case 0 => Job(row, [1], [Unsent], NotStarted, Off, 0)
    case 1 => Job(running, [1], [Unsent], Sending(0), Off, 0)
    case 2 => Job(running, [1], [Queued], Sending(1), Off, 0)
    case 3 => Job(running, [1], [Queued], Submitted, Polling, 0)
    case 4 => Job(running, [1], [Working], Submitted, Polling, 0)
    case 5 => Job(running, [1], [Stored], Submitted, Polling, 0)
    case 6 => Job(counted, [1], [Counted], Submitted, Polling, 0)
    case 7 => Job(counted, [1], [Counted], Submitted, Finishing, 0)
    case 8 => Job(cancelled, [1], [Counted], Submitted, Finishing, 0)
    case _ => Job(cancelled.(status := Completed), [1], [Counted], Submitted, Stopped, 0)
  }

  lemma OverwritingSends(i: nat)
    requires i < 4
    ensures Can(Overwriting(i), OverwritingRun()[i]) && Do(Overwriting(i), OverwritingRun()[i]) == Overwriting(i + 1)
  {
  }

  lemma OverwritingCounts(i: nat)
    requires 4 <= i < 9
    ensures Can(Overwriting(i), OverwritingRun()[i]) && Do(Overwriting(i), OverwritingRun()[i]) == Overwriting(i + 1)
  {
    assert Sum([1]) == 1 by { assert [1][..0] == []; }
  }

  lemma OverwritingStep(i: nat)
    requires i < 9
    ensures Can(Overwriting(i), OverwritingRun()[i]) && Do(Overwriting(i), OverwritingRun()[i]) == Overwriting(i + 1)
  {
    if i < 4 { OverwritingSends(i); } else { OverwritingCounts(i); }
  }

  lemma {:induction false} OverwritingFrom(i: nat, end: nat)
    requires i <= end <= 9
    ensures Plays(Overwriting(i), OverwritingRun()[i..end])
    ensures Played(Overwriting(i), OverwritingRun()[i..end]) == Overwriting(end)
    decreases end - i
  {
    if i < end {
      OverwritingStep(i);
      OverwritingFrom(i + 1, end);
      assert OverwritingRun()[i..end][1..] == OverwritingRun()[i + 1..end];
    }
  }

  lemma OverwritingStarts()
    ensures Fresh(Overwriting(0))
  {
    assert Sum([1]) == 1 by { assert [1][..0] == []; }
  }

  lemma OverwritingPrefix(n: nat, ms: seq<Move>)
    requires n <= 9 && ms == OverwritingRun()[..n]
    ensures Plays(Overwriting(0), ms) && Played(Overwriting(0), ms) == Overwriting(n)
  {
    OverwritingFrom(0, n);
    assert OverwritingRun()[0..n] == ms;
  }

  /** A job seen cancelled can be completed later. */
  lemma CancelledJobBecomesCompleted(before: seq<Move>, all: seq<Move>)
    requires before == OverwritingRun()[..8] && all == OverwritingRun()[..9]
    ensures before <= all && Fresh(Overwriting(0))
    ensures Plays(Overwriting(0), before) && Played(Overwriting(0), before).row.status.Cancelled?
    ensures Plays(Overwriting(0), all) && Played(Overwriting(0), all).row.status.Completed?
  {
    OverwritingStarts();
    OverwritingPrefix(8, before);
    OverwritingPrefix(9, all);
  }
}
