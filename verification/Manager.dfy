/** Submit and Requeue of internal/jobs/manager.go over the worker pool's queue. */
module Manager {
  import opened Bytes
  import JobRow
  import JobProtocol
  import Results

  type JobId = nat

  datatype Task = Task(job: JobId, emails: seq<Text>)

  // The bounded channel of internal/workers/pool.go: first in, first out.
  class Pool {
    const capacity: nat
    var queue: seq<Task>
    // Every task ever accepted; those no worker has taken yet are in the queue.
    ghost var history: seq<Task>

    ghost predicate Valid()
      reads this
    {
      0 < capacity && |queue| <= capacity && |queue| <= |history| && queue == history[|history| - |queue|..]
    }

    // What is left of n tasks when the workers take some, at least one if the sender needs room.
    function Left(n: nat, taken: nat, full: bool): (left: nat)
      ensures left <= n && (full && n > 0 ==> left < n) && (!full && taken == 0 ==> left == n)
    {
      var gone := if full && taken == 0 then 1 else taken;
      if gone > n then 0 else n - gone
    }

    constructor (queueBuf: int)
      ensures Valid() && queue == history == []
      ensures capacity == if queueBuf <= 0 then 1024 else queueBuf
    {
      capacity := if queueBuf <= 0 then 1024 else queueBuf;
      queue, history := [], [];
    }

    // cancelled: the select took ctx.Done().  While the sender is at it the workers take `taken`
    // tasks; a send to a full channel waits for one more.
    method Submit(t: Task, cancelled: bool, taken: nat) returns (ok: bool)
      requires Valid()
      modifies this
      ensures Valid() && (ok <==> !cancelled)
      ensures history == if ok then old(history) + [t] else old(history)
      ensures ok ==> queue != [] && queue[|queue| - 1] == t
      ensures var gone := if ok && |old(queue)| == capacity && taken == 0 then 1 else taken;
        |queue| == (if gone >= |old(queue)| then 0 else |old(queue)| - gone) + if ok then 1 else 0
    {
      queue := queue[|queue| - Left(|queue|, taken, !cancelled && |queue| == capacity)..];
      if cancelled {
        return false;
      }
      queue, history := queue + [t], history + [t];
      return true;
    }

    // One worker takes the oldest task, or finds none.
    method Take() returns (t: Option<Task>)
      requires Valid()
      modifies this
      ensures Valid() && history == old(history)
      ensures old(queue) == [] ==> t == None && queue == []
      ensures old(queue) != [] ==> t == Some(old(queue)[0]) && queue == old(queue)[1..]
    {
      if queue == [] {
        return None;
      }
      t := Some(queue[0]);
      queue := queue[1..];
    }
  }

  // ---------- the batches ----------

  function EndOf(emails: seq<Text>, i: nat, size: nat): nat {
    if i + size > |emails| then |emails| else i + size
  }

  // The batches cut from position i on.
  function BatchesFrom(emails: seq<Text>, i: nat, size: nat): seq<seq<Text>>
    requires size > 0
    decreases |emails| - i
  {
    if i >= |emails| then [] else [emails[i..EndOf(emails, i, size)]] + BatchesFrom(emails, i + size, size)
  }

  function Batches(emails: seq<Text>, size: nat): seq<seq<Text>>
    requires size > 0
  {
    BatchesFrom(emails, 0, size)
  }

  function Joined<T>(batches: seq<seq<T>>): seq<T> {
    if batches == [] then [] else batches[0] + Joined(batches[1..])
  }

  function Sizes(batches: seq<seq<Text>>): (r: seq<nat>)
    ensures |r| == |batches| && forall i :: 0 <= i < |batches| ==> r[i] == |batches[i]|
  {
    seq(|batches|, i requires 0 <= i < |batches| => |batches[i]|)
  }

  lemma JoinedCons<T>(b: seq<T>, bs: seq<seq<T>>)
    ensures Joined([b] + bs) == b + Joined(bs)
  {
    assert ([b] + bs)[1..] == bs;
  }

  lemma {:induction false} JoinedFrom(emails: seq<Text>, i: nat, size: nat)
    requires size > 0 && i <= |emails|
    ensures Joined(BatchesFrom(emails, i, size)) == emails[i..]
    decreases |emails| - i
  {
    if i < |emails| {
      var end := EndOf(emails, i, size);
      assert BatchesFrom(emails, i + size, size) == BatchesFrom(emails, end, size);
      JoinedFrom(emails, end, size);
      JoinedCons(emails[i..end], BatchesFrom(emails, end, size));
      assert emails[i..] == emails[i..end] + emails[end..];
    }
  }

  /** The batches partition the e-mails in order. */
  lemma BatchesPartition(emails: seq<Text>, size: nat)
    requires size > 0
    ensures Joined(Batches(emails, size)) == emails
  {
    JoinedFrom(emails, 0, size);
  }

  /** None is empty, and all but the last are full. */
  lemma {:induction false} BatchesAreFull(emails: seq<Text>, i: nat, size: nat, k: nat)
    requires size > 0 && k < |BatchesFrom(emails, i, size)|
    ensures 0 < |BatchesFrom(emails, i, size)[k]| <= size
    ensures k < |BatchesFrom(emails, i, size)| - 1 ==> |BatchesFrom(emails, i, size)[k]| == size
    decreases k
  {
    if k > 0 {
      BatchesAreFull(emails, i + size, size, k - 1);
    }
  }

  /** And as few as possible. */
  lemma {:induction false} BatchesAreFewest(emails: seq<Text>, i: nat, size: nat)
    requires size > 0 && i < |emails| + size
    ensures |emails| - i <= |BatchesFrom(emails, i, size)| * size < |emails| - i + size
    decreases |emails| - i
  {
    if i < |emails| {
      BatchesAreFewest(emails, i + size, size);
      var m := |BatchesFrom(emails, i + size, size)|;
      assert (m + 1) * size == m * size + size;
    }
  }

  lemma {:induction false} SumFromLeft(xs: seq<nat>)
    requires xs != []
    ensures JobProtocol.Sum(xs) == xs[0] + JobProtocol.Sum(xs[1..])
    decreases |xs|
  {
    if |xs| > 1 {
      SumFromLeft(xs[..|xs| - 1]);
      assert xs[..|xs| - 1][1..] == xs[1..][..|xs| - 2];
    }
  }

  lemma {:induction false} SizesSum(batches: seq<seq<Text>>)
    ensures JobProtocol.Sum(Sizes(batches)) == |Joined(batches)|
    decreases |batches|
  {
    if batches != [] {
      SizesSum(batches[1..]);
      SumFromLeft(Sizes(batches));
      assert Sizes(batches)[1..] == Sizes(batches[1..]);
    }
  }

  /** A job created with total = number of e-mails and cut into these batches is a fresh job of
      the protocol, so conservation and completion hold of it. */
  lemma SubmittedJobIsFresh(emails: seq<Text>, size: nat, now: int)
    requires size > 0
    ensures var sizes := Sizes(Batches(emails, size));
      JobProtocol.Fresh(JobProtocol.Job(JobRow.Created(|emails|, now), sizes,
        seq(|sizes|, _ => JobProtocol.Unsent), JobProtocol.NotStarted, JobProtocol.Off, now))
  {
    BatchesPartition(emails, size);
    SizesSum(Batches(emails, size));
    forall k | 0 <= k < |Batches(emails, size)| ensures |Batches(emails, size)[k]| > 0 {
      BatchesAreFull(emails, 0, size, k);
    }
  }

  function Tasks(job: JobId, bs: seq<seq<Text>>): (r: seq<Task>)
    ensures |r| == |bs| && forall k :: 0 <= k < |bs| ==> r[k] == Task(job, bs[k])
  {
    if bs == [] then [] else Tasks(job, bs[..|bs| - 1]) + [Task(job, bs[|bs| - 1])]
  }

  lemma TasksCons(job: JobId, b: seq<Text>, bs: seq<seq<Text>>)
    ensures Tasks(job, [b] + bs) == [Task(job, b)] + Tasks(job, bs)
  {
  }

  // The task of the batch that starts at i, and the tasks of all batches from there on.
  function TaskAt(job: JobId, emails: seq<Text>, i: nat, size: nat): Task
    requires i < |emails|
  {
    Task(job, emails[i..EndOf(emails, i, size)])
  }

  function TasksFrom(job: JobId, emails: seq<Text>, i: nat, size: nat): seq<Task>
    requires size > 0
    decreases |emails| - i
  {
    if i >= |emails| then [] else [TaskAt(job, emails, i, size)] + TasksFrom(job, emails, i + size, size)
  }

  lemma {:induction false} TasksFromIs(job: JobId, emails: seq<Text>, i: nat, size: nat)
    requires size > 0
    ensures TasksFrom(job, emails, i, size) == Tasks(job, BatchesFrom(emails, i, size))
    decreases |emails| - i
  {
    if i < |emails| {
      TasksFromIs(job, emails, i + size, size);
      TasksCons(job, emails[i..EndOf(emails, i, size)], BatchesFrom(emails, i + size, size));
    }
  }

  // sent tasks of all were accepted after those before, the ones cut from position i on are to come.
  ghost predicate Sending(accepted: seq<Task>, before: seq<Task>, all: seq<Task>, job: JobId, emails: seq<Text>, i: nat,
                          size: nat, sent: nat)
    requires size > 0
  {
    accepted + TasksFrom(job, emails, i, size) == before + all && |accepted| == |before| + sent
  }

  lemma SendingNext(accepted: seq<Task>, before: seq<Task>, all: seq<Task>, job: JobId, emails: seq<Text>, i: nat,
                    size: nat, sent: nat)
    requires size > 0 && i < |emails| && Sending(accepted, before, all, job, emails, i, size, sent)
    ensures Sending(accepted + [TaskAt(job, emails, i, size)], before, all, job, emails, i + size, size, sent + 1)
  {
    var t, rest := TaskAt(job, emails, i, size), TasksFrom(job, emails, i + size, size);
    assert accepted + ([t] + rest) == (accepted + [t]) + rest;
  }

  lemma SendingSoFar(accepted: seq<Task>, before: seq<Task>, all: seq<Task>, job: JobId, emails: seq<Text>, i: nat,
                     size: nat, sent: nat)
    requires size > 0 && Sending(accepted, before, all, job, emails, i, size, sent)
    ensures sent <= |all| && accepted == before + all[..sent] && (sent == |all| <==> i >= |emails|)
  {
    var rest := TasksFrom(job, emails, i, size);
    assert (accepted + rest)[..|accepted|] == (before + all)[..|accepted|];
  }

  // Batch by batch, or all at once.
  lemma {:induction false} JoinedItems(itemss: seq<seq<Results.Item>>, job: JobId, bs: seq<seq<Text>>,
                                       normal: Text -> Text)
    requires |itemss| == |bs| && forall k :: 0 <= k < |bs| ==> Results.ItemsFor(itemss[k], job, bs[k], normal)
    ensures Results.ItemsFor(Joined(itemss), job, Joined(bs), normal)
    decreases |bs|
  {
    if bs != [] {
      JoinedItems(itemss[1..], job, bs[1..], normal);
      var here, rest := itemss[0], Joined(itemss[1..]);
      assert Results.ItemsFor(here, job, bs[0], normal) && Results.ItemsFor(rest, job, Joined(bs[1..]), normal);
      assert Joined(itemss) == here + rest && Joined(bs) == bs[0] + Joined(bs[1..]);
    }
  }

  /** Re-queueing, end to end: the stored originals cut into batches, every batch handled and
      committed (in any order, among any commits of other jobs), give the new job as many rows as
      its source, under the same keys. */
  lemma RequeuedJobMatchesItsSource(tables: seq<seq<Results.Stored>>, commits: seq<seq<Results.Item>>,
                                    itemss: seq<seq<Results.Item>>, src: JobId, job: JobId, size: nat,
                                    normal: Text -> Text)
    requires size > 0 && Results.Committed(tables, commits)
    requires forall r :: r in tables[0] ==> r.item.job != job
    requires forall r :: r in Results.OfJob(tables[0], src) ==> Results.NormalizedBy(r.item, normal)
    requires var bs := Batches(Results.Originals(Results.OfJob(tables[0], src)), size);
      |itemss| == |bs| && forall k :: 0 <= k < |bs| ==> Results.ItemsFor(itemss[k], job, bs[k], normal)
    requires Results.CommitsOf(commits, job, Joined(itemss))
    ensures var source, target := Results.OfJob(tables[0], src), Results.OfJob(tables[|commits|], job);
      |target| == |source| && Results.Keys(target) == Results.Moved(Results.Keys(source), job)
  {
    var originals := Results.Originals(Results.OfJob(tables[0], src));
    JoinedItems(itemss, job, Batches(originals, size), normal);
    BatchesPartition(originals, size);
    Results.RequeuePreservesResults(tables, commits, Joined(itemss), src, job, normal);
  }

  datatype SubmitResult = Accepted | StatusError | QueueError(sent: nat)

  class Manager {
    const jobs: JobRow.JobsRepo
    const results: Results.ResultsRepo
    const pool: Pool
    const batchSize: nat

    constructor (jobs: JobRow.JobsRepo, results: Results.ResultsRepo, pool: Pool, batchSize: int)
      ensures this.jobs == jobs && this.results == results && this.pool == pool
      ensures this.batchSize == if batchSize <= 0 then 1000 else batchSize
    {
      this.jobs, this.results, this.pool := jobs, results, pool;
      this.batchSize := if batchSize <= 0 then 1000 else batchSize;
    }

    // The batch that starts at i.
    method SendOne(id: JobId, emails: seq<Text>, i: nat, cancelled: bool, taken: nat) returns (ok: bool)
      requires pool.Valid() && i < |emails|
      modifies pool
      ensures pool.Valid() && (ok <==> !cancelled)
      ensures pool.history ==
        if ok then old(pool.history) + [TaskAt(id, emails, i, batchSize)] else old(pool.history)
    {
      var end := i + batchSize;
      if end > |emails| {
        end := |emails|;
      }
      ok := pool.Submit(Task(id, emails[i..end]), cancelled, taken);
    }

    // The sending loop. cancelledAt(n): the context is done when the n-th task is sent; taken(n):
    // what the workers take meanwhile.
    method SendAll(id: JobId, emails: seq<Text>, cancelledAt: nat -> bool, taken: nat -> nat,
                   ghost before: seq<Task>, ghost all: seq<Task>)
      returns (sent: nat, i: nat, ok: bool)
      requires batchSize > 0 && pool.Valid() && Sending(pool.history, before, all, id, emails, 0, batchSize, 0)
      modifies pool
      ensures pool.Valid() && Sending(pool.history, before, all, id, emails, i, batchSize, sent)
      ensures if ok then i >= |emails| else i < |emails| && cancelledAt(sent)
      ensures forall n :: 0 <= n < sent ==> !cancelledAt(n)
    {
      i, sent, ok := 0, 0, true;
      while i < |emails| && ok
        invariant pool.Valid() && Sending(pool.history, before, all, id, emails, i, batchSize, sent)
        invariant !ok ==> cancelledAt(sent) && i < |emails|
        invariant forall n :: 0 <= n < sent ==> !cancelledAt(n)
        decreases |emails| - i, ok
      {
        SendingNext(pool.history, before, all, id, emails, i, batchSize, sent);
        ok := SendOne(id, emails, i, cancelledAt(sent), taken(sent));
        if ok {
          i := i + batchSize;
          sent := sent + 1;
        }
      }
    }

    method Enqueue(id: JobId, emails: seq<Text>, cancelledAt: nat -> bool, taken: nat -> nat)
      returns (sent: nat, ok: bool)
      requires batchSize > 0 && pool.Valid()
      modifies pool
      ensures pool.Valid()
      ensures var all := Tasks(id, Batches(emails, batchSize));
        && sent <= |all| && pool.history == old(pool.history) + all[..sent]
        && (ok <==> sent == |all|) && (!ok ==> cancelledAt(sent))
      ensures forall n :: 0 <= n < sent ==> !cancelledAt(n)
    {
      ghost var before, all := pool.history, Tasks(id, Batches(emails, batchSize));
      TasksFromIs(id, emails, 0, batchSize);
      var i;
      sent, i, ok := SendAll(id, emails, cancelledAt, taken, before, all);
      SendingSoFar(pool.history, before, all, id, emails, i, batchSize, sent);
    }

    method Submit(id: JobId, emails: seq<Text>, now: int, cancelledAt: nat -> bool, taken: nat -> nat)
      returns (r: SubmitResult)
      requires batchSize > 0 && pool.Valid()
      modifies jobs, pool
      ensures pool.Valid()
      ensures jobs.rows == if id in old(jobs.rows)
        then old(jobs.rows)[id := JobRow.Execute(old(jobs.rows)[id], JobRow.UpdateStatus(JobRow.Running), now)]
        else old(jobs.rows)
      ensures r.StatusError? <==>
        id in old(jobs.rows) && JobRow.Rejected(old(jobs.rows)[id], JobRow.UpdateStatus(JobRow.Running), now)
      // a job that may start is running, and no other row has changed
      ensures id in old(jobs.rows) && !r.StatusError? ==>
        jobs.rows[id].status == JobRow.Running && jobs.rows[id].total == old(jobs.rows)[id].total
      ensures jobs.rows - {id} == old(jobs.rows) - {id}
      ensures var all := Tasks(id, Batches(emails, batchSize));
        && (r.StatusError? ==> pool.history == old(pool.history))
        && (r.Accepted? ==> pool.history == old(pool.history) + all)
        && (r.QueueError? ==>
              r.sent < |all| && cancelledAt(r.sent) && pool.history == old(pool.history) + all[..r.sent])
      // the first send under an ended context is the one that fails
      ensures r.QueueError? ==> forall n :: 0 <= n < r.sent ==> !cancelledAt(n)
      ensures r.Accepted? ==> forall n :: 0 <= n < |Batches(emails, batchSize)| ==> !cancelledAt(n)
    {
      var ok := jobs.Update(id, JobRow.UpdateStatus(JobRow.Running), now);
      if !ok {
        return StatusError;
      }
      var sent;
      sent, ok := Enqueue(id, emails, cancelledAt, taken);
      if !ok {
        return QueueError(sent);
      }
      ghost var all := Tasks(id, Batches(emails, batchSize));
      assert all[..|all|] == all && |all| == |Batches(emails, batchSize)|;
      return Accepted;
    }

    // src exists and holds results, or nothing happens; the database issues newId.
    method Requeue(src: JobId, newId: JobId, now: int, cancelledAt: nat -> bool, taken: nat -> nat)
      returns (r: Option<SubmitResult>)
      requires batchSize > 0 && pool.Valid() && newId !in jobs.rows
      modifies jobs, pool
      ensures pool.Valid()
      ensures r == None <==> src !in old(jobs.rows) || results.ListOriginalsByJob(src) == []
      ensures r == None ==> jobs.rows == old(jobs.rows) && pool.history == old(pool.history)
      ensures r != None ==>
        var emails := results.ListOriginalsByJob(src);
        && r.value != StatusError
        // the new row in full, and the others as they were
        && jobs.rows == old(jobs.rows)[newId :=
             JobRow.Row(JobRow.Running, |emails|, JobRow.Delta(0, 0, 0, 0, 0, 0), now, Some(now), None)]
        && var all := Tasks(newId, Batches(emails, batchSize));
           && (r.value.Accepted? ==> pool.history == old(pool.history) + all)
           && (r.value.QueueError? ==> r.value.sent < |all| && pool.history == old(pool.history) + all[..r.value.sent])
      // the whole job is queued unless the context ends first, and then up to that very send
      ensures r != None && r.value.QueueError? ==>
        cancelledAt(r.value.sent) && forall n :: 0 <= n < r.value.sent ==> !cancelledAt(n)
      ensures r != None && (forall n :: !cancelledAt(n)) ==> r.value.Accepted?
      ensures r != None && r.value.Accepted? ==>
        forall n :: 0 <= n < |Batches(results.ListOriginalsByJob(src), batchSize)| ==> !cancelledAt(n)
    {
      if src !in jobs.rows {
        return None;
      }
      var emails := results.ListOriginalsByJob(src);
      if |emails| == 0 {
        return None;
      }
      var row := jobs.Create(newId, |emails|, now);
      var sub := Submit(newId, emails, now, cancelledAt, taken);
      return Some(sub);
    }
  }

  // ---------- Submit inside the job protocol ----------

  // n sends and then the rest.
  function Sends(n: nat, rest: seq<JobProtocol.Move>): seq<JobProtocol.Move> {
    if n == 0 then rest else [JobProtocol.Enqueue] + Sends(n - 1, rest)
  }

  // The moves of one call, for a job of n batches.
  function Moves(r: SubmitResult, n: nat): seq<JobProtocol.Move> {
    match r
    case StatusError => [JobProtocol.Begin(false)] + []
    case QueueError(sent) => [JobProtocol.Begin(false)] + Sends(sent, [JobProtocol.EnqueueFails] + [])
    case Accepted => [JobProtocol.Begin(false)] + Sends(n, [JobProtocol.LaunchTracker] + [])
  }

  function SentBy(r: SubmitResult, n: nat): nat {
    match r case StatusError => 0 case QueueError(sent) => sent case Accepted => n
  }

  // j with n more batches in the queue.
  function AfterSends(j: JobProtocol.Job, n: nat): JobProtocol.Job
    requires j.submission.Sending? && j.submission.next + n <= |j.batches|
    decreases n
  {
    if n == 0 then j else AfterSends(JobProtocol.Do(j, JobProtocol.Enqueue), n - 1)
  }

  lemma {:induction false} AfterSendsIs(j: JobProtocol.Job, n: nat)
    requires j.submission.Sending? && j.submission.next + n <= |j.batches|
    ensures var t := AfterSends(j, n);
      && t.row == j.row && t.submission == JobProtocol.Sending(j.submission.next + n) && |t.batches| == |j.batches|
      && forall i :: 0 <= i < |j.batches| ==>
           t.batches[i] == if j.submission.next <= i < j.submission.next + n then JobProtocol.Queued else j.batches[i]
    decreases n
  {
    if n > 0 { AfterSendsIs(JobProtocol.Do(j, JobProtocol.Enqueue), n - 1); }
  }

  lemma {:induction false} SendsPlay(j: JobProtocol.Job, n: nat, rest: seq<JobProtocol.Move>)
    requires j.submission.Sending? && j.submission.next + n <= |j.batches|
    requires JobProtocol.Plays(AfterSends(j, n), rest)
    ensures JobProtocol.Plays(j, Sends(n, rest))
    ensures JobProtocol.Played(j, Sends(n, rest)) == JobProtocol.Played(AfterSends(j, n), rest)
    decreases n
  {
    if n > 0 {
      SendsPlay(JobProtocol.Do(j, JobProtocol.Enqueue), n - 1, rest);
      JobProtocol.PlaysCons(j, JobProtocol.Enqueue, Sends(n - 1, rest));
    }
  }

  // The batches of t are those of j, the first n of them queued.
  predicate QueuedUpTo(j: JobProtocol.Job, t: JobProtocol.Job, n: nat) {
    && |t.batches| == |j.batches|
    && forall i :: 0 <= i < |j.batches| ==> t.batches[i] == if i < n then JobProtocol.Queued else j.batches[i]
  }

  // From the start to the last move of a request whose first statement was accepted.
  lemma SendingPlays(j: JobProtocol.Job, n: nat, last: JobProtocol.Move)
    requires j.submission.NotStarted? && n <= |j.batches|
    requires !JobRow.Rejected(j.row, JobRow.UpdateStatus(JobRow.Running), j.now)
    requires if n < |j.batches| then last.EnqueueFails? else last.LaunchTracker?
    ensures var ms := [JobProtocol.Begin(false)] + Sends(n, [last] + []);
      && JobProtocol.Plays(j, ms)
      && JobProtocol.Played(j, ms).row == JobRow.Execute(j.row, JobRow.UpdateStatus(JobRow.Running), j.now)
      && QueuedUpTo(j, JobProtocol.Played(j, ms), n)
  {
    var begun := JobProtocol.Do(j, JobProtocol.Begin(false));
    AfterSendsIs(begun, n);
    JobProtocol.PlaysCons(AfterSends(begun, n), last, []);
    SendsPlay(begun, n, [last] + []);
    JobProtocol.PlaysCons(j, JobProtocol.Begin(false), Sends(n, [last] + []));
  }

  /** Every outcome of Submit is a play of the protocol that leaves the row Submit leaves, with
      exactly the batches it sent in the queue. */
  lemma SubmitIsMoves(j: JobProtocol.Job, r: SubmitResult)
    requires j.submission.NotStarted?
    requires r.StatusError? <==> JobRow.Rejected(j.row, JobRow.UpdateStatus(JobRow.Running), j.now)
    requires r.QueueError? ==> r.sent < |j.batches|
    ensures var ms := Moves(r, |j.batches|);
      && JobProtocol.Plays(j, ms)
      && JobProtocol.Played(j, ms).row == JobRow.Execute(j.row, JobRow.UpdateStatus(JobRow.Running), j.now)
      && QueuedUpTo(j, JobProtocol.Played(j, ms), SentBy(r, |j.batches|))
  {
    match r {
      case StatusError => JobProtocol.PlaysCons(j, JobProtocol.Begin(false), []);
      case QueueError(sent) => SendingPlays(j, sent, JobProtocol.EnqueueFails);
      case Accepted => SendingPlays(j, |j.batches|, JobProtocol.LaunchTracker);
    }
  }
}
