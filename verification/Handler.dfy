/** The task handler of internal/jobs/handler.go: one batch validated, stored and counted. */
module Handler {
  import opened Bytes
  import opened Addresses
  import opened Mail
  import opened Validation
  import JobRow
  import JobProtocol
  import Results

  // ---------- phase two: every e-mail decided ----------

  predicate Decided(sv: Services, c: Scoring, raw: Text, m: Letter) {
    m == Validated(sv, c, raw) && m.original == raw && m.status == Some(Verdict(sv, c, raw))
  }

  // One e-mail; a context found dead before a stage ends the batch.
  method Decide(sv: Services, c: Scoring, raw: Text, aliveAt: nat -> bool) returns (e: Email, ok: bool)
    requires LookupsAreSound(sv)
    ensures fresh(e)
    ensures ok ==> Decided(sv, c, raw, e.View())
    ensures ok <==> LiveFor(sv, raw, aliveAt)
  {
    e, ok := Validate(sv, c, raw, aliveAt);
    if ok { PipelineDecides(sv, c, raw); }
  }

  // The services as each e-mail of the batch finds them: one domain may be looked up twice with
  // different outcomes, but text handling is the same throughout.
  ghost predicate Serve(svs: seq<Services>, w: World, raws: seq<Text>) {
    |svs| == |raws| && forall k :: 0 <= k < |svs| ==> svs[k].world == w && LookupsAreSound(svs[k])
  }

  predicate AllDecided(svs: seq<Services>, c: Scoring, raws: seq<Text>, letters: seq<Letter>) {
    |letters| <= |raws| && |letters| <= |svs|
    && forall i :: 0 <= i < |letters| ==> Decided(svs[i], c, raws[i], letters[i])
  }

  predicate Ruled(sv: Services, c: Scoring, raw: Text, v: Status) { v == Verdict(sv, c, raw) }

  // The decisions, e-mail by e-mail.
  predicate Verdicts(svs: seq<Services>, c: Scoring, raws: seq<Text>, verdicts: seq<Status>) {
    |verdicts| <= |raws| && |verdicts| <= |svs|
    && forall i :: 0 <= i < |verdicts| ==> Ruled(svs[i], c, raws[i], verdicts[i])
  }

  lemma OneMoreDecided(svs: seq<Services>, c: Scoring, raws: seq<Text>, letters: seq<Letter>, m: Letter)
    requires |letters| < |raws| && |letters| < |svs| && AllDecided(svs, c, raws, letters)
    requires Decided(svs[|letters|], c, raws[|letters|], m)
    ensures AllDecided(svs, c, raws, letters + [m])
  {
    forall i | 0 <= i < |letters| + 1 ensures Decided(svs[i], c, raws[i], (letters + [m])[i]) {
      if i < |letters| { assert Decided(svs[i], c, raws[i], letters[i]); }
    }
  }

  lemma OneMoreVerdict(svs: seq<Services>, c: Scoring, raws: seq<Text>, verdicts: seq<Status>, v: Status)
    requires |verdicts| < |raws| && |verdicts| < |svs| && Verdicts(svs, c, raws, verdicts)
    requires Ruled(svs[|verdicts|], c, raws[|verdicts|], v)
    ensures Verdicts(svs, c, raws, verdicts + [v])
  {
    forall i | 0 <= i < |verdicts| + 1 ensures Ruled(svs[i], c, raws[i], (verdicts + [v])[i]) {
      if i < |verdicts| { assert Ruled(svs[i], c, raws[i], verdicts[i]); }
    }
  }

  // The letters bear these statuses.
  predicate Carries(letters: seq<Letter>, verdicts: seq<Status>) {
    |letters| == |verdicts| && forall k :: 0 <= k < |letters| ==> letters[k].status == Some(verdicts[k])
  }

  // The context is live before every stage of the first n e-mails.
  predicate FirstLive(svs: seq<Services>, raws: seq<Text>, alive: nat -> nat -> bool, n: nat)
    requires n <= |svs| && n <= |raws|
  {
    forall k :: 0 <= k < n ==> LiveFor(svs[k], raws[k], alive(k))
  }

  predicate AllLive(svs: seq<Services>, raws: seq<Text>, alive: nat -> nat -> bool)
    requires |svs| == |raws|
  {
    FirstLive(svs, raws, alive, |raws|)
  }

  // The first e-mails are decided, and these are their statuses.
  predicate DecidedSoFar(svs: seq<Services>, c: Scoring, raws: seq<Text>, letters: seq<Letter>, verdicts: seq<Status>) {
    AllDecided(svs, c, raws, letters) && Verdicts(svs, c, raws, verdicts) && Carries(letters, verdicts)
  }

  lemma OneMore(svs: seq<Services>, c: Scoring, raws: seq<Text>, letters: seq<Letter>, verdicts: seq<Status>, m: Letter)
    requires |letters| < |raws| && |letters| < |svs| && DecidedSoFar(svs, c, raws, letters, verdicts)
    requires Decided(svs[|letters|], c, raws[|letters|], m)
    ensures DecidedSoFar(svs, c, raws, letters + [m], verdicts + [m.status.value])
  {
    OneMoreDecided(svs, c, raws, letters, m);
    OneMoreVerdict(svs, c, raws, verdicts, m.status.value);
  }

  lemma OneMoreLive(svs: seq<Services>, raws: seq<Text>, alive: nat -> nat -> bool, n: nat)
    requires n < |svs| && n < |raws| && FirstLive(svs, raws, alive, n) && LiveFor(svs[n], raws[n], alive(n))
    ensures FirstLive(svs, raws, alive, n + 1)
  {
  }

  // Every e-mail, or the batch ends.
  method DecideAll(svs: seq<Services>, ghost w: World, c: Scoring, raws: seq<Text>, alive: nat -> nat -> bool)
    returns (letters: seq<Letter>, ok: bool, ghost verdicts: seq<Status>)
    requires Serve(svs, w, raws)
    ensures ok <==> AllLive(svs, raws, alive)
    ensures ok ==> |letters| == |raws| && AllDecided(svs, c, raws, letters)
    ensures ok ==> Verdicts(svs, c, raws, verdicts) && Carries(letters, verdicts)
  {
    letters, verdicts := [], [];
    for k := 0 to |raws|
      invariant |letters| == k && DecidedSoFar(svs, c, raws, letters, verdicts) && FirstLive(svs, raws, alive, k)
    {
      var e;
      e, ok := Decide(svs[k], c, raws[k], alive(k));
      if !ok {
        return;
      }
      OneMore(svs, c, raws, letters, verdicts, e.View());
      OneMoreLive(svs, raws, alive, k);
      verdicts := verdicts + [e.status.value];
      letters := letters + [e.View()];
    }
    ok := true;
  }

  // ---------- phase three: records and counters ----------

  function ItemFor(job: Results.JobId, m: Letter): Results.Item {
    Results.Item(job, m.original, if m.form.normalized != [] then m.form.normalized else m.original, m.form.local,
                 m.form.domain, m.status, m.tag.classification, m.score,
                 if m.marks.suggested != [] then Some(m.marks.suggested) else None,
                 m.marks.isDisposable, m.marks.isRole, m.dns.hasMX, m.log.reasons)
  }

  // The counters say how often each status occurs.
  predicate Counts(delta: JobRow.Delta, statuses: multiset<Status>) {
    && delta.valid == statuses[Valid] && delta.invalid == statuses[Invalid] && delta.risky == statuses[Risky]
    && delta.unknown == statuses[Unknown] && delta.disposable == statuses[Disposable]
    && JobProtocol.Tallied(delta) == |statuses|
  }

  // One turn of the counting switch; an open status is counted nowhere.
  method CountOne(delta: JobRow.Delta, status: Option<Status>, ghost sofar: multiset<Status>)
    returns (next: JobRow.Delta)
    requires Counts(delta, sofar)
    ensures next.processed == delta.processed
    ensures status.None? ==> next == delta
    ensures status.Some? ==> Counts(next, sofar + multiset{status.value})
  {
    match status {
      case Some(Valid) => next := delta.(valid := delta.valid + 1);
      case Some(Invalid) => next := delta.(invalid := delta.invalid + 1);
      case Some(Risky) => next := delta.(risky := delta.risky + 1);
      case Some(Unknown) => next := delta.(unknown := delta.unknown + 1);
      case Some(Disposable) => next := delta.(disposable := delta.disposable + 1);
      case None => next := delta;
    }
  }

  predicate Records(items: seq<Results.Item>, job: Results.JobId, letters: seq<Letter>) {
    |items| == |letters| && forall k :: 0 <= k < |letters| ==> items[k] == ItemFor(job, letters[k])
  }

  lemma OneMoreRecord(items: seq<Results.Item>, job: Results.JobId, letters: seq<Letter>, i: nat)
    requires i < |letters| && Records(items, job, letters[..i])
    ensures Records(items + [ItemFor(job, letters[i])], job, letters[..i + 1])
  {
  }

  lemma OneMoreStatus(statuses: seq<Status>, i: nat)
    requires i < |statuses|
    ensures multiset(statuses[..i + 1]) == multiset(statuses[..i]) + multiset{statuses[i]}
  {
    assert statuses[..i + 1] == statuses[..i] + [statuses[i]];
  }

  method Collect(job: Results.JobId, letters: seq<Letter>, ghost statuses: seq<Status>)
    returns (items: seq<Results.Item>, delta: JobRow.Delta)
    requires Carries(letters, statuses)
    ensures Records(items, job, letters)
    ensures delta.processed == |letters| && Counts(delta, multiset(statuses))
    ensures var of := multiset(statuses);
      delta == JobRow.Delta(|letters|, of[Valid], of[Invalid], of[Risky], of[Unknown], of[Disposable])
  {
    items := [];
    delta := JobRow.Delta(|letters|, 0, 0, 0, 0, 0);
    for i := 0 to |letters|
      invariant Records(items, job, letters[..i])
      invariant delta.processed == |letters| && Counts(delta, multiset(statuses[..i]))
    {
      OneMoreRecord(items, job, letters, i);
      OneMoreStatus(statuses, i);
      items := items + [ItemFor(job, letters[i])];
      delta := CountOne(delta, letters[i].status, multiset(statuses[..i]));
    }
    assert statuses[..|statuses|] == statuses && letters[..|letters|] == letters;
  }

  /** The row of an e-mail, column by column: the text as it came, the key, the parts of the form,
      the decision and its score, and what the lists and DNS said. */
  lemma RowOfEmail(sv: Services, c: Scoring, job: Results.JobId, raw: Text)
    requires LookupsAreSound(sv)
    ensures var it, m := ItemFor(job, Validated(sv, c, raw)), Expected(sv, c, raw);
      && it.job == job && it.original == raw && it.normalized == StoredText(sv.world, raw)
      && it.status == Some(Verdict(sv, c, raw)) && it.score == m.score && it.classification == m.tag.classification
      && it.local == m.form.local && it.domain == m.form.domain && it.hasMX == m.dns.hasMX
      && (it.suggested == None <==> m.marks.suggested == [])
      && (it.suggested != None ==> it.suggested.value == m.marks.suggested)
      && it.isDisposable == m.marks.isDisposable && it.isRole == m.marks.isRole && it.reasons == m.log.reasons
  {
    StoredAddressIsOfTheText(sv, c, raw);
    PipelineDecides(sv, c, raw);
    ValidatedIs(sv, c, raw);
  }

  lemma ItemIsStored(sv: Services, c: Scoring, job: Results.JobId, raw: Text, m: Letter)
    requires LookupsAreSound(sv) && Decided(sv, c, raw, m)
    ensures var it := ItemFor(job, m);
      && it == ItemFor(job, Validated(sv, c, raw))
      && it.job == job && it.original == raw && it.normalized == StoredText(sv.world, raw)
  {
    StoredAddressIsOfTheText(sv, c, raw);
  }

  // What a batch stores: the validated e-mails in order, keyed by a function of the raw text.
  ghost predicate Stores(svs: seq<Services>, w: World, c: Scoring, job: Results.JobId, raws: seq<Text>,
                         items: seq<Results.Item>) {
    && |items| == |raws| == |svs|
    && (forall k :: 0 <= k < |raws| ==> items[k] == ItemFor(job, Validated(svs[k], c, raws[k])))
    && Results.ItemsFor(items, job, raws, raw => StoredText(w, raw))
  }

  lemma ItemsAreStored(svs: seq<Services>, w: World, c: Scoring, job: Results.JobId, raws: seq<Text>,
                       letters: seq<Letter>, items: seq<Results.Item>)
    requires Serve(svs, w, raws) && |letters| == |raws| && AllDecided(svs, c, raws, letters)
    requires Records(items, job, letters)
    ensures Stores(svs, w, c, job, raws, items)
  {
    forall k | 0 <= k < |items|
      ensures items[k] == ItemFor(job, Validated(svs[k], c, raws[k]))
      ensures items[k].job == job && items[k].original == raws[k] && items[k].normalized == StoredText(w, raws[k])
    {
      ItemIsStored(svs[k], c, job, raws[k], letters[k]);
    }
  }

  // What it counts: the decisions, as many as e-mails, none unknown.
  ghost predicate Tallies(svs: seq<Services>, c: Scoring, raws: seq<Text>, verdicts: seq<Status>, delta: JobRow.Delta) {
    && |verdicts| == |raws| && Verdicts(svs, c, raws, verdicts)
    && delta.processed == |raws| == JobProtocol.Tallied(delta)
    && var of := multiset(verdicts);
       delta == JobRow.Delta(|raws|, of[Valid], of[Invalid], of[Risky], 0, of[Disposable])
  }

  lemma NoneUnknown(svs: seq<Services>, c: Scoring, raws: seq<Text>, verdicts: seq<Status>)
    requires Verdicts(svs, c, raws, verdicts)
    ensures multiset(verdicts)[Unknown] == 0
  {
    forall i | 0 <= i < |verdicts| ensures verdicts[i] != Unknown {
      assert Ruled(svs[i], c, raws[i], verdicts[i]);
      VerdictFacts(svs[i], c, raws[i]);
    }
  }

  // ---------- the handler ----------

  datatype Outcome = Aborted | InsertFailed | CountFailed | Done

  // What the database and the clock do during one batch.
  datatype Database = Database(
    insertFails: bool, pick: seq<Results.Item> -> seq<Results.Item>,  // DISTINCT ON's choice
    countFails: bool, markFails: bool, errorFails: bool,
    now: int, later: int)                                             // counting, and marking the failure

  ghost predicate Distinct(db: Database) {
    db.now <= db.later && forall items :: Results.DistinctOn(items, db.pick(items))
  }

  function Put(rows: map<JobRow.JobId, JobRow.Row>, job: JobRow.JobId, st: JobRow.Statement, now: int)
    : map<JobRow.JobId, JobRow.Row>
  {
    if job in rows then rows[job := JobRow.Execute(rows[job], st, now)] else rows
  }

  // markJobFailed: the status, and then the error text, which changes nothing else here.
  method MarkJobFailed(jobs: JobRow.JobsRepo, job: JobRow.JobId, db: Database)
    modifies jobs
    ensures jobs.rows == if db.markFails then old(jobs.rows)
                         else Put(old(jobs.rows), job, JobRow.UpdateStatus(JobRow.Status.Failed), db.later)
  {
    if db.markFails {
      return;
    }
    var ok := jobs.Update(job, JobRow.UpdateStatus(JobRow.Status.Failed), db.later);
    if ok && !db.errorFails {
      ghost var marked := jobs.rows;
      ok := jobs.Update(job, JobRow.SetLastError, db.later);
      assert job in marked ==> marked[job := marked[job]] == marked;
    }
  }

  // The job's row after the batch.
  function RowAfter(row: JobRow.Row, outcome: Outcome, delta: JobRow.Delta, db: Database): JobRow.Row {
    match outcome
    case Aborted => row
    case Done => JobRow.Execute(row, JobRow.IncrementProgress(delta), db.now)
    case _ => if db.markFails then row else JobRow.Execute(row, JobRow.UpdateStatus(JobRow.Status.Failed), db.later)
  }

  /** A batch that went through adds its counters to the row and dates it, and changes nothing else;
      one that failed to be stored or counted fails the job, if that statement works. */
  lemma RowAfterIs(row: JobRow.Row, outcome: Outcome, delta: JobRow.Delta, db: Database)
    requires JobRow.Dated(row) && (row.startedAt.Some? ==> row.startedAt.value <= db.later)
    ensures var t, n := RowAfter(row, outcome, delta, db), row.counts;
      match outcome
      case Aborted => t == row
      case Done =>
        JobRow.Rejected(row, JobRow.IncrementProgress(delta), db.now) ||
        t == row.(updatedAt := db.now, counts := JobRow.Delta(
               n.processed + delta.processed, n.valid + delta.valid, n.invalid + delta.invalid,
               n.risky + delta.risky, n.unknown + delta.unknown, n.disposable + delta.disposable))
      case _ =>
        if db.markFails then t == row
        else t == row.(status := JobRow.Status.Failed, updatedAt := db.later, finishedAt := Some(db.later))
  {
  }

  predicate Rejects(rows: map<JobRow.JobId, JobRow.Row>, job: JobRow.JobId, delta: JobRow.Delta, now: int) {
    job in rows && JobRow.Rejected(rows[job], JobRow.IncrementProgress(delta), now)
  }

  // Insert, count, and the failure of either.
  method Persist(job: JobRow.JobId, items: seq<Results.Item>, delta: JobRow.Delta, db: Database,
                 results: Results.ResultsRepo, jobs: JobRow.JobsRepo)
    returns (outcome: Outcome)
    requires results.Valid() && Distinct(db)
    modifies results, jobs
    ensures results.Valid() && !outcome.Aborted?
    ensures outcome.InsertFailed? <==> items != [] && db.insertFails
    ensures outcome.CountFailed? <==>
      !outcome.InsertFailed? && (db.countFails || Rejects(old(jobs.rows), job, delta, db.now))
    ensures outcome.InsertFailed? ==> results.rows == old(results.rows)
    ensures !outcome.InsertFailed? ==> Results.Appended(old(results.rows), items, results.rows)
    ensures jobs.rows == if job in old(jobs.rows)
      then old(jobs.rows)[job := RowAfter(old(jobs.rows)[job], outcome, delta, db)] else old(jobs.rows)
  {
    assert job in jobs.rows ==> jobs.rows[job := jobs.rows[job]] == jobs.rows;
    var inserted, ok := results.BulkInsert(items, db.pick(items), db.insertFails);
    if !ok {
      MarkJobFailed(jobs, job, db);
      return InsertFailed;
    }
    if db.countFails {
      MarkJobFailed(jobs, job, db);
      return CountFailed;
    }
    ghost var before := jobs.rows;
    ok := jobs.Update(job, JobRow.IncrementProgress(delta), db.now);
    if !ok {
      assert jobs.rows == before;
      MarkJobFailed(jobs, job, db);
      return CountFailed;
    }
    return Done;
  }

  /** One batch, from its raw addresses to the two tables.  If the context is found dead the
      batch leaves no trace; otherwise its records are exactly those of the validated e-mails and
      its counters exactly the decisions counted, and a failing insert stores nothing and counts
      nothing. */
  method HandleBatch(svs: seq<Services>, ghost w: World, c: Scoring, job: JobRow.JobId, raws: seq<Text>,
                     alive: nat -> nat -> bool, db: Database, results: Results.ResultsRepo, jobs: JobRow.JobsRepo)
    returns (outcome: Outcome, ghost items: seq<Results.Item>, ghost delta: JobRow.Delta, ghost verdicts: seq<Status>)
    requires Serve(svs, w, raws) && results.Valid() && Distinct(db)
    modifies results, jobs
    ensures results.Valid()
    ensures outcome.Aborted? <==> !AllLive(svs, raws, alive)
    ensures outcome.Aborted? ==> results.rows == old(results.rows) && jobs.rows == old(jobs.rows)
    ensures !outcome.Aborted? ==> Stores(svs, w, c, job, raws, items) && Tallies(svs, c, raws, verdicts, delta)
    ensures !outcome.Aborted? ==> (outcome.InsertFailed? <==> raws != [] && db.insertFails)
    ensures !outcome.Aborted? && !outcome.InsertFailed? ==>
      (outcome.CountFailed? <==> db.countFails || Rejects(old(jobs.rows), job, delta, db.now))
    ensures outcome.InsertFailed? ==> results.rows == old(results.rows)
    ensures outcome.CountFailed? || outcome.Done? ==> Results.Appended(old(results.rows), items, results.rows)
    ensures jobs.rows == if job in old(jobs.rows)
      then old(jobs.rows)[job := RowAfter(old(jobs.rows)[job], outcome, delta, db)] else old(jobs.rows)
  {
    items, delta := [], JobRow.Delta(0, 0, 0, 0, 0, 0);
    assert job in jobs.rows ==> jobs.rows[job := jobs.rows[job]] == jobs.rows;
    var letters, ok;
    letters, ok, verdicts := DecideAll(svs, w, c, raws, alive);
    if !ok {
      return Aborted, items, delta, verdicts;
    }
    var records, counters := Collect(job, letters, verdicts);
    ItemsAreStored(svs, w, c, job, raws, letters, records);
    NoneUnknown(svs, c, raws, verdicts);
    items, delta := records, counters;
    outcome := Persist(job, records, counters, db, results, jobs);
  }

  // ---------- the handler inside the job protocol ----------

  // The moves that mark the job failed, and those of a whole batch.
  function Marking(i: nat, db: Database): seq<JobProtocol.Move>
    requires db.now <= db.later
  {
    [JobProtocol.Wait(db.later - db.now)] + ([JobProtocol.MarkFailed(i, db.markFails)] + [])
  }

  function Moves(i: nat, outcome: Outcome, delta: JobRow.Delta, db: Database): seq<JobProtocol.Move>
    requires db.now <= db.later
  {
    match outcome
    case Aborted => [JobProtocol.Abort(i)] + []
    case Done => [JobProtocol.Store(i)] + ([JobProtocol.Count(i, delta)] + [])
    case InsertFailed => [JobProtocol.StoreFails(i)] + Marking(i, db)
    case CountFailed => [JobProtocol.Store(i)] + ([JobProtocol.CountFails(i)] + Marking(i, db))
  }

  /** What HandleBatch guarantees of its counters is what the protocol asks of a counting move. */
  lemma DeltaEnablesCount(j: JobProtocol.Job, i: nat, svs: seq<Services>, c: Scoring, raws: seq<Text>,
                          verdicts: seq<Status>, delta: JobRow.Delta)
    requires JobProtocol.At(j, i, JobProtocol.Stored) && i < |j.sizes| && j.sizes[i] == |raws|
    ensures Tallies(svs, c, raws, verdicts, delta) ==> JobProtocol.Can(j, JobProtocol.Count(i, delta))
  {
  }

  // The batch at position i, being worked on at the time of counting.
  predicate AtWork(j: JobProtocol.Job, i: nat, db: Database) {
    JobProtocol.At(j, i, JobProtocol.Working) && |j.sizes| == |j.batches| && j.now == db.now <= db.later
  }

  lemma MarkingPlays(j: JobProtocol.Job, i: nat, db: Database)
    requires JobProtocol.At(j, i, JobProtocol.Failing) && j.now == db.now <= db.later
    ensures JobProtocol.Plays(j, Marking(i, db))
    ensures JobProtocol.Played(j, Marking(i, db)).row ==
            if db.markFails then j.row
            else JobRow.Execute(j.row, JobRow.UpdateStatus(JobRow.Status.Failed), db.later)
  {
    var t := JobProtocol.Do(j, JobProtocol.Wait(db.later - db.now));
    JobProtocol.PlaysCons(t, JobProtocol.MarkFailed(i, db.markFails), []);
    JobProtocol.PlaysCons(j, JobProtocol.Wait(db.later - db.now), [JobProtocol.MarkFailed(i, db.markFails)] + []);
  }

  lemma InsertFailurePlays(j: JobProtocol.Job, i: nat, delta: JobRow.Delta, db: Database)
    requires AtWork(j, i, db)
    ensures JobProtocol.Plays(j, Moves(i, InsertFailed, delta, db))
    ensures JobProtocol.Played(j, Moves(i, InsertFailed, delta, db)).row == RowAfter(j.row, InsertFailed, delta, db)
  {
    MarkingPlays(JobProtocol.Do(j, JobProtocol.StoreFails(i)), i, db);
    JobProtocol.PlaysCons(j, JobProtocol.StoreFails(i), Marking(i, db));
  }

  lemma CountFailurePlays(j: JobProtocol.Job, i: nat, delta: JobRow.Delta, db: Database)
    requires AtWork(j, i, db)
    ensures JobProtocol.Plays(j, Moves(i, CountFailed, delta, db))
    ensures JobProtocol.Played(j, Moves(i, CountFailed, delta, db)).row == RowAfter(j.row, CountFailed, delta, db)
  {
    var t := JobProtocol.Do(j, JobProtocol.Store(i));
    MarkingPlays(JobProtocol.Do(t, JobProtocol.CountFails(i)), i, db);
    JobProtocol.PlaysCons(t, JobProtocol.CountFails(i), Marking(i, db));
    JobProtocol.PlaysCons(j, JobProtocol.Store(i), [JobProtocol.CountFails(i)] + Marking(i, db));
  }

  lemma DonePlays(j: JobProtocol.Job, i: nat, delta: JobRow.Delta, db: Database)
    requires AtWork(j, i, db) && delta.processed == j.sizes[i] == JobProtocol.Tallied(delta)
    requires !JobRow.Rejected(j.row, JobRow.IncrementProgress(delta), db.now)
    ensures JobProtocol.Plays(j, Moves(i, Done, delta, db))
    ensures JobProtocol.Played(j, Moves(i, Done, delta, db)).row == RowAfter(j.row, Done, delta, db)
  {
    var t := JobProtocol.Do(j, JobProtocol.Store(i));
    JobProtocol.PlaysCons(t, JobProtocol.Count(i, delta), []);
    JobProtocol.PlaysCons(j, JobProtocol.Store(i), [JobProtocol.Count(i, delta)] + []);
  }

  /** A batch being worked on, handled with any outcome, is a play of the protocol that leaves the
      very row HandleBatch leaves. */
  lemma HandlerIsMoves(j: JobProtocol.Job, i: nat, outcome: Outcome, delta: JobRow.Delta, db: Database)
    requires AtWork(j, i, db) && delta.processed == j.sizes[i] == JobProtocol.Tallied(delta)
    requires outcome.Done? ==> !JobRow.Rejected(j.row, JobRow.IncrementProgress(delta), db.now)
    ensures JobProtocol.Plays(j, Moves(i, outcome, delta, db))
    ensures JobProtocol.Played(j, Moves(i, outcome, delta, db)).row == RowAfter(j.row, outcome, delta, db)
  {
    match outcome {
      case Aborted => JobProtocol.PlaysCons(j, JobProtocol.Abort(i), []);
      case Done => DonePlays(j, i, delta, db);
      case InsertFailed => InsertFailurePlays(j, i, delta, db);
      case CountFailed => CountFailurePlays(j, i, delta, db);
    }
  }
}
