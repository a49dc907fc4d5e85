/** The jobs table of internal/storage/jobs_repo.go: each SQL statement is an atomic update
    that the CHECK constraints of migrations/0002_jobs.up.sql may reject. */
module JobRow {
  import opened Bytes

  datatype Status = Pending | Running | Paused | Completed | Failed | Cancelled

  predicate Terminal(s: Status) { s.Completed? || s.Failed? || s.Cancelled? }

  datatype Delta = Delta(processed: nat, valid: nat, invalid: nat, risky: nat, unknown: nat, disposable: nat)

  datatype Row = Row(status: Status, total: int, counts: Delta,
                     updatedAt: int, startedAt: Option<int>, finishedAt: Option<int>)

  datatype Statement =
    | UpdateStatus(status: Status)
    | IncrementProgress(delta: Delta)
    | Cancel
    | ForceFail
    | MarkStale(staleAfter: int)
    | SetLastError

  // jobs_counts_non_negative (the counters are naturals here), jobs_processed_le_total,
  // jobs_finished_after_started.
  predicate Checks(r: Row) {
    && r.total >= 0
    && (r.counts.processed <= r.total || r.total == 0)
    && (r.startedAt.Some? && r.finishedAt.Some? ==> r.finishedAt.value >= r.startedAt.value)
  }

  function Plus(a: Delta, b: Delta): Delta {
    Delta(a.processed + b.processed, a.valid + b.valid, a.invalid + b.invalid,
          a.risky + b.risky, a.unknown + b.unknown, a.disposable + b.disposable)
  }

  // Cancel and ForceFail leave terminal jobs alone, MarkStale also spares paused ones;
  // UpdateStatus has no guard at all.
  predicate Matches(r: Row, st: Statement, now: int) {
    match st
    case Cancel => !Terminal(r.status)
    case ForceFail => !Terminal(r.status)
    case MarkStale(staleAfter) => (r.status.Pending? || r.status.Running?) && r.updatedAt < now - staleAfter
    case _ => true
  }

  function Proposed(r: Row, st: Statement, now: int): Row {
    match st
    case UpdateStatus(s) =>
      r.(status := s, updatedAt := now,
         startedAt := if r.startedAt.None? && s.Running? then Some(now) else r.startedAt,
         finishedAt := if Terminal(s) then Some(now) else r.finishedAt)
    case IncrementProgress(d) => r.(counts := Plus(r.counts, d), updatedAt := now)
    case Cancel => r.(status := Cancelled, updatedAt := now, finishedAt := Some(now))
    case ForceFail => r.(status := Failed, updatedAt := now, finishedAt := Some(now))
    case MarkStale(_) => r.(status := Failed, updatedAt := now, finishedAt := Some(now))
    case SetLastError => r.(updatedAt := now)
  }

  predicate Rejected(r: Row, st: Statement, now: int) {
    Matches(r, st, now) && !Checks(Proposed(r, st, now))
  }

  function Execute(r: Row, st: Statement, now: int): Row {
    if Matches(r, st, now) && Checks(Proposed(r, st, now)) then Proposed(r, st, now) else r
  }

  function Created(total: nat, now: int): Row {
    Row(Pending, total, Delta(0, 0, 0, 0, 0, 0), now, None, None)
  }

  // ---------- the repository ----------

  type JobId = nat

  class JobsRepo {
    var rows: map<JobId, Row>

    constructor ()
      ensures rows == map[]
    {
      rows := map[];
    }

    // The database has not issued this id before.
    method Create(id: JobId, total: nat, now: int) returns (row: Row)
      requires id !in rows
      modifies this
      ensures row == Row(Pending, total, Delta(0, 0, 0, 0, 0, 0), now, None, None) == Created(total, now)
      ensures rows == old(rows)[id := row]
    {
      row := Row(Pending, total, Delta(0, 0, 0, 0, 0, 0), now, None, None);
      rows := rows[id := row];
    }

    // One UPDATE ... WHERE id = $1.  A violated CHECK is an error; so is ForceFail of no row at all.
    method Update(id: JobId, st: Statement, now: int) returns (ok: bool)
      modifies this
      ensures rows == if id in old(rows) then old(rows)[id := Execute(old(rows)[id], st, now)] else old(rows)
      ensures ok <==>
        if id in old(rows) && Matches(old(rows)[id], st, now) then !Rejected(old(rows)[id], st, now) else !st.ForceFail?
    {
      if id !in rows || !Matches(rows[id], st, now) {
        assert id in rows ==> rows == rows[id := rows[id]];
        return !st.ForceFail?;
      }
      var proposed := Proposed(rows[id], st, now);
      if !Checks(proposed) {
        assert rows == rows[id := rows[id]];
        return false;
      }
      rows := rows[id := proposed];
      return true;
    }
  }

  // ---------- timestamps over any sequence of statements ----------

  datatype Timed = Timed(st: Statement, at: int)

  function After(r: Row, ts: seq<Timed>): Row {
    if ts == [] then r else Execute(After(r, ts[..|ts| - 1]), ts[|ts| - 1].st, ts[|ts| - 1].at)
  }

  function EndTime(start: int, ts: seq<Timed>): int {
    if ts == [] then start else ts[|ts| - 1].at
  }

  // now() strictly grows from one statement to the next.
  predicate StrictClock(start: int, ts: seq<Timed>) {
    ts == [] || (StrictClock(start, ts[..|ts| - 1]) && EndTime(start, ts[..|ts| - 1]) < ts[|ts| - 1].at)
  }

  predicate Dated(r: Row) {
    && Checks(r)
    && (Terminal(r.status) ==> r.finishedAt.Some?)
    && (r.status.Running? ==> r.startedAt.Some?)
  }

  /** Terminal jobs carry finished_at, running jobs carry started_at, and once written
      started_at never changes. */
  lemma {:induction false} TimestampsHold(r: Row, ts: seq<Timed>)
    requires Dated(r)
    ensures Dated(After(r, ts))
    ensures r.startedAt.Some? ==> After(r, ts).startedAt == r.startedAt
    ensures After(r, ts).total == r.total
    decreases |ts|
  {
    if ts != [] { TimestampsHold(r, ts[..|ts| - 1]); }
  }

  /** A statement that would start a job is rejected exactly when the job carries an earlier
      finished_at and never started (or some other CHECK already fails). */
  lemma StartRejectedIff(r: Row, now: int)
    requires Dated(r)
    ensures Rejected(r, UpdateStatus(Running), now) <==>
            r.startedAt.None? && r.finishedAt.Some? && r.finishedAt.value < now
  {
  }

  /** What ends a job from outside: a cancellation or a forced failure reaches the jobs that have
      not ended, the stale sweep only pending and running ones that nothing has touched for
      longer than staleAfter; whatever had ended before stays as it was. */
  lemma EndingsReach(r: Row, staleAfter: int, now: int)
    requires Dated(r) && (r.startedAt.Some? ==> r.startedAt.value <= now)
    ensures var ended := r.(updatedAt := now, finishedAt := Some(now));
      && Execute(r, Cancel, now) ==
           (if r.status in {Pending, Running, Paused} then ended.(status := Cancelled) else r)
      && Execute(r, ForceFail, now) ==
           (if r.status in {Pending, Running, Paused} then ended.(status := Failed) else r)
      && Execute(r, MarkStale(staleAfter), now) ==
           (if r.status in {Pending, Running} && now - r.updatedAt > staleAfter then ended.(status := Failed) else r)
  {
  }

  /** A status update of a job that can take it dates what it changes: the first start is kept for
      ever, the end is dated whenever the new status is an end. */
  lemma StatusUpdateIs(r: Row, s: Status, now: int)
    requires Dated(r) && (r.startedAt.Some? ==> r.startedAt.value <= now)
    ensures var x := Execute(r, UpdateStatus(s), now);
      if s == Running && r.startedAt == None && r.finishedAt != None && r.finishedAt.value < now then x == r
      else
        && x.status == s && x.total == r.total && x.counts == r.counts && x.updatedAt == now
        && x.startedAt == (if s == Running && r.startedAt == None then Some(now) else r.startedAt)
        && x.finishedAt == (if s in {Completed, Failed, Cancelled} then Some(now) else r.finishedAt)
  {
  }

  /** Progress moves every counter by its own part of the delta and nothing else, and is refused
      exactly when it would take processed past a known total. */
  lemma ProgressIs(r: Row, d: Delta, now: int)
    requires Dated(r)
    ensures var x := Execute(r, IncrementProgress(d), now);
      if r.total > 0 && r.counts.processed + d.processed > r.total then x == r
      else
        && x.counts.processed == r.counts.processed + d.processed
        && x.counts.valid == r.counts.valid + d.valid && x.counts.invalid == r.counts.invalid + d.invalid
        && x.counts.risky == r.counts.risky + d.risky && x.counts.unknown == r.counts.unknown + d.unknown
        && x.counts.disposable == r.counts.disposable + d.disposable
        && x == r.(counts := x.counts, updatedAt := now)
  {
  }

  // Recording an error touches the date of the last change only.
  lemma LastErrorIs(r: Row, now: int)
    requires Dated(r)
    ensures Execute(r, SetLastError, now) == r.(updatedAt := now)
  {
  }

  // Ended without ever starting, as of time t.
  predicate EndedUnstarted(r: Row, t: int) {
    r.startedAt.None? && r.finishedAt.Some? && r.finishedAt.value <= t && !r.status.Running?
  }

  /** A job cancelled (or failed) while pending stays unstarted for ever: under a strictly
      increasing clock no sequence of statements can move it to running. */
  lemma {:induction false} CancelledWhilePendingNeverRuns(r: Row, start: int, ts: seq<Timed>)
    requires Dated(r) && EndedUnstarted(r, start) && StrictClock(start, ts)
    ensures EndedUnstarted(After(r, ts), EndTime(start, ts))
    decreases |ts|
  {
    if ts != [] {
      var past := ts[..|ts| - 1];
      CancelledWhilePendingNeverRuns(r, start, past);
      TimestampsHold(r, past);
    }
  }

  /** Strictness matters: within one clock tick the same job does start. */
  lemma SameInstantStarts()
    ensures After(Created(3, 0), [Timed(Cancel, 5), Timed(UpdateStatus(Running), 5)]).status == Running
    ensures After(Created(3, 0), [Timed(Cancel, 5), Timed(UpdateStatus(Running), 6)]).status == Cancelled
  {
    var c := Timed(Cancel, 5);
    var s5, s6 := Timed(UpdateStatus(Running), 5), Timed(UpdateStatus(Running), 6);
    assert [c, s5][..1] == [c] && [c, s6][..1] == [c] && [c][..0] == [];
    assert After(Created(3, 0), [c]).status == Cancelled;
  }
}
