/** The emails table of internal/storage/results_repo.go, the cursor export of
    internal/jobs/exporter.go, and what re-queueing a job preserves. */
module Results {
  import opened Bytes
  import opened Mail

  type JobId = nat

  datatype Item = Item(job: JobId, original: Text, normalized: Text, local: Text, domain: Text,
                       status: Option<Status>, classification: Classification, score: int,
                       suggested: Option<Text>, isDisposable: bool, isRole: bool, hasMX: bool,
                       reasons: seq<Code>)

  datatype Stored = Stored(id: nat, item: Item)

  // The unique index (job_id, email_normalized); citext compares without case.
  function Key(it: Item): (JobId, Text) { (it.job, Lower(it.normalized)) }

  // The same letter, capital or small, or the very same byte.
  predicate SameLetter(x: byte, y: byte) {
    || x == y
    || ('A' as byte <= x <= 'Z' as byte && y == x + 32)
    || ('A' as byte <= y <= 'Z' as byte && x == y + 32)
  }

  /** Two items clash in the index exactly when they are of one job and their normalised addresses
      differ in the case of letters at most. */
  lemma ClashIff(a: Item, b: Item)
    ensures Key(a) == Key(b) <==>
      && a.job == b.job && |a.normalized| == |b.normalized|
      && forall i :: 0 <= i < |a.normalized| ==> SameLetter(a.normalized[i], b.normalized[i])
  {
    var x, y := a.normalized, b.normalized;
    if |x| == |y| && forall i :: 0 <= i < |x| ==> SameLetter(x[i], y[i]) {
      assert Lower(x) == Lower(y);
    }
    if Lower(x) == Lower(y) {
      forall i | 0 <= i < |x| ensures SameLetter(x[i], y[i]) {
        assert Lower(x)[i] == Lower(y)[i];
      }
    }
  }

  function Keys(rows: seq<Stored>): set<(JobId, Text)> { set r | r in rows :: Key(r.item) }

  function ItemKeys(items: seq<Item>): set<(JobId, Text)> { set it | it in items :: Key(it) }

  predicate TableOk(rows: seq<Stored>) { InIdOrder(rows) && DistinctRows(rows) }

  predicate InIdOrder(rows: seq<Stored>) {
    && (forall i :: 0 <= i < |rows| ==> rows[i].id > 0)
    && (forall i, j :: 0 <= i < j < |rows| ==> rows[i].id < rows[j].id)
  }

  predicate DistinctRows(rows: seq<Stored>) {
    forall i, j :: 0 <= i < j < |rows| ==> Key(rows[i].item) != Key(rows[j].item)
  }

  predicate DistinctKeys(items: seq<Item>) {
    forall i, j :: 0 <= i < j < |items| ==> Key(items[i]) != Key(items[j])
  }

  // SELECT DISTINCT ON without ORDER BY: one row per key, whichever the planner meets.
  predicate DistinctOn(items: seq<Item>, picked: seq<Item>) {
    (forall p :: p in picked ==> p in items) && ItemKeys(picked) == ItemKeys(items) && DistinctKeys(picked)
  }

  // One committed BulkInsert: old rows untouched, one new row per new key.  Transactions that
  // overlap take ids before they commit, so new rows may come anywhere in the order of ids.
  predicate Inserted(before: seq<Stored>, items: seq<Item>, rows: seq<Stored>) {
    && (forall r :: r in before ==> r in rows) && TableOk(rows)
    && Keys(rows) == Keys(before) + ItemKeys(items)
    && (forall r :: r in rows ==> r in before || r.item in items)
  }

  // One that overlaps no other appends.
  predicate Appended(before: seq<Stored>, items: seq<Item>, rows: seq<Stored>) {
    && before <= rows && TableOk(rows)
    && Keys(rows) == Keys(before) + ItemKeys(items)
    && (forall i :: |before| <= i < |rows| ==> rows[i].item in items)
  }

  lemma AppendedIsInserted(before: seq<Stored>, items: seq<Item>, rows: seq<Stored>)
    requires Appended(before, items, rows)
    ensures Inserted(before, items, rows)
  {
    forall r | r in before ensures r in rows {
      var i :| 0 <= i < |before| && before[i] == r;
      assert rows[i] == r;
    }
    forall r | r in rows ensures r in before || r.item in items {
      var i :| 0 <= i < |rows| && rows[i] == r;
      if i < |before| { assert before[i] == r; }
    }
  }

  predicate IdsBelow(rows: seq<Stored>, id: nat) {
    forall i :: 0 <= i < |rows| ==> rows[i].id < id
  }

  // INSERT ... ON CONFLICT DO NOTHING of one row.
  lemma InsertOne(before: seq<Stored>, items: seq<Item>, rows: seq<Stored>, it: Item, id: nat)
    requires Appended(before, items, rows) && IdsBelow(rows, id) && id > 0
    ensures Key(it) in Keys(rows) ==> Appended(before, items + [it], rows)
    ensures Key(it) !in Keys(rows) ==>
      Appended(before, items + [it], rows + [Stored(id, it)]) && IdsBelow(rows + [Stored(id, it)], id + 1)
  {
    assert ItemKeys(items + [it]) == ItemKeys(items) + {Key(it)};
    if Key(it) !in Keys(rows) {
      OneMoreRow(rows, Stored(id, it));
    }
  }

  lemma OneMoreRow(rows: seq<Stored>, r: Stored)
    requires TableOk(rows) && IdsBelow(rows, r.id) && r.id > 0 && Key(r.item) !in Keys(rows)
    ensures TableOk(rows + [r]) && Keys(rows + [r]) == Keys(rows) + {Key(r.item)}
  {
    var longer := rows + [r];
    assert forall x :: x in longer <==> x in rows || x == r;
    forall i | 0 <= i < |rows| ensures Key(longer[i].item) != Key(longer[|rows|].item) {
      assert rows[i] in rows;
    }
  }

  class ResultsRepo {
    var rows: seq<Stored>
    var nextId: nat

    ghost predicate Valid()
      reads this
    {
      TableOk(rows) && nextId > 0 && IdsBelow(rows, nextId)
    }

    constructor ()
      ensures Valid() && rows == []
    {
      rows, nextId := [], 1;
    }

    // picked: the database's choice among duplicates; fails: any statement of the transaction.
    method BulkInsert(items: seq<Item>, picked: seq<Item>, fails: bool) returns (inserted: nat, ok: bool)
      requires Valid() && DistinctOn(items, picked)
      modifies this
      ensures Valid()
      ensures ok <==> items == [] || !fails
      ensures ok ==> Appended(old(rows), items, rows) && inserted == |rows| - |old(rows)|
      ensures !ok ==> rows == old(rows) && inserted == 0
      ensures inserted <= |items|
    {
      inserted, ok := 0, true;
      if items == [] {
        return;
      }
      if fails {
        return 0, false;
      }
      for n := 0 to |picked|
        invariant Valid() && Appended(old(rows), picked[..n], rows)
        invariant inserted == |rows| - |old(rows)| <= n
      {
        assert picked[..n + 1] == picked[..n] + [picked[n]];
        var one := InsertRow(picked[n], old(rows), picked[..n]);
        inserted := inserted + one;
      }
      assert picked[..|picked|] == picked;
      DistinctIsNoLonger(items, picked);
    }

    // ON CONFLICT DO NOTHING, row by row: 1 if it is new.
    method InsertRow(it: Item, ghost before: seq<Stored>, ghost sofar: seq<Item>) returns (inserted: nat)
      requires Valid() && Appended(before, sofar, rows)
      modifies this
      ensures Valid() && Appended(before, sofar + [it], rows)
      ensures inserted <= 1 && |rows| == |old(rows)| + inserted
      ensures rows == if Key(it) in Keys(old(rows)) then old(rows) else old(rows) + [Stored(old(nextId), it)]
    {
      InsertOne(before, sofar, rows, it, nextId);
      if Key(it) in Keys(rows) {
        return 0;
      }
      rows := rows + [Stored(nextId, it)];
      nextId := nextId + 1;
      return 1;
    }

    // ListByJob without a status filter.
    function ListByJob(job: JobId, afterId: nat, limit: nat): seq<Stored>
      reads this
    {
      Page(OfJob(rows, job), afterId, limit)
    }

    function ListOriginalsByJob(job: JobId): seq<Text>
      reads this
    {
      Originals(OfJob(rows, job))
    }
  }

  lemma LastKeyIsNew(front: seq<Item>, last: Item)
    requires DistinctKeys(front + [last])
    ensures DistinctKeys(front) && Key(last) !in ItemKeys(front)
  {
    var items := front + [last];
    forall i | 0 <= i < |front| ensures Key(front[i]) != Key(last) {
      assert items[i] == front[i] && items[|front|] == last;
    }
    forall i, j | 0 <= i < j < |front| ensures Key(front[i]) != Key(front[j]) {
      assert items[i] == front[i] && items[j] == front[j];
    }
  }

  lemma {:induction false} KeyCount(items: seq<Item>)
    ensures |ItemKeys(items)| <= |items|
    ensures DistinctKeys(items) ==> |ItemKeys(items)| == |items|
    decreases |items|
  {
    if items != [] {
      var front, last := items[..|items| - 1], items[|items| - 1];
      assert items == front + [last];
      assert ItemKeys(items) == ItemKeys(front) + {Key(last)};
      KeyCount(front);
      if DistinctKeys(items) { LastKeyIsNew(front, last); }
    }
  }

  lemma LastRowIsNew(front: seq<Stored>, last: Stored)
    requires DistinctRows(front + [last])
    ensures DistinctRows(front) && Key(last.item) !in Keys(front)
  {
    var rows := front + [last];
    forall i | 0 <= i < |front| ensures Key(front[i].item) != Key(last.item) {
      assert rows[i] == front[i] && rows[|front|] == last;
    }
    forall i, j | 0 <= i < j < |front| ensures Key(front[i].item) != Key(front[j].item) {
      assert rows[i] == front[i] && rows[j] == front[j];
    }
  }

  lemma {:induction false} RowCount(rows: seq<Stored>)
    requires DistinctRows(rows)
    ensures |Keys(rows)| == |rows|
    decreases |rows|
  {
    if rows != [] {
      var front, last := rows[..|rows| - 1], rows[|rows| - 1];
      assert rows == front + [last];
      assert Keys(rows) == Keys(front) + {Key(last.item)};
      LastRowIsNew(front, last);
      RowCount(front);
    }
  }

  lemma DistinctIsNoLonger(items: seq<Item>, picked: seq<Item>)
    requires DistinctOn(items, picked)
    ensures |picked| <= |items|
  {
    KeyCount(items);
    KeyCount(picked);
  }

  // ---------- one job's rows ----------

  function OfJob(rows: seq<Stored>, job: JobId): (r: seq<Stored>)
    ensures forall x :: x in r <==> x in rows && x.item.job == job
  {
    if rows == [] then []
    else
      var last := rows[|rows| - 1];
      OfJob(rows[..|rows| - 1], job) + (if last.item.job == job then [last] else [])
  }

  function Beyond(rows: seq<Stored>, afterId: nat): seq<Stored> {
    if rows == [] then []
    else
      var last := rows[|rows| - 1];
      Beyond(rows[..|rows| - 1], afterId) + (if last.id > afterId then [last] else [])
  }

  // WHERE id > afterId ORDER BY id LIMIT limit
  function Page(rows: seq<Stored>, afterId: nat, limit: nat): seq<Stored> {
    var found := Beyond(rows, afterId);
    if |found| <= limit then found else found[..limit]
  }

  function Originals(rows: seq<Stored>): (r: seq<Text>)
    ensures |r| == |rows| && forall i :: 0 <= i < |rows| ==> r[i] == rows[i].item.original
  {
    seq(|rows|, i requires 0 <= i < |rows| => rows[i].item.original)
  }

  lemma {:induction false} BeyondHolds(rows: seq<Stored>, afterId: nat)
    ensures forall x :: x in Beyond(rows, afterId) <==> x in rows && x.id > afterId
    decreases |rows|
  {
    if rows != [] {
      BeyondHolds(rows[..|rows| - 1], afterId);
      assert rows == rows[..|rows| - 1] + [rows[|rows| - 1]];
    }
  }

  // The first rows of a list in id order.
  lemma FirstOf(found: seq<Stored>, limit: nat, page: seq<Stored>)
    requires InIdOrder(found) && page == if |found| <= limit then found else found[..limit]
    ensures |page| <= limit && InIdOrder(page) && (forall x :: x in page ==> x in found)
    ensures forall x :: x in found ==> x in page || (|page| == limit && forall y :: y in page ==> y.id < x.id)
  {
    forall x | x in found && x !in page ensures |page| == limit && forall y :: y in page ==> y.id < x.id {
      var k :| 0 <= k < |found| && found[k] == x;
      assert found[k] !in found[..limit];
    }
  }

  /** A page of a job holds rows of the job beyond the cursor and no others, lowest ids first, and
      stops only at its limit. */
  lemma PageIs(rows: seq<Stored>, job: JobId, afterId: nat, limit: nat)
    requires TableOk(rows)
    ensures var page := Page(OfJob(rows, job), afterId, limit);
      && |page| <= limit && InIdOrder(page)
      && (forall x :: x in page ==> x in rows && x.item.job == job && x.id > afterId)
      && forall x :: x in rows && x.item.job == job && x.id > afterId ==>
           x in page || (|page| == limit && forall y :: y in page ==> y.id < x.id)
  {
    var mine := OfJob(rows, job);
    OfJobOk(rows, job);
    BeyondHolds(mine, afterId);
    BeyondInOrder(mine, afterId);
    FirstOf(Beyond(mine, afterId), limit, Page(mine, afterId, limit));
  }

  lemma TableAppend(front: seq<Stored>, last: Stored)
    requires TableOk(front) && last.id > 0
    requires forall x :: x in front ==> x.id < last.id && Key(x.item) != Key(last.item)
    ensures TableOk(front + [last])
  {
    forall i | 0 <= i < |front| ensures front[i].id < last.id && Key(front[i].item) != Key(last.item) {
      assert front[i] in front;
    }
  }

  lemma {:induction false} OfJobOk(rows: seq<Stored>, job: JobId)
    requires TableOk(rows)
    ensures TableOk(OfJob(rows, job))
    decreases |rows|
  {
    if rows != [] {
      var front, last := rows[..|rows| - 1], rows[|rows| - 1];
      assert TableOk(front);
      OfJobOk(front, job);
      forall x | x in OfJob(front, job) ensures x.id < last.id && Key(x.item) != Key(last.item) {
        var i :| 0 <= i < |front| && front[i] == x;
        assert rows[i] == x;
      }
      if last.item.job == job { TableAppend(OfJob(front, job), last); }
    }
  }

  lemma {:induction false} BeyondNone(rows: seq<Stored>, afterId: nat)
    requires forall i :: 0 <= i < |rows| ==> rows[i].id <= afterId
    ensures Beyond(rows, afterId) == []
    decreases |rows|
  {
    if rows != [] { BeyondNone(rows[..|rows| - 1], afterId); }
  }

  lemma {:induction false} BeyondAll(rows: seq<Stored>, afterId: nat)
    requires forall i :: 0 <= i < |rows| ==> rows[i].id > afterId
    ensures Beyond(rows, afterId) == rows
    decreases |rows|
  {
    if rows != [] {
      BeyondAll(rows[..|rows| - 1], afterId);
      assert rows == rows[..|rows| - 1] + [rows[|rows| - 1]];
    }
  }

  lemma {:induction false} BeyondConcat(a: seq<Stored>, b: seq<Stored>, afterId: nat)
    ensures Beyond(a + b, afterId) == Beyond(a, afterId) + Beyond(b, afterId)
    decreases |b|
  {
    if b == [] {
      assert a + b == a;
    } else {
      var front := b[..|b| - 1];
      assert (a + b)[..|a + b| - 1] == a + front;
      BeyondConcat(a, front, afterId);
    }
  }

  // Rows split at a cursor.
  lemma BeyondIsSuffix(rows: seq<Stored>, n: nat, afterId: nat)
    requires n <= |rows|
    requires forall i :: 0 <= i < n ==> rows[i].id <= afterId
    requires forall i :: n <= i < |rows| ==> rows[i].id > afterId
    ensures Beyond(rows, afterId) == rows[n..]
  {
    assert rows == rows[..n] + rows[n..];
    BeyondConcat(rows[..n], rows[n..], afterId);
    BeyondNone(rows[..n], afterId);
    BeyondAll(rows[n..], afterId);
  }

  // ---------- the export ----------

  // One CSV record, columns in the order of the header line.
  datatype Line = Line(emailOriginal: Text, emailNormalized: Text, domain: Text, status: Option<Status>,
                       classification: Classification, score: int, suggestedEmail: Text, isDisposable: bool,
                       isRole: bool, hasMX: bool)

  function Record(it: Item): Line {
    Line(it.original, it.normalized, it.domain, it.status, it.classification, it.score,
         if it.suggested.Some? then it.suggested.value else [], it.isDisposable, it.isRole, it.hasMX)
  }

  // A line shows a row: every column is the row's own, and no suggestion is an empty column.
  predicate Shows(l: Line, it: Item) {
    && l.emailOriginal == it.original && l.emailNormalized == it.normalized && l.domain == it.domain
    && l.status == it.status && l.classification == it.classification && l.score == it.score
    && (it.suggested == None ==> l.suggestedEmail == [])
    && (it.suggested != None ==> it.suggested == Some(l.suggestedEmail))
    && l.isDisposable == it.isDisposable && l.isRole == it.isRole && l.hasMX == it.hasMX
  }

  function Lines(rows: seq<Stored>): (r: seq<Line>)
    ensures |r| == |rows| && forall i :: 0 <= i < |rows| ==> r[i] == Record(rows[i].item)
  {
    seq(|rows|, i requires 0 <= i < |rows| => Record(rows[i].item))
  }

  lemma LinesShow(rows: seq<Stored>, lines: seq<Line>)
    requires lines <= Lines(rows)
    ensures |lines| <= |rows| && forall k :: 0 <= k < |lines| ==> Shows(lines[k], rows[k].item)
  {
    assert forall k :: 0 <= k < |lines| ==> lines[k] == Lines(rows)[k];
  }

  // The inner loop: one page written, the cursor on its last id.
  method WritePage(rows: seq<Stored>, cursor: nat) returns (lines: seq<Line>, afterId: nat)
    requires InIdOrder(rows) && rows != [] && rows[0].id > cursor
    ensures lines == Lines(rows) && afterId == rows[|rows| - 1].id
  {
    lines, afterId := [], cursor;
    for k := 0 to |rows|
      invariant lines == Lines(rows)[..k]
      invariant afterId == if k == 0 then cursor else rows[k - 1].id
    {
      lines := lines + [Record(rows[k].item)];
      if rows[k].id > afterId {
        afterId := rows[k].id;
      }
    }
  }

  /** Over a fixed table the export writes every row of the job once, in id order, for any
      page size; if the context ends first, what it wrote is a prefix of that. */
  method ExportCSV(repo: ResultsRepo, job: JobId, pageSize: int, alive: nat -> bool)
    returns (lines: seq<Line>, ok: bool)
    requires repo.Valid()
    ensures ok ==> lines == Lines(OfJob(repo.rows, job))
    ensures lines <= Lines(OfJob(repo.rows, job))
    ensures |lines| <= |OfJob(repo.rows, job)| &&
      forall k :: 0 <= k < |lines| ==> Shows(lines[k], OfJob(repo.rows, job)[k].item)
    // it fails exactly when the context ends before a page it has to ask for
    ensures ok <==> LiveBefore(alive, Pages(|OfJob(repo.rows, job)|, if pageSize <= 0 then 1000 else pageSize))
  {
    var size: nat := if pageSize <= 0 then 1000 else pageSize;
    OfJobOk(repo.rows, job);
    ghost var mine := OfJob(repo.rows, job);
    ghost var afterId, rest, left;
    var page;
    lines, afterId, rest, left, page, ok := ExportPages(repo, job, size, alive, mine);
    ExportedIsPrefix(mine, afterId, lines);
    LinesShow(mine, lines);
  }

  // How many pages are asked for while there are rows left: until one comes back empty.
  function Pages(rows: nat, size: nat): nat
    requires size > 0
  {
    if rows == 0 then 1 else 1 + Pages(if rows <= size then 0 else rows - size, size)
  }

  /** The first page, and every page after one that was not empty. */
  lemma {:induction false} PagesAre(rows: nat, size: nat, n: nat)
    requires size > 0
    ensures n < Pages(rows, size) <==> n == 0 || (n - 1) * size < rows
    decreases rows
  {
    if n > 0 {
      assert (n - 1) * size >= 0;
      if rows > 0 {
        PagesAre(if rows <= size then 0 else rows - size, size, n - 1);
        if n > 1 { assert (n - 1) * size == (n - 2) * size + size; }
      }
    }
  }

  predicate LiveBefore(alive: nat -> bool, page: nat) { forall n :: 0 <= n < page ==> alive(n) }

  lemma LiveOneMore(alive: nat -> bool, page: nat)
    requires LiveBefore(alive, page) && alive(page)
    ensures LiveBefore(alive, page + 1)
  {
  }

  // The records of the rows up to the cursor are written, rest rows are still to come.
  ghost predicate Halfway(mine: seq<Stored>, afterId: nat, lines: seq<Line>, rest: nat) {
    Exported(mine, afterId, lines) && |Beyond(mine, afterId)| == rest
  }

  // left more pages to ask for.
  predicate Awaits(rest: nat, left: nat, size: nat)
    requires size > 0
  {
    if left == 0 then rest == 0 else left == Pages(rest, size)
  }

  lemma AwaitsNext(rest: nat, left: nat, size: nat, fetched: nat)
    requires size > 0 && left > 0 && Awaits(rest, left, size) && fetched == if rest <= size then rest else size
    ensures Awaits(rest - fetched, left - 1, size) && (fetched == 0 <==> left == 1)
  {
  }

  ghost predicate Underway(mine: seq<Stored>, afterId: nat, lines: seq<Line>, rest: nat, left: nat, size: nat)
    requires size > 0
  {
    Halfway(mine, afterId, lines, rest) && Awaits(rest, left, size)
  }

  // The outer loop: the pages it asked for, out of those there are.
  method ExportPages(repo: ResultsRepo, job: JobId, size: nat, alive: nat -> bool, ghost mine: seq<Stored>)
    returns (lines: seq<Line>, ghost afterId: nat, ghost rest: nat, ghost left: nat, page: nat, ok: bool)
    requires size > 0 && mine == OfJob(repo.rows, job) && InIdOrder(mine)
    ensures Underway(mine, afterId, lines, rest, left, size) && page + left == Pages(|mine|, size)
    ensures LiveBefore(alive, page) && if ok then left == 0 else left > 0 && !alive(page)
  {
    ExportedAtFirst(mine);
    lines, page, ok := [], 0, false;
    var cursor := 0;
    rest, left := |mine|, Pages(|mine|, size);
    while !ok && alive(page)
      invariant Underway(mine, cursor, lines, rest, left, size) && page + left == Pages(|mine|, size)
      invariant LiveBefore(alive, page) && (ok <==> left == 0)
      decreases left
    {
      LiveOneMore(alive, page);
      lines, cursor, rest, left, ok := OnePage(repo, job, cursor, size, lines, mine, rest, left);
      page := page + 1;
    }
    afterId := cursor;
  }

  // One turn of it, with the pages counted.
  method OnePage(repo: ResultsRepo, job: JobId, cursor: nat, size: nat, before: seq<Line>, ghost mine: seq<Stored>,
                 ghost rest: nat, ghost left: nat)
    returns (lines: seq<Line>, afterId: nat, ghost restAfter: nat, ghost leftAfter: nat, over: bool)
    requires size > 0 && mine == OfJob(repo.rows, job) && InIdOrder(mine)
    requires left > 0 && Underway(mine, cursor, before, rest, left, size)
    ensures Underway(mine, afterId, lines, restAfter, leftAfter, size)
    ensures leftAfter == left - 1 && (over <==> leftAfter == 0)
  {
    var fetched;
    lines, afterId, fetched := ExportPage(repo, job, cursor, size, before, mine, rest);
    AwaitsNext(rest, left, size, fetched);
    restAfter, leftAfter, over := rest - fetched, left - 1, fetched == 0;
  }

  // One turn of it.
  method ExportPage(repo: ResultsRepo, job: JobId, cursor: nat, size: nat, before: seq<Line>, ghost mine: seq<Stored>,
                    ghost rest: nat)
    returns (lines: seq<Line>, afterId: nat, fetched: nat)
    requires size > 0 && mine == OfJob(repo.rows, job) && InIdOrder(mine) && Halfway(mine, cursor, before, rest)
    ensures fetched == if rest <= size then rest else size
    ensures Halfway(mine, afterId, lines, rest - fetched)
  {
    var written;
    written, afterId, fetched := NextPage(repo, job, cursor, size, mine);
    PageWritten(mine, cursor, before, fetched, afterId);
    lines := before + written;
  }

  // lines are the records of the rows up to the cursor.
  ghost predicate Exported(mine: seq<Stored>, afterId: nat, lines: seq<Line>) {
    lines + Lines(Beyond(mine, afterId)) == Lines(mine)
  }

  lemma ExportedAtFirst(mine: seq<Stored>)
    requires InIdOrder(mine)
    ensures Exported(mine, 0, []) && |Beyond(mine, 0)| == |mine|
  {
    BeyondIsSuffix(mine, 0, 0);
    assert [] + Lines(mine) == Lines(mine);
  }

  lemma ExportedIsPrefix(mine: seq<Stored>, afterId: nat, lines: seq<Line>)
    requires Exported(mine, afterId, lines)
    ensures lines <= Lines(mine)
    ensures Beyond(mine, afterId) == [] ==> lines == Lines(mine)
  {
    var all := lines + Lines(Beyond(mine, afterId));
    assert lines <= all;
  }

  lemma PageWritten(mine: seq<Stored>, before: nat, lines: seq<Line>, k: nat, afterId: nat)
    requires Exported(mine, before, lines)
    requires k <= |Beyond(mine, before)| && Beyond(mine, afterId) == Beyond(mine, before)[k..]
    ensures Exported(mine, afterId, lines + Lines(Beyond(mine, before)[..k]))
  {
    var rest := Beyond(mine, before);
    LinesSplit(rest, k);
    Associative(lines, Lines(rest[..k]), Lines(rest[k..]));
  }

  // The next page fetched and written, the cursor moved past it.
  method NextPage(repo: ResultsRepo, job: JobId, cursor: nat, size: nat, ghost mine: seq<Stored>)
    returns (lines: seq<Line>, afterId: nat, fetched: nat)
    requires size > 0 && mine == OfJob(repo.rows, job) && InIdOrder(mine)
    ensures var rest := Beyond(mine, cursor);
      && fetched == (if |rest| <= size then |rest| else size)
      && lines == Lines(rest[..fetched]) && Beyond(mine, afterId) == rest[fetched..]
  {
    ghost var rest := Beyond(mine, cursor);
    BeyondInOrder(mine, cursor);
    var rows := repo.ListByJob(job, cursor, size);
    fetched := |rows|;
    assert rows == rest[..fetched];
    if fetched == 0 {
      return [], cursor, 0;
    }
    BeyondMoves(mine, cursor, fetched);
    lines, afterId := WritePage(rows, cursor);
  }

  lemma BeyondInOrder(mine: seq<Stored>, cursor: nat)
    requires InIdOrder(mine)
    ensures var rest := Beyond(mine, cursor);
      InIdOrder(rest) && forall i :: 0 <= i < |rest| ==> rest[i].id > cursor
  {
    var n := Cut(mine, cursor);
    BeyondIsSuffix(mine, n, cursor);
  }

  lemma Associative<X>(a: seq<X>, b: seq<X>, c: seq<X>)
    ensures (a + b) + c == a + (b + c)
  {
  }

  lemma LinesSplit(rows: seq<Stored>, k: nat)
    requires k <= |rows|
    ensures Lines(rows) == Lines(rows[..k]) + Lines(rows[k..])
  {
  }

  // The cursor moves to the k-th row beyond it.
  lemma BeyondMoves(mine: seq<Stored>, afterId: nat, k: nat)
    requires InIdOrder(mine) && 0 < k <= |Beyond(mine, afterId)|
    ensures Beyond(mine, Beyond(mine, afterId)[k - 1].id) == Beyond(mine, afterId)[k..]
  {
    var n := Cut(mine, afterId);
    BeyondIsSuffix(mine, n, afterId);
    BeyondIsSuffix(mine, n + k, mine[n + k - 1].id);
  }

  // How many rows the cursor has passed.
  lemma {:induction false} Cut(rows: seq<Stored>, afterId: nat) returns (n: nat)
    requires InIdOrder(rows)
    ensures n <= |rows|
    ensures forall i :: 0 <= i < n ==> rows[i].id <= afterId
    ensures forall i :: n <= i < |rows| ==> rows[i].id > afterId
    decreases |rows|
  {
    n := |rows|;
    if rows != [] && rows[|rows| - 1].id > afterId {
      n := Cut(rows[..|rows| - 1], afterId);
    }
  }

  // ---------- a job after any sequence of committed batches ----------

  // tables[i + 1] is tables[i] after the i-th commit.
  predicate Committed(tables: seq<seq<Stored>>, batches: seq<seq<Item>>) {
    && |tables| == |batches| + 1 && TableOk(tables[0])
    && forall i :: 0 <= i < |batches| ==> Inserted(tables[i], batches[i], tables[i + 1])
  }

  function Flat(batches: seq<seq<Item>>): seq<Item> {
    if batches == [] then [] else Flat(batches[..|batches| - 1]) + batches[|batches| - 1]
  }

  lemma RowsGained(before: seq<Stored>, mid: seq<Stored>, after: seq<Stored>, xs: seq<Item>, ys: seq<Item>)
    requires Inserted(before, xs, mid) && Inserted(mid, ys, after)
    ensures Inserted(before, xs + ys, after)
  {
    assert ItemKeys(xs + ys) == ItemKeys(xs) + ItemKeys(ys);
  }

  lemma NothingInserted(rows: seq<Stored>)
    requires TableOk(rows)
    ensures Inserted(rows, [], rows)
  {
    assert Keys(rows) == Keys(rows) + ItemKeys([]);
  }

  // All commits but the last, and the last.
  lemma LastCommit(tables: seq<seq<Stored>>, batches: seq<seq<Item>>)
    requires Committed(tables, batches) && batches != []
    ensures var n := |batches| - 1;
      Committed(tables[..n + 1], batches[..n]) && Inserted(tables[n], batches[n], tables[n + 1])
  {
  }

  /** The commits together are one big insert of everything committed: every earlier row stays,
      there is one row per distinct key, and every new row is one of the committed items. */
  lemma {:induction false} CommittedKeys(tables: seq<seq<Stored>>, batches: seq<seq<Item>>)
    requires Committed(tables, batches)
    ensures Inserted(tables[0], Flat(batches), tables[|batches|])
    ensures InsertedCount(tables) == |tables[|batches|]| - |tables[0]|
    decreases |batches|
  {
    var n := |batches| - 1;
    if batches == [] {
      NothingInserted(tables[0]);
    } else {
      LastCommit(tables, batches);
      CommittedKeys(tables[..n + 1], batches[..n]);
      RowsGained(tables[0], tables[n], tables[n + 1], Flat(batches[..n]), batches[n]);
    }
  }

  // The sum of the RowsAffected of the batches.
  function InsertedCount(tables: seq<seq<Stored>>): int {
    if |tables| <= 1 then 0
    else InsertedCount(tables[..|tables| - 1]) + |tables[|tables| - 1]| - |tables[|tables| - 2]|
  }

  function JobKeys(keys: set<(JobId, Text)>, job: JobId): set<(JobId, Text)> {
    set k | k in keys && k.0 == job
  }

  lemma JobRowsAreKeys(rows: seq<Stored>, job: JobId)
    requires TableOk(rows)
    ensures Keys(OfJob(rows, job)) == JobKeys(Keys(rows), job)
    ensures |OfJob(rows, job)| == |JobKeys(Keys(rows), job)|
  {
    OfJobOk(rows, job);
    RowCount(OfJob(rows, job));
  }

  /** A job none of whose rows were there before holds exactly one row per distinct key of
      the e-mails committed for it. */
  lemma OneRowPerKey(tables: seq<seq<Stored>>, batches: seq<seq<Item>>, job: JobId)
    requires Committed(tables, batches)
    requires forall r :: r in tables[0] ==> r.item.job != job
    ensures var last := tables[|batches|]; var wanted := JobKeys(ItemKeys(Flat(batches)), job);
      Keys(OfJob(last, job)) == wanted && |OfJob(last, job)| == |wanted|
  {
    CommittedKeys(tables, batches);
    var last := tables[|batches|];
    JobRowsAreKeys(last, job);
    assert JobKeys(Keys(last), job) == JobKeys(ItemKeys(Flat(batches)), job);
  }

  // ---------- requeue ----------

  // The normalised address is a function of the raw one.
  predicate NormalizedBy(it: Item, normal: Text -> Text) { it.normalized == normal(it.original) }

  // The items a job makes of a list of raw addresses.
  predicate ItemsFor(items: seq<Item>, job: JobId, raws: seq<Text>, normal: Text -> Text) {
    && |items| == |raws|
    && forall i :: 0 <= i < |items| ==>
         items[i].job == job && items[i].original == raws[i] && NormalizedBy(items[i], normal)
  }

  // The same keys under another job id.
  function Moved(keys: set<(JobId, Text)>, job: JobId): set<(JobId, Text)> {
    set k | k in keys :: (job, k.1)
  }

  lemma MovedKeys(rows: seq<Stored>, src: JobId, job: JobId, items: seq<Item>, normal: Text -> Text)
    requires forall r :: r in rows ==> r.item.job == src && NormalizedBy(r.item, normal)
    requires ItemsFor(items, job, Originals(rows), normal)
    ensures ItemKeys(items) == Moved(Keys(rows), job)
    ensures JobKeys(ItemKeys(items), job) == ItemKeys(items)
    ensures TableOk(rows) ==> DistinctKeys(items)
  {
    forall i | 0 <= i < |rows| ensures Key(items[i]) == (job, Key(rows[i].item).1) && Key(rows[i].item).0 == src {
      assert rows[i] in rows;
    }
    forall k | k in ItemKeys(items) ensures k in Moved(Keys(rows), job) {
      var i :| 0 <= i < |items| && Key(items[i]) == k;
      assert rows[i] in rows && Key(rows[i].item) in Keys(rows);
    }
    forall k | k in Moved(Keys(rows), job) ensures k in ItemKeys(items) {
      var i :| 0 <= i < |rows| && (job, Key(rows[i].item).1) == k;
      assert items[i] in items && Key(items[i]) == k;
    }
  }

  // The committed items of job are exactly these: in any order, in any batches, among any others.
  ghost predicate CommitsOf(batches: seq<seq<Item>>, job: JobId, items: seq<Item>) {
    forall it :: it in Flat(batches) && it.job == job <==> it in items
  }

  lemma CommittedJobKeys(batches: seq<seq<Item>>, job: JobId, items: seq<Item>)
    requires CommitsOf(batches, job, items)
    ensures JobKeys(ItemKeys(Flat(batches)), job) == ItemKeys(items)
  {
    forall k | k in JobKeys(ItemKeys(Flat(batches)), job) ensures k in ItemKeys(items) {
      var it :| it in Flat(batches) && Key(it) == k;
      assert it in items;
    }
    forall k | k in ItemKeys(items) ensures k in JobKeys(ItemKeys(Flat(batches)), job) {
      var it :| it in items && Key(it) == k;
      assert it in Flat(batches);
    }
  }

  /** Requeue: if every item of the new job commits, however its batches and those of other jobs
      interleave and overlap, it ends with as many rows as its source had (which is its own total)
      and under the same keys, and the rows of the source are untouched. */
  lemma RequeuePreservesResults(tables: seq<seq<Stored>>, batches: seq<seq<Item>>, items: seq<Item>,
                                src: JobId, job: JobId, normal: Text -> Text)
    requires Committed(tables, batches)
    requires forall r :: r in tables[0] ==> r.item.job != job
    requires forall r :: r in OfJob(tables[0], src) ==> NormalizedBy(r.item, normal)
    requires ItemsFor(items, job, Originals(OfJob(tables[0], src)), normal) && CommitsOf(batches, job, items)
    ensures var source, target := OfJob(tables[0], src), OfJob(tables[|batches|], job);
      && |target| == |source| == |Originals(source)|
      && Keys(target) == Moved(Keys(source), job)
      && forall r :: r in source ==> r in OfJob(tables[|batches|], src)
  {
    var source := OfJob(tables[0], src);
    CommittedKeys(tables, batches);
    OneRowPerKey(tables, batches, job);
    CommittedJobKeys(batches, job, items);
    OfJobOk(tables[0], src);
    MovedKeys(source, src, job, items, normal);
    KeyCount(items);
  }
}
