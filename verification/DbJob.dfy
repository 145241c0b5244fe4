/**
 One database indexing job (app/services/db_job_processor.py:116-134, 189-394): fetch a chunk past the
 cursor, index it, commit counters and cursor, repeat; at the end hand the cursor to the source.

 `DbJobProcessor` is the code, run alone against any schedule of failures. DbRuns runs any number
 of attempts at the same job at once, a write, a commit or a crash at a time.
 */
module DbJob {
  import opened Wrappers
  import opened CursorCodec
  import opened SearchIndex
  import opened DbScan
  import opened JobProgress

  const DEFAULT_CHUNK_SIZE := 500
  const HARD_MAX_ROWS := 1_000_000

  /** Full jobs start over; incremental ones at the job's cursor, failing that at the source's. */
  function StartCursor(full: bool, job: Option<string>, source: Option<string>): Option<string> {
    if full then None else OrElse(job, OrElse(source, None))
  }

  function ChunkSize(source: DbSource): (n: nat)
    ensures n > 0
  {
    if source.chunkSize > 0 then source.chunkSize else DEFAULT_CHUNK_SIZE
  }

  // ------------------------------------------------------------------
  // Places in the listing
  // ------------------------------------------------------------------

  /** The cursor of a job that started at `start` and has gone through k pending rows. */
  function CursorAt(t: Table, start: Option<string>, k: nat): Option<string>
    requires k <= |Pending(t, start)|
  {
    if k == 0 then start else Some(CursorText(Pending(t, start)[k - 1]))
  }

  /** Rows in strictly rising order of their cursors, which are stored and read back unchanged. */
  ghost predicate Orderly(t: Table) {
    DistinctRows(t, t.rows) && Storable(t, t.rows)
  }

  ghost predicate Listing(t: Table, start: Option<string>) {
    Orderly(t) && !Coerce(t.cursorType, start).BadValue?
  }

  // ------------------------------------------------------------------
  // Where a job starts
  // ------------------------------------------------------------------

  predicate Blank(c: Option<string>) {
    c.None? || c.value == ""
  }

  /** The first k rows are those up to the stored cursor, none if nothing is stored. */
  ghost predicate StartsAfter(t: Table, c: Option<string>, k: nat) {
    && NoNulls(t.rows) && k <= |t.rows|
    && if Blank(c) then k == 0
       else
         && Coerce(t.cursorType, c).Value?
         && (forall i :: 0 <= i < k ==> t.rank(t.rows[i].cursor.value) <= t.rank(Coerce(t.cursorType, c).v))
         && (forall i :: k <= i < |t.rows| ==> t.rank(t.rows[i].cursor.value) > t.rank(Coerce(t.cursorType, c).v))
  }

  /** A full job starts with the first row, any other after the job's own cursor, failing that after the source's. */
  ghost predicate StartsAt(t: Table, full: bool, job: Option<string>, source: Option<string>, k: nat) {
    if full then k == 0 else if !Blank(job) then StartsAfter(t, job, k) else StartsAfter(t, source, k)
  }

  /** The cursor a job goes by can be read. */
  predicate Readable(t: Table, full: bool, job: Option<string>, source: Option<string>) {
    full || !Coerce(t.cursorType, if Blank(job) then source else job).BadValue?
  }

  lemma BlankIsAbsent(t: Table, c: Option<string>)
    ensures Coerce(t.cursorType, c).Absent? <==> Blank(c)
  {
  }

  /** A stored cursor that can be read asks for the rows after the place it stands for. */
  lemma PendingStartsAfter(t: Table, c: Option<string>) returns (k: nat)
    requires Orderly(t) && !Coerce(t.cursorType, c).BadValue?
    ensures k <= |t.rows| && StartsAfter(t, c, k) && Pending(t, c) == t.rows[k..]
  {
    BlankIsAbsent(t, c);
    hide Coerce, Storable, Beyond, Blank;
    k := 0;
    if Coerce(t.cursorType, c).Value? {
      var bound := t.rank(Coerce(t.cursorType, c).v);
      k := BeyondIsSuffix(t, t.rows, bound);
      forall i | 0 <= i < |t.rows| ensures RankOf(t, t.rows[i]) == t.rank(t.rows[i].cursor.value) {
      }
    }
  }

  /** So the rows still to come at the start of a job are those from this place on. */
  lemma StartOfJob(t: Table, full: bool, job: Option<string>, source: Option<string>) returns (k: nat)
    requires Orderly(t) && Readable(t, full, job, source)
    ensures Listing(t, StartCursor(full, job, source)) && StartsAt(t, full, job, source, k) && k <= |t.rows|
    ensures Pending(t, StartCursor(full, job, source)) == t.rows[k..]
  {
    BlankIsAbsent(t, source);
    BlankIsAbsent(t, None);
    hide Coerce, Orderly, Pending, StartsAfter;
    k := PendingStartsAfter(t, StartCursor(full, job, source));
    if full {
      StartsWithFirst(t, k);
    } else if Blank(job) && Blank(source) {
      StartsWithFirst(t, k);
    }
  }

  lemma UnreadableStart(t: Table, full: bool, job: Option<string>, source: Option<string>)
    ensures !Readable(t, full, job, source) ==> Coerce(t.cursorType, StartCursor(full, job, source)).BadValue?
  {
    BlankIsAbsent(t, source);
    hide Coerce;
  }

  /** Nothing stored, nothing passed. */
  lemma StartsWithFirst(t: Table, k: nat)
    requires StartsAfter(t, None, k)
    ensures k == 0 && forall c :: Blank(c) ==> StartsAfter(t, c, k)
  {
  }

  /** A query from `c` returns what a job started at `start` still has to do after k rows. */
  ghost predicate StandsAt(t: Table, start: Option<string>, c: Option<string>, k: nat) {
    && k <= |Pending(t, start)| && c == CursorAt(t, start, k)
    && !Coerce(t.cursorType, c).BadValue? && Pending(t, c) == Pending(t, start)[k..]
  }

  lemma CursorStands(t: Table, start: Option<string>, k: nat)
    requires Listing(t, start) && k <= |Pending(t, start)|
    ensures StandsAt(t, start, CursorAt(t, start, k), k)
    ensures k > 0 ==> Filled(CursorAt(t, start, k))
  {
    hide Pending, Coerce, CursorText;
    if k > 0 {
      DistinctPending(t, start, k);
      CursorCutsPending(t, start, k);
      TextIsFilled(t, start, k);
    }
  }

  lemma TextIsFilled(t: Table, start: Option<string>, k: nat)
    requires Storable(t, t.rows) && SortedRows(t, t.rows) && 0 < k <= |Pending(t, start)|
    ensures CursorText(Pending(t, start)[k - 1]) != ""
  {
    hide IntText, IsoFormat;
    CursorCutsPending(t, start, k);
    var c := Some(CursorText(Pending(t, start)[k - 1]));
    assert Coerce(t.cursorType, c) != Absent;
  }

  /** One query further: the next rows of the listing and the cursor after them. */
  lemma FetchAdvances(t: Table, start: Option<string>, c: Option<string>, k: nat, chunk: nat)
    requires Listing(t, start) && StandsAt(t, start, c, k) && chunk > 0
    ensures var f, todo := FetchNextChunk(t, c, chunk), Pending(t, start);
            var m := if |todo| - k > chunk then chunk else |todo| - k;
            && f.Rows? && f.rows == todo[k..k + m] && |f.rows| == m
            && StandsAt(t, start, f.newCursor, k + m) && f.newCursor == CursorAt(t, start, k + m)
            && (m > 0 ==> Filled(f.newCursor))
  {
    hide Pending, Coerce, CursorText, FetchNextChunk, Filled;
    FetchIsPrefix(t, c, chunk);
    var todo := Pending(t, start);
    var m := if |todo| - k > chunk then chunk else |todo| - k;
    assert Pending(t, c)[..m] == todo[k..k + m];
    CursorStands(t, start, k + m);
  }

  /** The cursor of the next round: an empty new one leaves the old. */
  function NextCursor(t: Table, c: Option<string>, chunk: nat): Option<string> {
    match FetchNextChunk(t, c, chunk)
    case FetchError => c
    case Rows(_, newCursor) => OrElse(newCursor, c)
  }

  /** The rows that a job sends from cursor `c` on, after `total` of them, when nothing fails. */
  function RowsSent(t: Table, c: Option<string>, chunk: nat, total: nat): seq<Row>
    decreases HARD_MAX_ROWS - total
  {
    if total >= HARD_MAX_ROWS then []
    else
      match FetchNextChunk(t, c, chunk)
      case FetchError => []
      case Rows(rows, _) =>
        if rows == [] then []
        else if |rows| < chunk then rows
        else rows + RowsSent(t, NextCursor(t, c, chunk), chunk, total + |rows|)
  }

  // ------------------------------------------------------------------
  // The processor
  // ------------------------------------------------------------------

  /** What happens to one round of the loop. The bulk call's own answers are `h`. */
  datatype Round = Smooth(h: Health) | FetchFails | BulkRaises | CommitFails(h: Health)

  datatype Outcome = Outcome(done: bool, indexed: nat, skipped: nat, failed: nat, cursor: Option<string>)

  /** No item the engine was given comes back with an error. */
  ghost predicate NoItemErrors(rounds: nat -> Round) {
    forall i :: (rounds(i).Smooth? || rounds(i).CommitFails?) ==> Healthy(rounds(i).h)
  }

  /** What a run of the processor started with; `well`: its engine reports no item errors. */
  datatype Origin = Origin(
    table: Table, source: DbSource, model: Model, start: Option<string>, s0: Store, job0: Option<string>, well: bool)
  {
    function Todo(): seq<Row> {
      Pending(table, start)
    }

    function Items(k: nat): seq<Item>
      requires k <= |Todo()|
    {
      RowsToItems(source, Todo()[..k])
    }
  }

  class DbJobProcessor {
    var lastCursorValue: Option<string>
    const job: JobRow
    const index: IndexingService

    constructor (job: JobRow, lastCursor: Option<string>, index: IndexingService)
      ensures this.job == job && lastCursorValue == lastCursor && this.index == index
    {
      this.job, lastCursorValue, this.index := job, lastCursor, index;
    }

    method PromoteCursorToSource(finalCursor: Option<string>)
      modifies this`lastCursorValue
      ensures lastCursorValue == OrElse(finalCursor, old(lastCursorValue))
    {
      if finalCursor.None? || finalCursor.value == "" {
        return;
      }
      lastCursorValue := finalCursor;
    }

    /** Convert and index one chunk of rows. */
    method IndexRows(
      source: DbSource, model: Model, rows: seq<Row>, h: Health, ghost o: Origin, ghost listed: bool, ghost k: nat,
      ghost cursor: Option<string>, ghost chunk: nat, ghost taken: seq<bool>, ghost tally: BulkResult)
      returns (res: BulkResult, ghost more: seq<bool>)
      requires source == o.source && model == o.model && chunk > 0
      requires listed ==>
                 && Listing(o.table, o.start) && Reached(o, k, index.State(), cursor, taken, tally)
                 && FetchNextChunk(o.table, cursor, chunk).Rows? && FetchNextChunk(o.table, cursor, chunk).rows == rows
                 && (o.well ==> Healthy(h))
      modifies index
      ensures res.indexed + res.skipped + res.failed == |rows|
      ensures listed ==> Reached(o, k + |rows|, index.State(), FetchNextChunk(o.table, cursor, chunk).newCursor,
                                 taken + more, Sum(tally, res))
    {
      hide Pending, Reached, PutAll, FetchNextChunk, RowsToItems, Prepared, Apply, CountWritten, Listing, Healthy, Sum;
      ghost var before := index.State();
      var items := RowsToItems(source, rows);
      res := index.IndexBulk(items, model, h);
      more := AcceptedOf(items, model, h);
      if listed {
        ReachedNext(o, k, before, cursor, taken, tally, chunk, h, res);
      }
    }

    /** The second half of a round: index the rows, then commit counters and cursor. */
    method SendAndCommit(
      source: DbSource, model: Model, rows: seq<Row>, newCursor: Option<string>, round: Round, ghost o: Origin,
      ghost listed: bool, ghost k: nat, ghost cursor: Option<string>, ghost chunk: nat, ghost taken: seq<bool>,
      ghost tally: BulkResult)
      returns (ok: bool, res: BulkResult, ghost more: seq<bool>)
      requires (round.Smooth? || round.CommitFails?) && source == o.source && model == o.model
      requires rows != [] && chunk > 0 && FetchNextChunk(o.table, cursor, chunk) == Rows(rows, newCursor)
      requires listed ==> && Listing(o.table, o.start) && CommittedAt(o, k, job.cursorValue) && Filled(newCursor)
                          && Reached(o, k, index.State(), cursor, taken, tally) && (o.well ==> Healthy(round.h))
      modifies job, index
      ensures ok == round.Smooth? && res.indexed + res.skipped + res.failed == |rows|
      ensures job.counters == if ok then Added(old(job.counters), res) else old(job.counters)
      ensures listed ==>
                && Reached(o, k + |rows|, index.State(), OrElse(newCursor, cursor), taken + more, Sum(tally, res))
                && CommittedAt(o, if ok then k + |rows| else k, job.cursorValue)
    {
      hide Coerce, Pending, CursorAt, Reached, CommittedAt, FetchNextChunk, Listing, Healthy, OrElse, Added, RowsToItems,
           Sum;
      res, more := IndexRows(source, model, rows, round.h, o, listed, k, cursor, chunk, taken, tally);
      FilledWins(newCursor, cursor);
      ok := round.Smooth?;
      if ok {
        job.CommitChunkProgress(newCursor, res);
        if listed {
          CommittedHere(o, k + |rows|, index.State(), newCursor, taken + more, Sum(tally, res));
        }
      }
    }

    /**
     The loop, until the listing ends, the cap is reached or something fails. `lost` is what a
     failed query or bulk call adds to the failures that are reported, `taken` says which rows of
     those sent have a document that the engine accepted.
     */
    method RunRounds(
      t: Table, source: DbSource, model: Model, start: Option<string>, rounds: nat -> Round, ghost o: Origin)
      returns (
        broken: bool, done: BulkResult, lost: nat, finalCursor: Option<string>, ghost committed: nat, ghost written: nat,
        ghost taken: seq<bool>)
      requires o == Origin(t, source, model, start, index.State(), job.cursorValue, NoItemErrors(rounds))
      modifies job, index
      ensures Balanced(old(job.counters), job.counters) && job.counters.processed == old(job.counters.processed) + committed
      ensures !broken ==> lost == 0 && job.counters == Added(old(job.counters), done)
      ensures !broken ==> written == |RowsSent(t, start, ChunkSize(source), 0)|
      ensures Coerce(t.cursorType, start).BadValue? ==>
                broken && written == 0 && index.State() == old(index.State()) && job.cursorValue == old(job.cursorValue)
      ensures Listing(t, start) ==>
                && Reached(o, written, index.State(), finalCursor, taken, done) && CommittedAt(o, committed, job.cursorValue)
                && committed <= written && (!broken ==> committed == written)
                && (!broken ==> written == |Pending(t, start)| || written >= HARD_MAX_ROWS)
                && ((forall i :: rounds(i).Smooth?) ==> !broken)
    {
      hide Coerce, Pending, CursorAt, Reached, CommittedAt, PutAll, FetchNextChunk, RowsToItems, Prepared, Apply,
           CountWritten, Listing, NoItemErrors, Healthy, OrElse, RowsSent, SentSoFar, ChunkSize, Added, Balanced, Sum;
      var chunkSize := ChunkSize(source);
      ghost var c0, listed := job.counters, Listing(t, start);
      var currentCursor, total: nat, round: nat := start, 0, 0;
      broken, done, lost, finalCursor, committed, written, taken := false, BulkResult(0, 0, 0), 0, start, 0, 0, [];
      if listed {
        ReachedStart(o);
      }
      NothingSent(t, start, chunkSize);
      NothingAdded(c0);
      while true
        invariant !broken && total == done.indexed + done.skipped + done.failed == committed == written
        invariant job.counters == Added(c0, done) && finalCursor == currentCursor && lost == 0
        invariant SentSoFar(t, start, chunkSize, currentCursor, total)
        invariant Coerce(t.cursorType, start).BadValue? ==>
                    total == 0 && currentCursor == start && index.State() == o.s0 && job.cursorValue == o.job0
        invariant listed ==> Reached(o, total, index.State(), currentCursor, taken, done)
        invariant listed ==> CommittedAt(o, total, job.cursorValue)
        decreases HARD_MAX_ROWS - total
      {
        AddedBalances(c0, done);
        SendsOneRound(t, start, chunkSize, currentCursor, total);
        if total >= HARD_MAX_ROWS {
          break;
        }
        var fetched := FetchNextChunk(t, currentCursor, chunkSize);
        BadCursorFails(t, currentCursor, chunkSize);
        if listed {
          ReachedFetch(o, total, index.State(), currentCursor, taken, done, chunkSize);
        }
        if rounds(round).FetchFails? || fetched.FetchError? {
          lost, broken := 1, true;
          break;
        }
        var rows, newCursor := fetched.rows, fetched.newCursor;
        if rows == [] {
          break;
        }
        if rounds(round).BulkRaises? {
          lost, broken := |rows|, true;
          break;
        }
        RoundIsHealthy(rounds, round);
        ghost var before := done;
        ghost var more: seq<bool>;
        var committing, res;
        committing, res, more := SendAndCommit(
          source, model, rows, newCursor, rounds(round), o, listed, total, currentCursor, chunkSize, taken, done);
        SumIs(done, res);
        done := BulkResult(done.indexed + res.indexed, done.skipped + res.skipped, done.failed + res.failed);
        total := total + (res.indexed + res.skipped + res.failed);
        finalCursor := OrElse(newCursor, finalCursor);
        written, taken := total, taken + more;
        if !committing {
          broken := true;
          break;
        }
        AddedTwice(c0, before, res);
        AddedBalances(c0, done);
        currentCursor, committed, round := finalCursor, total, round + 1;
        if |rows| < chunkSize {
          break;
        }
      }
    }

    /**
     The counters balance whatever fails. A full job starts with the first row of the table, any
     other after its own cursor or else the source's (`StartsAt`). The index holds exactly the
     accepted documents of the first `written` rows from there, all of theirs if the engine
     reports no item errors; the committed cursor never runs ahead of them, and the source's cursor
     moves only when the job is done. A promotion that raises (`promoteFails`) is swallowed: the job
     is done all the same and the source keeps its cursor. An item error or a failing embedding
     does not stop the job: the cursor passes the rows that were refused (DbRuns.MissingRowsIff).
     */
    method ProcessDbJob(
      t: Table, source: DbSource, model: Model, full: bool, rounds: nat -> Round, promoteFails: bool)
      returns (r: Outcome, ghost from: nat, ghost written: nat, ghost taken: seq<bool>)
      modifies this, job, index
      ensures Balanced(old(job.counters), job.counters)
      ensures r.done ==>
                written == |RowsSent(t, StartCursor(full, old(job.cursorValue), old(lastCursorValue)), ChunkSize(source), 0)|
      ensures !r.done || promoteFails ==> lastCursorValue == old(lastCursorValue)
      ensures !Readable(t, full, old(job.cursorValue), old(lastCursorValue)) ==>
                !r.done && index.State() == old(index.State()) && job.cursorValue == old(job.cursorValue)
      ensures r.done ==> job.counters == Added(old(job.counters), BulkResult(r.indexed, r.skipped, r.failed))
      ensures Orderly(t) && Readable(t, full, old(job.cursorValue), old(lastCursorValue)) ==>
                var committed := job.counters.processed - old(job.counters.processed);
                && StartsAt(t, full, old(job.cursorValue), old(lastCursorValue), from)
                && 0 <= committed <= written && from + written <= |t.rows| && |taken| == written
                && var items := RowsToItems(source, t.rows[from..from + written]);
                && index.State() == PutAccepted(old(index.State()), items, taken, model)
                && (forall i :: 0 <= i < written && taken[i] ==> DocOf(items[i], model).Some?)
                && r.indexed == CountTaken(taken) && r.skipped == written - |Prepared(items, model)|
                && (NoItemErrors(rounds) ==> index.State() == PutAll(old(index.State()), items, model)
                                             && r.indexed == |Prepared(items, model)| && (r.done ==> r.failed == 0))
                && job.cursorValue == (if committed == 0 then old(job.cursorValue)
                                       else Some(CursorText(t.rows[from + committed - 1])))
                && (r.done ==>
                      && committed == written && (from + written == |t.rows| || written >= 1_000_000)
                      && r.indexed + r.failed == |Prepared(items, model)|
                      && (!promoteFails ==>
                            lastCursorValue == if written > 0 then Some(CursorText(t.rows[from + written - 1]))
                                               else if full || Blank(old(job.cursorValue)) then old(lastCursorValue)
                                               else old(job.cursorValue)))
                && ((forall i :: rounds(i).Smooth?) ==> r.done)
    {
      hide Pending, CursorAt, Reached, CommittedAt, PutAll, PutAccepted, RowsToItems, Prepared, Orderly, Listing,
           NoItemErrors, StartCursor, OrElse, RowsSent, CountTaken, DocOf, Coerce, StartsAt, Readable,
           CursorText, Added, Balanced, Blank;
      var start := StartCursor(full, job.cursorValue, lastCursorValue);
      ghost var o := Origin(t, source, model, start, index.State(), job.cursorValue, NoItemErrors(rounds));
      ghost var last0 := lastCursorValue;
      from := 0;
      UnreadableStart(t, full, job.cursorValue, lastCursorValue);
      if Orderly(t) && Readable(t, full, job.cursorValue, lastCursorValue) {
        from := StartOfJob(t, full, job.cursorValue, lastCursorValue);
      }
      var broken, done, lost, finalCursor, committed, sent, accepted := RunRounds(t, source, model, start, rounds, o);
      written, taken := sent, accepted;
      if Orderly(t) && Readable(t, full, o.job0, last0) {
        SentMeans(o, full, last0, from, sent, committed, index.State(), finalCursor, taken, done, job.cursorValue);
      }
      if !broken && !promoteFails {
        PromoteCursorToSource(finalCursor);
      }
      r := Outcome(!broken, done.indexed, done.skipped, done.failed + lost, finalCursor);
    }
  }

  lemma BadCursorFails(t: Table, c: Option<string>, chunk: nat)
    ensures Coerce(t.cursorType, c).BadValue? ==> FetchNextChunk(t, c, chunk).FetchError?
  {
  }

  ghost predicate SentSoFar(t: Table, start: Option<string>, chunk: nat, c: Option<string>, total: nat) {
    total + |RowsSent(t, c, chunk, total)| == |RowsSent(t, start, chunk, 0)|
  }

  lemma NothingSent(t: Table, start: Option<string>, chunk: nat)
    ensures SentSoFar(t, start, chunk, start, 0)
  {
  }

  lemma SendsOneRound(t: Table, start: Option<string>, chunk: nat, c: Option<string>, total: nat)
    requires SentSoFar(t, start, chunk, c, total)
    ensures var f, all := FetchNextChunk(t, c, chunk), |RowsSent(t, start, chunk, 0)|;
            if total >= HARD_MAX_ROWS || f.FetchError? || f.rows == [] then total == all
            else if |f.rows| < chunk then total + |f.rows| == all
            else SentSoFar(t, start, chunk, OrElse(f.newCursor, c), total + |f.rows|)
  {
    hide FetchNextChunk;
    assert NextCursor(t, c, chunk)
        == var f := FetchNextChunk(t, c, chunk); if f.FetchError? then c else OrElse(f.newCursor, c);
  }

  /** The job row's cursor after k rows have been committed. */
  ghost predicate CommittedAt(o: Origin, k: int, cursor: Option<string>) {
    0 <= k <= |o.Todo()| && cursor == if k == 0 then o.job0 else CursorAt(o.table, o.start, k)
  }

  lemma CommittedMeans(o: Origin, k: int, cursor: Option<string>)
    requires CommittedAt(o, k, cursor)
    ensures 0 <= k <= |o.Todo()| && cursor == if k == 0 then o.job0 else CursorAt(o.table, o.start, k)
  {
  }

  lemma CommittedHere(
    o: Origin, k: nat, store: Store, cursor: Option<string>, taken: seq<bool>, tally: BulkResult)
    requires Reached(o, k, store, cursor, taken, tally) && k > 0
    ensures CommittedAt(o, k, cursor)
  {
    hide Pending, Accepts, RowsToItems, CursorAt;
  }

  lemma RoundIsHealthy(rounds: nat -> Round, i: nat)
    requires rounds(i).Smooth? || rounds(i).CommitFails?
    ensures NoItemErrors(rounds) ==> Healthy(rounds(i).h)
  {
  }

  lemma FilledWins(c: Option<string>, other: Option<string>)
    ensures Filled(c) ==> OrElse(c, other) == c
  {
  }

  lemma SumIs(a: BulkResult, b: BulkResult)
    ensures Sum(a, b) == BulkResult(a.indexed + b.indexed, a.skipped + b.skipped, a.failed + b.failed)
  {
  }

  /** The job has gone through the first k pending rows: its cursor is there, and the index has what was accepted of them. */
  ghost predicate Reached(
    o: Origin, k: nat, store: Store, cursor: Option<string>, taken: seq<bool>, tally: BulkResult)
  {
    && k <= |o.Todo()| && StandsAt(o.table, o.start, cursor, k)
    && Accepts(o.s0, o.Items(k), o.model, taken, store, tally, o.well)
  }

  lemma ReachedStart(o: Origin)
    requires Listing(o.table, o.start)
    ensures CommittedAt(o, 0, o.job0) && Reached(o, 0, o.s0, o.start, [], BulkResult(0, 0, 0))
  {
    hide Accepts;
    CursorStands(o.table, o.start, 0);
    NothingAccepted(o.s0, o.model, o.well);
    assert o.Items(0) == [];
  }

  lemma ReachedMeans(
    o: Origin, k: nat, store: Store, cursor: Option<string>, taken: seq<bool>, tally: BulkResult)
    requires Reached(o, k, store, cursor, taken, tally)
    ensures k <= |o.Todo()| && |taken| == k && cursor == CursorAt(o.table, o.start, k)
    ensures var items := o.Items(k);
            && store == PutAccepted(o.s0, items, taken, o.model)
            && (forall i :: 0 <= i < k && taken[i] ==> DocOf(items[i], o.model).Some?)
            && tally == BulkResult(CountTaken(taken), k - |Prepared(items, o.model)|,
                                   |Prepared(items, o.model)| - CountTaken(taken))
            && (o.well ==> store == PutAll(o.s0, items, o.model) && tally.failed == 0)
  {
    hide DocOf, RowsToItems, Prepared, PutAccepted, PutAll, Pending, CountTaken;
    if o.well {
      AllAcceptedIsPutAll(o.s0, o.Items(k), taken, o.model);
    }
  }

  /** Places among the pending rows as places in the table. */
  lemma PlaceInTable(o: Origin, from: nat, written: nat, committed: nat)
    requires from <= |o.table.rows| && o.Todo() == o.table.rows[from..] && committed <= written <= |o.Todo()|
    ensures from + written <= |o.table.rows| && o.Items(written) == RowsToItems(o.source, o.table.rows[from..from + written])
    ensures (written == |o.Todo()| <==> from + written == |o.table.rows|)
    ensures committed > 0 ==>
              CursorAt(o.table, o.start, committed) == Some(CursorText(o.table.rows[from + committed - 1]))
  {
    hide Pending, RowsToItems, CursorText;
    assert o.Todo()[..written] == o.table.rows[from..from + written];
  }

  /** What a finished job leaves as the source's cursor. */
  lemma PromotedFrom(o: Origin, full: bool, last: Option<string>, from: nat, written: nat)
    requires Listing(o.table, o.start) && o.start == StartCursor(full, o.job0, last)
    requires from <= |o.table.rows| && o.Todo() == o.table.rows[from..] && written <= |o.Todo()|
    ensures OrElse(CursorAt(o.table, o.start, written), last)
         == if written > 0 then Some(CursorText(o.table.rows[from + written - 1]))
            else if full || Blank(o.job0) then last else o.job0
  {
    hide Pending, CursorText, Coerce;
    if written > 0 {
      CursorStands(o.table, o.start, written);
    }
  }

  /** What the loop leaves, in places of the table. */
  lemma SentMeans(
    o: Origin, full: bool, last: Option<string>, from: nat, written: nat, committed: nat, store: Store,
    cursor: Option<string>, taken: seq<bool>, tally: BulkResult, jobCursor: Option<string>)
    requires Reached(o, written, store, cursor, taken, tally) && CommittedAt(o, committed, jobCursor) && committed <= written
    requires Listing(o.table, o.start) && o.start == StartCursor(full, o.job0, last)
    requires from <= |o.table.rows| && o.Todo() == o.table.rows[from..]
    ensures from + written <= |o.table.rows| && |taken| == written
    ensures (written == |o.Todo()| <==> from + written == |o.table.rows|)
    ensures var items := RowsToItems(o.source, o.table.rows[from..from + written]);
            && store == PutAccepted(o.s0, items, taken, o.model)
            && (forall i :: 0 <= i < written && taken[i] ==> DocOf(items[i], o.model).Some?)
            && tally.indexed == CountTaken(taken) && tally.skipped == written - |Prepared(items, o.model)|
            && tally.indexed + tally.failed == |Prepared(items, o.model)|
            && (o.well ==> store == PutAll(o.s0, items, o.model) && tally.failed == 0)
    ensures jobCursor == if committed == 0 then o.job0 else Some(CursorText(o.table.rows[from + committed - 1]))
    ensures OrElse(cursor, last)
         == if written > 0 then Some(CursorText(o.table.rows[from + written - 1]))
            else if full || Blank(o.job0) then last else o.job0
  {
    hide Pending, Reached, CommittedAt, RowsToItems, CursorText, PutAccepted, PutAll, DocOf, Prepared, CountTaken,
         Listing, StartCursor, OrElse, CursorAt, Blank;
    ReachedMeans(o, written, store, cursor, taken, tally);
    CommittedMeans(o, committed, jobCursor);
    PlaceInTable(o, from, written, committed);
    PromotedFrom(o, full, last, from, written);
  }

  /** The query of one round. */
  lemma ReachedFetch(
    o: Origin, k: nat, store: Store, cursor: Option<string>, taken: seq<bool>, tally: BulkResult, chunk: nat)
    requires Listing(o.table, o.start) && Reached(o, k, store, cursor, taken, tally) && chunk > 0
    ensures var f, n := FetchNextChunk(o.table, cursor, chunk), |o.Todo()|;
            && f.Rows? && k + |f.rows| <= n && (|f.rows| < chunk ==> k + |f.rows| == n)
            && (f.rows != [] ==> Filled(f.newCursor))
  {
    hide Accepts, RowsToItems, Pending, Coerce, FetchNextChunk, CursorAt, Filled;
    FetchAdvances(o.table, o.start, cursor, k, chunk);
  }

  /** One round of the loop: whatever the engine answers, the job is `rows` further. */
  lemma ReachedNext(
    o: Origin, k: nat, store: Store, cursor: Option<string>, taken: seq<bool>, tally: BulkResult, chunk: nat, h: Health,
    res: BulkResult)
    requires Listing(o.table, o.start) && Reached(o, k, store, cursor, taken, tally) && chunk > 0
    requires FetchNextChunk(o.table, cursor, chunk).Rows? && (o.well ==> Healthy(h))
    requires var items := RowsToItems(o.source, FetchNextChunk(o.table, cursor, chunk).rows);
             var n := |Prepared(items, o.model)|;
             && res.indexed == CountWritten(h, n) && res.skipped == |items| - n
             && res.indexed + res.skipped + res.failed == |items|
    ensures var f := FetchNextChunk(o.table, cursor, chunk);
            var items := RowsToItems(o.source, f.rows);
            var prepared := Prepared(items, o.model);
            Reached(o, k + |f.rows|, Apply(store, prepared, h, |prepared|), f.newCursor,
                    taken + AcceptedOf(items, o.model, h), Sum(tally, res))
  {
    hide Prepared, Apply, Healthy, RowsToItems, Pending, Coerce, FetchNextChunk, CursorAt, Filled, CountWritten, StandsAt,
         Accepts, Sum, AcceptedOf;
    FetchAdvances(o.table, o.start, cursor, k, chunk);
    MoreIndexed(o, k, store, taken, tally, FetchNextChunk(o.table, cursor, chunk).rows, h, res);
  }

  /** Indexing the next rows on top of the first k is indexing the first k + |rows|, accepted or refused one by one. */
  lemma MoreIndexed(
    o: Origin, k: nat, store: Store, taken: seq<bool>, tally: BulkResult, rows: seq<Row>, h: Health, res: BulkResult)
    requires k + |rows| <= |o.Todo()| && rows == o.Todo()[k..k + |rows|] && (o.well ==> Healthy(h))
    requires Accepts(o.s0, o.Items(k), o.model, taken, store, tally, o.well)
    requires var n := |Prepared(RowsToItems(o.source, rows), o.model)|;
             && res.indexed == CountWritten(h, n) && res.skipped == |rows| - n
             && res.indexed + res.skipped + res.failed == |rows|
    ensures var items := RowsToItems(o.source, rows);
            var prepared := Prepared(items, o.model);
            Accepts(o.s0, o.Items(k + |rows|), o.model, taken + AcceptedOf(items, o.model, h),
                    Apply(store, prepared, h, |prepared|), Sum(tally, res), o.well)
  {
    hide Accepts, Prepared, Apply, Healthy, RowsToItems, AcceptedOf, Sum, CountWritten;
    assert o.Todo()[..k] + rows == o.Todo()[..k + |rows|];
    RowsToItemsConcat(o.source, o.Todo()[..k], rows);
    MoreAccepted(o.s0, o.Items(k), o.model, taken, store, tally, o.well, RowsToItems(o.source, rows), h, res);
  }
}
