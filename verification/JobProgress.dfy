/**
 The progress columns of a sync_jobs row, and the commit that both processors make after a batch
 (app/services/db_job_processor.py:85-113, app/services/smb_job_processor.py:105-133).
 */
module JobProgress {
  import opened Wrappers
  import opened SearchIndex

  /** A cursor column that is neither NULL nor empty. */
  predicate Filled(c: Option<string>) {
    c.Some? && c.value != ""
  }

  function OrElse(c: Option<string>, other: Option<string>): Option<string> {
    if Filled(c) then c else other
  }

  datatype Counters = Counters(processed: nat, indexed: nat, skipped: nat, failed: nat)

  function Added(c: Counters, r: BulkResult): Counters {
    Counters(c.processed + r.indexed + r.skipped + r.failed, c.indexed + r.indexed, c.skipped + r.skipped,
             c.failed + r.failed)
  }

  /** Whatever `processed` grew by is spread over the other three. */
  predicate Balanced(before: Counters, after: Counters) {
    after.processed - before.processed
      == (after.indexed - before.indexed) + (after.skipped - before.skipped) + (after.failed - before.failed)
  }

  lemma NothingAdded(c: Counters)
    ensures Added(c, BulkResult(0, 0, 0)) == c
  {
  }

  lemma AddedTwice(c: Counters, r: BulkResult, s: BulkResult)
    ensures Added(Added(c, r), s)
         == Added(c, BulkResult(r.indexed + s.indexed, r.skipped + s.skipped, r.failed + s.failed))
  {
  }

  lemma AddedBalances(c: Counters, r: BulkResult)
    ensures Balanced(c, Added(c, r)) && Added(c, r).processed == c.processed + r.indexed + r.skipped + r.failed
  {
  }

  class JobRow {
    var cursorValue: Option<string>
    var counters: Counters

    constructor (cursor: Option<string>, counters: Counters)
      ensures cursorValue == cursor && this.counters == counters
    {
      cursorValue, this.counters := cursor, counters;
    }

    method CommitChunkProgress(newCursor: Option<string>, add: BulkResult)
      modifies this`cursorValue, this`counters
      ensures counters == Added(old(counters), add)
      ensures cursorValue == if newCursor.Some? then newCursor else old(cursorValue)
    {
      if newCursor.Some? {
        cursorValue := newCursor;
      }
      counters := Counters(
        counters.processed + (add.indexed + add.skipped + add.failed), counters.indexed + add.indexed,
        counters.skipped + add.skipped, counters.failed + add.failed);
    }
  }
}
