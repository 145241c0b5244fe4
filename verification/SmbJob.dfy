/**
 One file indexing job (app/services/smb_job_processor.py:136-210, 332-629): walk the files, collect
 items and state rows, flush them in batches, commit counters and checkpoint, and at the end
 overwrite the job's counters with the totals.
 */
module SmbJob {
  import opened Wrappers
  import opened Text
  import opened SearchIndex
  import opened JobProgress
  import opened FileScan
  import opened FileResume
  import FileAgreement
  import FileRuns

  const HARD_MAX_FILES := 200_000

  /** A row for a path that is not among the pending ones may be written before them. */
  lemma {:induction false} UpsertEarlier(states: States, rows: seq<StateRow>, r: StateRow)
    requires forall i :: 0 <= i < |rows| ==> rows[i].path != r.path
    ensures Upserted(states[r.path := r.state], rows) == Upserted(states, rows + [r])
  {
    hide Upserted;
    UpsertedSnoc(states, rows, r);
    NothingUpserted(states);
    NothingUpserted(states[r.path := r.state]);
    if rows != [] {
      var first, last := rows[..|rows| - 1], rows[|rows| - 1];
      assert rows == first + [last];
      UpsertEarlier(states, first, r);
      UpsertedSnoc(states, first, r);
      UpsertedSnoc(states, first, last);
      UpsertedSnoc(states[r.path := r.state], first, last);
    }
  }

  /** What fails outside: the walk before a file, a state write, a commit, a bulk call; and the bulk calls' answers. */
  datatype Faults = Faults(
    walkFails: nat -> bool, upsertFails: nat -> bool, commitFails: nat -> bool, bulkRaises: nat -> bool,
    health: nat -> Health)

  /** The walk and the database do not fail; the engine may answer what it likes. */
  ghost predicate Quiet(f: Faults) {
    forall i :: !f.walkFails(i) && !f.upsertFails(i) && !f.commitFails(i)
  }

  ghost predicate GoodAnswers(f: Faults) {
    forall i :: !f.bulkRaises(i) && Healthy(f.health(i))
  }

  datatype SmbOutcome = SmbOutcome(
    done: bool, indexed: nat, skipped: nat, failed: nat, same: nat, cursor: Option<string>)

  /**
   Where a job came from, for saying what its state should be: the walk and the state at its
   start, and whether the engine answers well throughout.
   */
  datatype Origin = Origin(
    src: Source, states0: States, s0: Store, counters0: Counters, cursor0: Option<string>, start: Option<string>,
    todo: seq<FileEntry>, good: bool)

  /**
   How many of the handled files have had their documents sent, their rows written, and the
   checkpoint committed behind them; and which documents were accepted.
   */
  datatype Marks = Marks(flushed: nat, saved: nat, committed: nat, taken: seq<bool>)

  /** What a file adds to the pending lists. */
  datatype Grown = Neither | RowOnly | ItemAndRow

  predicate AllStorable(strict: bool, rows: seq<StateRow>) {
    forall i :: 0 <= i < |rows| ==> Storable(strict, rows[i])
  }

  /** The database takes the row: an update must have a stamp. */
  predicate Writable(strict: bool, states: States, r: StateRow) {
    (r.indexedAt.Now? || r.path !in states) && (strict ==> FitsColumns(r))
  }

  /** The fields from `items` on are the local variables of process_smb_job. */
  class SmbJobProcessor {
    var states: States
    const job: JobRow
    const index: IndexingService

    var items: seq<Item>
    var rows: seq<StateRow>
    var indexed: nat
    var skipped: nat
    var failed: nat
    var same: nat
    var processed: nat
    var lastPath: Option<string>
    var finalCursor: Option<string>
    var flushes: nat
    var upserts: nat
    ghost var marks: Marks

    constructor (states: States, job: JobRow, index: IndexingService)
      ensures this.states == states && this.job == job && this.index == index
    {
      this.states, this.job, this.index := states, job, index;
      items, rows, lastPath, finalCursor := [], [], None, None;
      indexed, skipped, failed, same, processed, flushes, upserts := 0, 0, 0, 0, 0, 0, 0;
      marks := Marks(0, 0, 0, []);
    }

    /**
     After k files every one of them is counted or pending, the committed counters balance, and
     the checkpoint stands behind the last file it was committed for.
     */
    ghost predicate Tallied(o: Origin, k: nat)
      reads this, job
    {
      && k <= |o.todo| && processed == indexed + skipped + failed + same && processed + |items| == k
      && Balanced(o.counters0, job.counters) && CheckpointAt(o, marks.committed, job.cursorValue)
      && if k == 0 then lastPath == None && finalCursor == o.start else lastPath == Some(o.todo[k - 1].relPath)
    }

    lemma TalliedMeans(o: Origin, k: nat)
      requires Tallied(o, k)
      ensures k <= |o.todo| && processed <= k && (items != [] ==> k > 0)
    {
    }

    ghost predicate OnTrack(o: Origin, k: nat)
      reads this, index
    {
      InStep(o, k, marks, states, rows, index.State(), items)
    }

    lemma OnTrackMeans(o: Origin, k: nat)
      requires OnTrack(o, k)
      ensures marks.committed <= marks.flushed && marks.saved <= marks.flushed <= k <= |o.todo|
      ensures |marks.taken| == marks.flushed
      ensures states == FinalStates(o.src, o.states0, o.todo[..marks.saved])
      ensures AllRecordable(o.src, o.states0, o.todo[..marks.saved])
      ensures index.State() == PutTaken(o.src, o.states0, o.s0, o.todo[..marks.flushed], marks.taken)
      ensures o.good ==>
                index.State() == PutAll(o.s0, ItemsToIndex(o.src, o.states0, o.todo[..marks.flushed]), o.src.model)
      ensures items == [] && rows == [] && AllRecordable(o.src, o.states0, o.todo[..k]) ==>
                states == FinalStates(o.src, o.states0, o.todo[..k])
    {
      InStepMeans(o, k, marks, states, rows, index.State(), items);
    }

    /** A job killed here, the engine having answered well, is an attempt in the sense of FileRuns. */
    lemma KilledHere(o: Origin, k: nat, full: bool, entries: seq<FileEntry>)
      requires Tallied(o, k) && OnTrack(o, k) && o.good && NamedFiles(o.todo)
      requires o.todo == FileRuns.Todo(full, entries, FileRuns.Progress(o.states0, o.s0, o.cursor0))
      ensures var a := FileRuns.Attempt(k, marks.flushed, marks.saved, marks.committed);
              && FileRuns.Ordered(a, |o.todo|)
              && FileRuns.After(o.src, full, entries, FileRuns.Progress(o.states0, o.s0, o.cursor0), a)
                   == FileRuns.Progress(states, index.State(), job.cursorValue)
    {
      hide InStep, FinalStates, PutAll, PutTaken, ItemsToIndex, FileRuns.Todo, FileRuns.After, FileRuns.Ordered,
           AllRecordable, CheckpointAt, NamedFiles;
      OnTrackMeans(o, k);
      StandsAfter(o, k, marks, states, index.State(), job.cursorValue, full, entries);
    }

    method ResetCounts()
      modifies this`indexed, this`skipped, this`failed, this`same, this`processed, this`flushes, this`upserts
      ensures indexed == skipped == failed == same == processed == flushes == upserts == 0
    {
      indexed, skipped, failed, same, processed, flushes, upserts := 0, 0, 0, 0, 0, 0, 0;
    }

    method Begin(cursorValue: Option<string>, ghost o: Origin)
      requires o.states0 == states && o.s0 == index.State() && o.counters0 == job.counters && o.start == cursorValue
      requires o.cursor0 == job.cursorValue
      modifies this
      ensures states == old(states) && Tallied(o, 0) && OnTrack(o, 0)
    {
      hide InStep;
      InStepStart(o);
      ResetCounts();
      items, rows, lastPath, finalCursor := [], [], None, cursorValue;
      marks := Marks(0, 0, 0, []);
    }

    /** The last write to the job row: the counters it started with plus the totals, and the last file. */
    method OverwriteTotals(initial: Counters, ghost o: Origin, ghost k: nat)
      requires Tallied(o, k)
      modifies this`finalCursor, job
      ensures Balanced(initial, job.counters) && job.counters.processed == initial.processed + processed
      ensures k <= |o.todo| && (items == [] ==> processed == k)
      ensures NamedFiles(o.todo) ==> job.cursorValue == if k == 0 then o.start else Some(o.todo[k - 1].relPath)
    {
      job.counters := Counters(
        initial.processed + processed, initial.indexed + indexed, initial.skipped + skipped + same, initial.failed + failed);
      finalCursor := OrElse(lastPath, finalCursor);
      job.cursorValue := finalCursor;
    }

    /**
     _batch_upsert_states: rows already there are updated at once, the others inserted at the
     end, where a missing stamp gets the column's default. An update without a stamp violates
     NOT NULL, and a strict database refuses values that are too long: the whole batch is rolled
     back and the call raises.
     */
    method BatchUpsertStates(rows: seq<StateRow>, strict: bool) returns (ok: bool)
      modifies this`states
      ensures ok <==> forall i :: 0 <= i < |rows| ==> Writable(strict, old(states), rows[i])
      ensures states == if ok then Upserted(old(states), rows) else old(states)
    {
      hide Upserted, FitsColumns;
      var before := states;
      var existing := states.Keys;
      var newRows: seq<StateRow> := [];
      NothingUpserted(states);
      for i := 0 to |rows|
        invariant existing == before.Keys
        invariant forall j :: 0 <= j < |newRows| ==> newRows[j] in rows[..i] && newRows[j].path !in existing
        invariant forall j :: 0 <= j < i ==>
                    if rows[j].path in before then Writable(strict, before, rows[j]) else rows[j] in newRows
        invariant Upserted(states, newRows) == Upserted(before, rows[..i])
      {
        assert rows[..i + 1] == rows[..i] + [rows[i]];
        UpsertedConcat(before, rows[..i], [rows[i]]);
        UpsertedConcat(states, newRows, [rows[i]]);
        if rows[i].path in existing {
          if rows[i].indexedAt.Missing? || (strict && !FitsColumns(rows[i])) {
            states := before;
            return false;
          }
          UpsertEarlier(states, newRows, rows[i]);
          states := states[rows[i].path := rows[i].state];
        } else {
          newRows := newRows + [rows[i]];
        }
      }
      assert rows[..|rows|] == rows;
      ghost var s1 := states;
      NothingUpserted(s1);
      for i := 0 to |newRows|
        invariant states == Upserted(s1, newRows[..i])
        invariant forall j :: 0 <= j < i ==> Writable(strict, before, newRows[j])
      {
        if strict && !FitsColumns(newRows[i]) {
          states := before;
          return false;
        }
        assert newRows[..i + 1] == newRows[..i] + [newRows[i]];
        UpsertedSnoc(s1, newRows[..i], newRows[i]);
        states := states[newRows[i].path := newRows[i].state];
      }
      assert newRows[..|newRows|] == newRows;
      return true;
    }

    /** _flush_index_chunk */
    method FlushIndexChunk(batch: seq<Item>, model: Model, raises: bool, h: Health) returns (r: BulkResult)
      modifies index
      ensures r.indexed + r.skipped + r.failed == |batch|
      ensures index.State() == if raises then old(index.State())
                               else Apply(old(index.State()), Prepared(batch, model), h, |Prepared(batch, model)|)
    {
      if raises {
        return BulkResult(0, 0, |batch|);
      }
      r := index.IndexBulk(batch, model, h);
    }

    /** The pending items become counts; only what the engine accepts reaches the index. */
    method FlushItems(src: Source, f: Faults, ghost o: Origin, ghost k: nat) returns (stats: BulkResult)
      requires Tallied(o, k) && OnTrack(o, k) && src == o.src && (o.good ==> GoodAnswers(f))
      modifies this`items, this`indexed, this`skipped, this`failed, this`processed, this`marks, index
      ensures Tallied(o, k) && OnTrack(o, k) && items == [] && processed == k && marks.flushed == k
      ensures marks.committed == old(marks.committed) && marks.saved == old(marks.saved)
    {
      hide InStep, Healthy, GoodAnswers, Apply, Prepared, CheckpointAt, Flushed, Balanced, Written, TakenOf, DocOf;
      var raises, h := f.bulkRaises(flushes), f.health(flushes);
      GoodAnswer(f, flushes);
      InStepFlush(o, k, marks, states, rows, index.State(), items, raises, h);
      stats := FlushIndexChunk(items, src.model, raises, h);
      marks := Flushed(o, k, marks, raises, h);
      indexed, skipped, failed := indexed + stats.indexed, skipped + stats.skipped, failed + stats.failed;
      processed, items := processed + |items|, [];
    }

    /** The pending rows reach the state table, unless the transaction fails or refuses one of them. */
    method FlushRows(src: Source, f: Faults, ghost o: Origin, ghost k: nat) returns (ok: bool)
      requires Tallied(o, k) && OnTrack(o, k) && src == o.src && (marks.flushed == k || !AllStorable(src.strict, rows))
      modifies this`states, this`rows, this`upserts, this`marks
      ensures Tallied(o, k) && OnTrack(o, k)
      ensures ok <==> !f.upsertFails(old(upserts)) && AllStorable(src.strict, old(rows))
      ensures ok ==> rows == [] && marks == old(marks).(saved := k)
      ensures !ok ==> rows == old(rows) && marks == old(marks)
    {
      hide InStep, CheckpointAt;
      if f.upsertFails(upserts) {
        return false;
      }
      WritableRows(o, k, marks, states, rows, index.State(), items);
      if AllStorable(src.strict, rows) {
        InStepUpsert(o, k, marks, states, rows, index.State(), items);
      }
      ok := BatchUpsertStates(rows, src.strict);
      if ok {
        rows, upserts := [], upserts + 1;
        marks := marks.(saved := k);
      }
    }

    /** File k is counted, or becomes pending, after the tests of the source in their order. */
    method TakeIn(src: Source, state: Option<FileState>, e: FileEntry, ghost o: Origin, ghost k: nat) returns (grown: Grown)
      requires Tallied(o, k) && OnTrack(o, k) && src == o.src && k < |o.todo| && e == o.todo[k]
      requires state == StateOf(o.states0, e.relPath)
      modifies this`items, this`rows, this`skipped, this`failed, this`same, this`processed, this`lastPath
      ensures Tallied(o, k + 1) && OnTrack(o, k + 1)
      ensures grown.RowOnly? ==> !AllStorable(src.strict, rows)
    {
      hide InStep, MetaUnchanged, ItemOf, DocIdOf, FileName, AllSpace, Strip, StateOf, CheckpointAt, Balanced;
      InStepNext(o, k, marks, states, rows, index.State(), items);
      lastPath := Some(e.relPath);
      if MetaUnchanged(state, e) {
        same, processed := same + 1, processed + 1;
        return Neither;
      }
      if src.maxSize > 0 && e.size > src.maxSize {
        skipped, processed := skipped + 1, processed + 1;
        return Neither;
      }
      var content := src.read(e.fullPath);
      if content.None? {
        failed, processed := failed + 1, processed + 1;
        return Neither;
      }
      var newHash := src.hash(content.value);
      if state.Some? && state.value.hash == newHash {
        same, processed := same + 1, processed + 1;
        rows := rows + [StateRow(e.relPath, FileState(newHash, |content.value|, e.mtime, state.value.docId), Missing)];
        assert !Storable(src.strict, rows[|rows| - 1]);
        return RowOnly;
      }
      var extracted := src.extract(FileName(e.relPath), content.value);
      if extracted.None? {
        failed, processed := failed + 1, processed + 1;
        return Neither;
      }
      if Strip(extracted.value.0) == [] {
        skipped, processed := skipped + 1, processed + 1;
        return Neither;
      }
      items := items + [ItemOf(src, e.relPath, content.value, extracted.value)];
      rows := rows + [StateRow(e.relPath, FileState(newHash, |content.value|, e.mtime, Some(DocIdOf(src, e.relPath))), Now)];
      return ItemAndRow;
    }

    /** One round of the walk: file k, and the batches it fills up. */
    method HandleFile(
      src: Source, stateIndex: States, e: FileEntry, indexChunk: nat, stateChunk: nat, f: Faults, ghost o: Origin,
      ghost k: nat)
      returns (ok: bool)
      requires Tallied(o, k) && OnTrack(o, k) && src == o.src && stateIndex == o.states0
      requires k < |o.todo| && e == o.todo[k] && (o.good ==> GoodAnswers(f))
      modifies this, job, index
      ensures Tallied(o, k + 1) && OnTrack(o, k + 1)
      ensures Quiet(f) && !ok ==> !AllRecordable(o.src, o.states0, o.todo[..k + 1])
      ensures marks.committed != old(marks.committed) ==> marks.committed == marks.flushed == k + 1
    {
      hide InStep, Quiet, Tallied, OnTrack, AllStorable, AllRecordable, GoodAnswers;
      QuietMeans(f);
      var grown := TakeIn(src, StateOf(stateIndex, e.relPath), e, o, k);
      ok := true;
      if grown.RowOnly? && |rows| >= stateChunk {
        StorableMeansRecordable(o, k + 1);
        ok := FlushRows(src, f, o, k + 1);
      } else if grown.ItemAndRow? && |items| >= indexChunk {
        var stats := FlushItems(src, f, o, k + 1);
        if |rows| >= stateChunk {
          StorableMeansRecordable(o, k + 1);
          ok := FlushRows(src, f, o, k + 1);
        }
        if ok {
          ok := CommitProgress(stats, f, o, k + 1);
        }
      }
    }

    lemma StorableMeansRecordable(o: Origin, k: nat)
      requires OnTrack(o, k)
      ensures AllStorable(o.src.strict, rows) <==> AllRecordable(o.src, o.states0, o.todo[..k])
    {
      StorableTells(o, k, marks, states, rows, index.State(), items);
    }

    /** The checkpoint moves to the last file handled. */
    method CommitProgress(stats: BulkResult, f: Faults, ghost o: Origin, ghost k: nat) returns (ok: bool)
      requires k > 0 && Tallied(o, k) && OnTrack(o, k) && marks.flushed == k
      modifies this`finalCursor, this`flushes, this`marks, job
      ensures Tallied(o, k) && OnTrack(o, k) && (ok <==> !f.commitFails(old(flushes)))
      ensures marks == if ok then old(marks).(committed := k) else old(marks)
    {
      hide InStep;
      finalCursor := OrElse(lastPath, finalCursor);
      if f.commitFails(flushes) {
        return false;
      }
      InStepCommit(o, k, marks, states, rows, index.State(), items);
      job.CommitChunkProgress(finalCursor, stats);
      flushes, ok := flushes + 1, true;
      marks := marks.(committed := k);
    }

    /** The files past the checkpoint, until the walk ends, the cap is reached or something raises. */
    method Walk(
      src: Source, entries: seq<FileEntry>, cursorValue: Option<string>, indexChunk: nat, stateChunk: nat, f: Faults,
      ghost o: Origin)
      returns (broken: bool, capped: bool, ghost k: nat)
      requires Tallied(o, 0) && OnTrack(o, 0) && src == o.src && states == o.states0 && cursorValue == o.start
      requires o.todo == ToHandle(entries, cursorValue) && (o.good ==> GoodAnswers(f))
      modifies this, job, index
      ensures Tallied(o, k) && OnTrack(o, k) && k <= |o.todo|
      ensures Quiet(f) && broken ==> !AllRecordable(o.src, o.states0, o.todo[..k])
      ensures !broken && !capped ==> k == |o.todo|
      ensures capped ==> !broken && HARD_MAX_FILES <= k < |o.todo|
    {
      hide ToHandle, AfterCursor, InStep, Quiet, CodePointLe, Tallied, OnTrack, AllRecordable, GoodAnswers;
      var stateIndex := states;
      var skipping := Filled(cursorValue);
      var j: nat := 0;
      broken, capped, k := false, false, 0;
      QuietMeans(f);
      StartOfWalk(entries, cursorValue);
      while true
        invariant j <= |entries| && k <= |o.todo| && Tallied(o, k) && OnTrack(o, k) && !broken && !capped
        invariant o.todo[k..] == if skipping then ToHandle(entries[j..], cursorValue) else entries[j..]
        invariant skipping ==> k == 0 && Filled(cursorValue)
        decreases |entries| - j
      {
        TalliedMeans(o, k);
        if f.walkFails(j) {
          broken := true;
          break;
        }
        if j == |entries| {
          EndOfWalk(entries, cursorValue);
          break;
        }
        if processed >= HARD_MAX_FILES {
          capped := true;
          break;
        }
        var e := entries[j];
        if skipping {
          SkipStep(entries, j, cursorValue);
          if CodePointLe(e.relPath, cursorValue.value) {
            j := j + 1;
            continue;
          }
          skipping := false;
        }
        assert o.todo[k + 1..] == entries[j + 1..] by {
          assert o.todo[k..][1..] == o.todo[k + 1..] && entries[j..][1..] == entries[j + 1..];
        }
        var ok := HandleFile(src, stateIndex, e, indexChunk, stateChunk, f, o, k);
        j, k := j + 1, k + 1;
        if !ok {
          broken := true;
          break;
        }
      }
    }

    /** With no items pending there is nothing left to send. */
    ghost method SkipFlush(o: Origin, k: nat)
      requires Tallied(o, k) && OnTrack(o, k) && items == []
      modifies this`marks
      ensures Tallied(o, k) && OnTrack(o, k) && marks.flushed == k && processed == k
    {
      hide InStep, TakenOf;
      var well := Health(true, i => false, i => false);
      InStepFlush(o, k, marks, states, rows, index.State(), [], false, well);
      marks := Flushed(o, k, marks, false, well);
    }

    /** What is still pending after the walk. */
    method FlushRest(src: Source, f: Faults, ghost o: Origin, ghost k: nat) returns (ok: bool)
      requires Tallied(o, k) && OnTrack(o, k) && src == o.src && (o.good ==> GoodAnswers(f))
      modifies this, job, index
      ensures Tallied(o, k) && OnTrack(o, k) && k <= |o.todo|
      ensures Quiet(f) ==> (ok <==> AllRecordable(o.src, o.states0, o.todo[..k]))
      ensures ok ==> items == [] && rows == [] && processed == k && marks.flushed == k
    {
      hide InStep, Quiet, Tallied, OnTrack, AllStorable, AllRecordable, GoodAnswers;
      QuietMeans(f);
      TalliedMeans(o, k);
      if items != [] {
        var stats := FlushItems(src, f, o, k);
        var committed := CommitProgress(stats, f, o, k);
        if !committed {
          return false;
        }
      } else {
        SkipFlush(o, k);
      }
      StorableMeansRecordable(o, k);
      if rows != [] {
        ok := FlushRows(src, f, o, k);
      } else {
        NoRowsAreStorable(src.strict);
        ok := true;
      }
    }

    /**
     Whatever fails: the counters balance, the table has the rows of the first `saved` files, all
     of them recordable, and the index the accepted documents of the first `flushed`. The last
     checkpoint is that of file `handled`, also when the documents from `flushed` on were dropped,
     which a job that ends as done never does (FileOverlaps tells what becomes of them). If walk and
     database do not fail, the job is done exactly when the walk ended under the cap and every file
     of it can be recorded (`RecordableIff`), so within the cap exactly when all files can; then everything is
     written.
     */
    method ProcessSmbJob(
      src: Source, entries: seq<FileEntry>, full: bool, indexChunk: nat, stateChunk: nat, f: Faults)
      returns (r: SmbOutcome, ghost handled: nat, ghost m: Marks)
      modifies this, job, index
      ensures Balanced(old(job.counters), job.counters)
      ensures var start := if full then None else OrElse(old(job.cursorValue), None);
              var todo := ToHandle(entries, start);
              && m.saved <= m.flushed <= handled <= |todo| && |m.taken| == m.flushed
              && (r.done ==> m.flushed == handled == |todo|)
              && (NamedFiles(todo) ==>
                    job.cursorValue == if handled == 0 then start else Some(todo[handled - 1].relPath))
              && states == FinalStates(src, old(states), todo[..m.saved]) && AllRecordable(src, old(states), todo[..m.saved])
              && index.State() == PutTaken(src, old(states), old(index.State()), todo[..m.flushed], m.taken)
              && (GoodAnswers(f) ==>
                    index.State() == PutAll(old(index.State()), ItemsToIndex(src, old(states), todo[..m.flushed]), src.model))
              && (Quiet(f) && |todo| <= HARD_MAX_FILES ==> (r.done <==> AllRecordable(src, old(states), todo)))
              && (Quiet(f) ==>
                    && (r.done <==> handled == |todo| && AllRecordable(src, old(states), todo[..handled]))
                    && (AllRecordable(src, old(states), todo[..handled]) ==>
                          && (r.done || handled >= HARD_MAX_FILES) && m.flushed == handled
                          && states == FinalStates(src, old(states), todo[..handled])
                          && job.counters.processed == old(job.counters.processed) + handled))
    {
      hide FinalStates, ItemsToIndex, PutAll, PutTaken, ToHandle, InStep, Quiet, GoodAnswers, Tallied, OnTrack, Balanced,
           NamedFiles, OrElse, AllRecordable;
      var initial := job.counters;
      var cursorValue := if full then None else OrElse(job.cursorValue, None);
      ghost var o := Origin(
        src, states, index.State(), initial, job.cursorValue, cursorValue, ToHandle(entries, cursorValue), GoodAnswers(f));
      Begin(cursorValue, o);
      var broken, capped, k := Walk(src, entries, cursorValue, indexChunk, stateChunk, f, o);
      handled := k;
      if !broken {
        var ok := FlushRest(src, f, o, k);
        broken := !ok;
      }
      OnTrackMeans(o, k);
      m := marks;
      RecordablePart(o.src, o.states0, o.todo, k);
      OverwriteTotals(initial, o, k);
      r := SmbOutcome(!broken && !capped, indexed, skipped, failed, same, finalCursor);
    }
  }

  // ------------------------------------------------------------------
  // Files that cannot be recorded
  // ------------------------------------------------------------------

  /**
   The files that cannot be recorded are those whose metadata changed and content did not, and,
   where the database is strict, new or changed files whose path has more than 62 characters
   together with the source's type and name, or whose digest has more than 64.
   */
  lemma RecordableIff(src: Source, states: States, e: FileEntry)
    ensures Recordable(src, states, e) <==>
            match VerdictOf(src, states, e)
            case HashSame(_) => false
            case Changed(_, s) =>
              src.strict ==> |src.connType| + |src.name| + |e.relPath| <= 62 && |s.hash| <= 64
            case _ => true
  {
    hide MetaUnchanged, ItemOf, Strip, FileName;
  }

  /** The row that an earlier job wrote for the one file of FileAgreement.OneFileSource. */
  function TouchedTable(digest: Bytes -> string): States {
    map["a.txt" := FileState(digest(FileAgreement.ONE_CONTENT), 1, None, Some("local:docs:a.txt"))]
  }

  lemma TouchedFileIsSame(model: Model, digest: Bytes -> string)
    ensures VerdictOf(FileAgreement.OneFileSource(model, digest), TouchedTable(digest), FileAgreement.ONE_FILE).HashSame?
  {
  }

  lemma OneTouchedFile(src: Source, states: States, e: FileEntry, n: nat)
    requires VerdictOf(src, states, e).HashSame? && n <= 1
    ensures AllRecordable(src, states, [e][..n]) <==> n == 0
  {
    hide Classify;
    assert n == 1 ==> [e][..n][0] == e;
  }

  /**
   One file whose time has changed and whose content has not, and nothing fails: the job does, and
   the file's row stays as it was, so the next job fails the same way.
   */
  method TouchOneFile(model: Model, digest: Bytes -> string, indexChunk: nat, stateChunk: nat)
    returns (done: bool, after: States)
    ensures !done && after == TouchedTable(digest)
  {
    var src := FileAgreement.OneFileSource(model, digest);
    var quiet := Faults(i => false, i => false, i => false, i => false, i => Health(true, n => false, n => false));
    var index := new IndexingService();
    var job := new JobRow(None, Counters(0, 0, 0, 0));
    var processor := new SmbJobProcessor(TouchedTable(digest), job, index);
    var r, handled, m := processor.ProcessSmbJob(src, [FileAgreement.ONE_FILE], false, indexChunk, stateChunk, quiet);
    hide FinalStates, Classify, PutTaken, ItemsToIndex, PutAll, AllRecordable;
    TouchedFileIsSame(model, digest);
    ghost var todo := ToHandle([FileAgreement.ONE_FILE], None);
    assert todo == [FileAgreement.ONE_FILE] && todo[..0] == [];
    OneTouchedFile(src, TouchedTable(digest), FileAgreement.ONE_FILE, m.saved);
    OneTouchedFile(src, TouchedTable(digest), FileAgreement.ONE_FILE, handled);
    NoFinalStates(src, TouchedTable(digest));
    return r.done, processor.states;
  }

  lemma RecordablePart(src: Source, states: States, es: seq<FileEntry>, k: nat)
    requires k <= |es|
    ensures AllRecordable(src, states, es) ==> AllRecordable(src, states, es[..k])
    ensures k == |es| ==> es[..k] == es
  {
    hide Recordable;
  }

  /** The checkpoint after the first `committed` files of a job. */
  ghost predicate CheckpointAt(o: Origin, committed: nat, cursor: Option<string>) {
    committed <= |o.todo|
    && (NamedFiles(o.todo) ==> cursor == if committed == 0 then o.cursor0 else Some(o.todo[committed - 1].relPath))
  }

  lemma StandsAfter(
    o: Origin, k: nat, m: Marks, states: States, store: Store, cursor: Option<string>, full: bool, entries: seq<FileEntry>)
    requires CheckpointAt(o, m.committed, cursor) && NamedFiles(o.todo)
    requires m.committed <= m.flushed && m.saved <= m.flushed <= k <= |o.todo|
    requires states == FinalStates(o.src, o.states0, o.todo[..m.saved])
    requires store == PutAll(o.s0, ItemsToIndex(o.src, o.states0, o.todo[..m.flushed]), o.src.model)
    requires o.todo == FileRuns.Todo(full, entries, FileRuns.Progress(o.states0, o.s0, o.cursor0))
    ensures var a := FileRuns.Attempt(k, m.flushed, m.saved, m.committed);
            && FileRuns.Ordered(a, |o.todo|)
            && FileRuns.After(o.src, full, entries, FileRuns.Progress(o.states0, o.s0, o.cursor0), a)
                 == FileRuns.Progress(states, store, cursor)
  {
    hide FinalStates, PutAll, ItemsToIndex, FileRuns.Todo;
  }

  ghost predicate NamedFiles(entries: seq<FileEntry>) {
    forall i :: 0 <= i < |entries| ==> entries[i].relPath != ""
  }

  // ------------------------------------------------------------------
  // What holds between batches
  // ------------------------------------------------------------------

  /**
   After k files: the table has the rows of the first `saved` and the others are pending, the
   index the accepted documents of the first `flushed` and the others are pending; rows are
   never written ahead of documents, nor the checkpoint committed ahead of them.
   */
  ghost predicate InStep(
    o: Origin, k: nat, m: Marks, states: States, rows: seq<StateRow>, store: Store, items: seq<Item>)
  {
    && m.committed <= m.flushed && m.saved <= m.flushed <= k <= |o.todo| && |m.taken| == m.flushed
    && states == FinalStates(o.src, o.states0, o.todo[..m.saved]) && AllRecordable(o.src, o.states0, o.todo[..m.saved])
    && rows == RowsOf(o.src, o.states0, o.todo[m.saved..k])
    && store == PutTaken(o.src, o.states0, o.s0, o.todo[..m.flushed], m.taken)
    && items == ItemsToIndex(o.src, o.states0, o.todo[m.flushed..k])
    && (o.good ==> AllDocsTaken(o.src, o.states0, o.todo[..m.flushed], m.taken))
  }

  ghost predicate AllDocsTaken(src: Source, states: States, es: seq<FileEntry>, taken: seq<bool>)
    requires |taken| == |es|
  {
    forall i :: 0 <= i < |es| && FileDoc(src, states, es[i]).Some? ==> taken[i]
  }

  function NotTaken(n: nat): seq<bool> {
    seq(n, i => false)
  }

  /** The marks after a flush of the items of all k files. */
  ghost function Flushed(o: Origin, k: nat, m: Marks, raises: bool, h: Health): Marks
    requires m.flushed <= k <= |o.todo|
  {
    Marks(k, m.saved, m.committed,
          m.taken + if raises then NotTaken(k - m.flushed) else TakenOf(o.src, o.states0, o.todo[m.flushed..k], h))
  }

  lemma InStepStart(o: Origin)
    ensures InStep(o, 0, Marks(0, 0, 0, []), o.states0, [], o.s0, [])
  {
  }

  lemma InStepMeans(o: Origin, k: nat, m: Marks, states: States, rows: seq<StateRow>, store: Store, items: seq<Item>)
    requires InStep(o, k, m, states, rows, store, items)
    ensures m.committed <= m.flushed && m.saved <= m.flushed <= k <= |o.todo| && |m.taken| == m.flushed
    ensures states == FinalStates(o.src, o.states0, o.todo[..m.saved])
    ensures AllRecordable(o.src, o.states0, o.todo[..m.saved])
    ensures store == PutTaken(o.src, o.states0, o.s0, o.todo[..m.flushed], m.taken)
    ensures o.good ==> store == PutAll(o.s0, ItemsToIndex(o.src, o.states0, o.todo[..m.flushed]), o.src.model)
    ensures items == [] && rows == [] && AllRecordable(o.src, o.states0, o.todo[..k]) ==>
              states == FinalStates(o.src, o.states0, o.todo[..k])
  {
    hide AllRecordable, PutTaken, PutAll, ItemsToIndex, RowsOf, AllDocsTaken, Upserted;
    if o.good {
      DocsTakenIsPutAll(o.src, o.states0, o.s0, o.todo[..m.flushed], m.taken);
    }
    TwoStretches(o.todo, m.saved, k);
    RowsOfConcat(o.src, o.states0, o.todo[..m.saved], o.todo[m.saved..k]);
    if rows == [] {
      var all := RowsOf(o.src, o.states0, o.todo[..m.saved]);
      assert all + [] == all;
    }
  }

  lemma TwoStretches<T>(s: seq<T>, a: nat, b: nat)
    requires a <= b <= |s|
    ensures s[..a] + s[a..b] == s[..b]
  {
  }

  lemma {:induction false} DocsTakenIsPutAll(src: Source, states: States, store: Store, es: seq<FileEntry>, taken: seq<bool>)
    requires |taken| == |es| && AllDocsTaken(src, states, es, taken)
    ensures PutTaken(src, states, store, es, taken) == PutAll(store, ItemsToIndex(src, states, es), src.model)
  {
    hide Classify, Put, DocOf;
    if es != [] {
      var n := |es| - 1;
      assert AllDocsTaken(src, states, es[..n], taken[..n]) by {
        forall i | 0 <= i < n ensures es[..n][i] == es[i] && taken[..n][i] == taken[i] {
        }
      }
      DocsTakenIsPutAll(src, states, store, es[..n], taken[..n]);
      if VerdictOf(src, states, es[n]).Changed? {
        var items := ItemsToIndex(src, states, es[..n]);
        assert (items + [VerdictOf(src, states, es[n]).item])[..|items|] == items;
      }
    }
  }

  lemma InStepNext(o: Origin, k: nat, m: Marks, states: States, rows: seq<StateRow>, store: Store, items: seq<Item>)
    requires InStep(o, k, m, states, rows, store, items) && k < |o.todo|
    ensures var e := o.todo[k];
            match VerdictOf(o.src, o.states0, e)
            case HashSame(s) => InStep(o, k + 1, m, states, rows + [StateRow(e.relPath, s, Missing)], store, items)
            case Changed(item, s) =>
              InStep(o, k + 1, m, states, rows + [StateRow(e.relPath, s, Now)], store, items + [item])
            case _ => InStep(o, k + 1, m, states, rows, store, items)
  {
    hide VerdictOf, PutTaken, FinalStates, AllRecordable, AllDocsTaken;
    NextStretch(o.todo, m.saved, k);
    NextStretch(o.todo, m.flushed, k);
  }

  lemma NextStretch<T>(s: seq<T>, a: nat, k: nat)
    requires a <= k < |s|
    ensures s[a..k + 1] != [] && s[a..k + 1][..|s[a..k + 1]| - 1] == s[a..k] && s[a..k + 1][|s[a..k + 1]| - 1] == s[k]
  {
  }

  lemma InStepFlush(
    o: Origin, k: nat, m: Marks, states: States, rows: seq<StateRow>, store: Store, items: seq<Item>, raises: bool,
    h: Health)
    requires InStep(o, k, m, states, rows, store, items) && (o.good ==> !raises && Healthy(h))
    ensures m.flushed <= k <= |o.todo|
    ensures var m' := Flushed(o, k, m, raises, h);
            m'.flushed == k && m'.committed == m.committed && m'.saved == m.saved
    ensures var actions := Prepared(items, o.src.model);
            InStep(o, k, Flushed(o, k, m, raises, h), states, rows,
                   if raises then store else Apply(store, actions, h, |actions|), [])
  {
    hide VerdictOf, PutTaken, FinalStates, AllRecordable, RowsOf, Apply, Prepared, AllDocsTaken, Healthy, TakenOf;
    var stretch := o.todo[m.flushed..k];
    var more := if raises then NotTaken(k - m.flushed) else TakenOf(o.src, o.states0, stretch, h);
    TwoStretches(o.todo, m.flushed, k);
    TakenConcat(o.src, o.states0, o.s0, o.todo[..m.flushed], m.taken, stretch, more);
    if raises {
      NoneTakenIsNothing(o.src, o.states0, store, stretch);
    } else {
      TakenIsApply(o.src, o.states0, store, stretch, h);
    }
    if o.good {
      HealthyTakesAll(o.src, o.states0, stretch, h);
      DocsTakenConcat(o.src, o.states0, o.todo[..m.flushed], m.taken, stretch, more);
    }
    assert o.todo[k..k] == [];
  }

  lemma {:induction false} NoneTakenIsNothing(src: Source, states: States, store: Store, es: seq<FileEntry>)
    ensures PutTaken(src, states, store, es, NotTaken(|es|)) == store
  {
    hide VerdictOf;
    if es != [] {
      assert NotTaken(|es|)[..|es| - 1] == NotTaken(|es| - 1);
      NoneTakenIsNothing(src, states, store, es[..|es| - 1]);
    }
  }

  lemma {:induction false} HealthyTakesAll(src: Source, states: States, es: seq<FileEntry>, h: Health)
    requires Healthy(h)
    ensures AllDocsTaken(src, states, es, TakenOf(src, states, es, h))
  {
    hide FileDoc;
    if es != [] {
      HealthyTakesAll(src, states, es[..|es| - 1], h);
      forall i | 0 <= i < |es| - 1 ensures es[..|es| - 1][i] == es[i] {
      }
    }
  }

  lemma DocsTakenConcat(
    src: Source, states: States, a: seq<FileEntry>, t: seq<bool>, b: seq<FileEntry>, u: seq<bool>)
    requires |t| == |a| && |u| == |b| && AllDocsTaken(src, states, a, t) && AllDocsTaken(src, states, b, u)
    ensures AllDocsTaken(src, states, a + b, t + u)
  {
    hide FileDoc;
  }

  /** The rows can all be written exactly if the files can all be recorded. */
  lemma {:induction false} StorableRows(src: Source, states: States, es: seq<FileEntry>)
    ensures AllStorable(src.strict, RowsOf(src, states, es)) <==> AllRecordable(src, states, es)
    ensures forall i :: 0 <= i < |RowsOf(src, states, es)| && RowsOf(src, states, es)[i].indexedAt.Missing? ==>
              RowsOf(src, states, es)[i].path in states
  {
    hide Classify, FitsColumns;
    if es != [] {
      var n := |es| - 1;
      StorableRows(src, states, es[..n]);
      if VerdictOf(src, states, es[n]).HashSame? {
        FileRuns.SameHashIsCurrent(src, states, es[n]);
      }
      assert es == es[..n] + [es[n]];
      RecordableConcat(src, states, es[..n], [es[n]]);
      OneRecordable(src, states, es[n]);
      hide Recordable, Storable;
      var before := RowsOf(src, states, es[..n]);
      match VerdictOf(src, states, es[n])
      case HashSame(s) => StorableConcat(src.strict, before, [StateRow(es[n].relPath, s, Missing)]);
      case Changed(_, s) => StorableConcat(src.strict, before, [StateRow(es[n].relPath, s, Now)]);
      case _ =>
    }
  }

  lemma StorableConcat(strict: bool, a: seq<StateRow>, b: seq<StateRow>)
    ensures AllStorable(strict, a + b) <==> AllStorable(strict, a) && AllStorable(strict, b)
  {
    hide Storable;
    if AllStorable(strict, a + b) {
      forall i | 0 <= i < |a| ensures a[i] == (a + b)[i] {
      }
      forall i | 0 <= i < |b| ensures b[i] == (a + b)[|a| + i] {
      }
    }
  }

  lemma OneRecordable(src: Source, states: States, e: FileEntry)
    ensures AllRecordable(src, states, [e]) <==> Recordable(src, states, e)
    ensures match VerdictOf(src, states, e)
            case HashSame(s) =>
              !AllRecordable(src, states, [e]) && !AllStorable(src.strict, [StateRow(e.relPath, s, Missing)])
            case Changed(_, s) => AllRecordable(src, states, [e]) <==> AllStorable(src.strict, [StateRow(e.relPath, s, Now)])
            case _ => AllRecordable(src, states, [e])
  {
    hide Classify, FitsColumns;
    assert [e][0] == e;
    var v := VerdictOf(src, states, e);
    if v.HashSame? {
      assert !Storable(src.strict, [StateRow(e.relPath, v.state, Missing)][0]);
    }
    if v.Changed? {
      assert [StateRow(e.relPath, v.state, Now)][0] == StateRow(e.relPath, v.state, Now);
    }
  }

  lemma StorableTells(o: Origin, k: nat, m: Marks, states: States, rows: seq<StateRow>, store: Store, items: seq<Item>)
    requires InStep(o, k, m, states, rows, store, items)
    ensures k <= |o.todo|
    ensures AllStorable(o.src.strict, rows) <==> AllRecordable(o.src, o.states0, o.todo[..k])
  {
    hide Recordable, PutTaken, FinalStates, RowsOf, AllStorable, AllDocsTaken;
    TwoStretches(o.todo, m.saved, k);
    StorableRows(o.src, o.states0, o.todo[m.saved..k]);
    assert AllRecordable(o.src, o.states0, o.todo[..m.saved] + o.todo[m.saved..k])
      <==> AllRecordable(o.src, o.states0, o.todo[..m.saved]) && AllRecordable(o.src, o.states0, o.todo[m.saved..k]) by {
      RecordableConcat(o.src, o.states0, o.todo[..m.saved], o.todo[m.saved..k]);
    }
  }

  lemma RecordableConcat(src: Source, states: States, a: seq<FileEntry>, b: seq<FileEntry>)
    ensures AllRecordable(src, states, a + b) <==> AllRecordable(src, states, a) && AllRecordable(src, states, b)
  {
    hide Recordable;
    if AllRecordable(src, states, a + b) {
      forall i | 0 <= i < |a| ensures a[i] == (a + b)[i] {
      }
      forall i | 0 <= i < |b| ensures b[i] == (a + b)[|a| + i] {
      }
    }
  }

  /** A row without a stamp is an update: its path is in the table. So writable rows have one. */
  lemma WritableRows(
    o: Origin, k: nat, m: Marks, states: States, rows: seq<StateRow>, store: Store, items: seq<Item>)
    requires InStep(o, k, m, states, rows, store, items)
    ensures AllStorable(o.src.strict, rows) <==> forall i :: 0 <= i < |rows| ==> Writable(o.src.strict, states, rows[i])
  {
    hide VerdictOf, PutTaken, RowsOf, AllRecordable, AllDocsTaken, Upserted;
    StorableRows(o.src, o.states0, o.todo[m.saved..k]);
    RowsStay(o.states0, RowsOf(o.src, o.states0, o.todo[..m.saved]));
  }

  lemma InStepUpsert(o: Origin, k: nat, m: Marks, states: States, rows: seq<StateRow>, store: Store, items: seq<Item>)
    requires InStep(o, k, m, states, rows, store, items) && m.flushed == k && AllStorable(o.src.strict, rows)
    ensures InStep(o, k, m.(saved := k), Upserted(states, rows), [], store, items)
  {
    StorableTells(o, k, m, states, rows, store, items);
    hide VerdictOf, PutTaken, AllRecordable, AllDocsTaken, RowsOf, Upserted;
    TwoStretches(o.todo, m.saved, k);
    RowsOfConcat(o.src, o.states0, o.todo[..m.saved], o.todo[m.saved..k]);
    UpsertedConcat(o.states0, RowsOf(o.src, o.states0, o.todo[..m.saved]), rows);
    assert o.todo[k..k] == [];
  }

  lemma NoRowsAreStorable(strict: bool)
    ensures AllStorable(strict, [])
  {
  }

  lemma InStepCommit(o: Origin, k: nat, m: Marks, states: States, rows: seq<StateRow>, store: Store, items: seq<Item>)
    requires InStep(o, k, m, states, rows, store, items) && m.flushed == k
    ensures InStep(o, k, m.(committed := k), states, rows, store, items)
  {
    hide PutTaken, FinalStates, AllRecordable, AllDocsTaken, RowsOf, ItemsToIndex;
  }

  lemma GoodAnswer(f: Faults, i: nat)
    ensures GoodAnswers(f) ==> !f.bulkRaises(i) && Healthy(f.health(i))
  {
  }

  lemma QuietMeans(f: Faults)
    ensures Quiet(f) ==> forall i: nat :: !f.walkFails(i) && !f.upsertFails(i) && !f.commitFails(i)
  {
  }

  lemma StartOfWalk(entries: seq<FileEntry>, cursor: Option<string>)
    ensures ToHandle(entries, cursor)[0..] == ToHandle(entries[0..], cursor)
    ensures !Filled(cursor) ==> ToHandle(entries, cursor) == entries[0..]
  {
    assert entries[0..] == entries;
  }

  lemma EndOfWalk(entries: seq<FileEntry>, cursor: Option<string>)
    ensures entries[|entries|..] == [] && ToHandle([], cursor) == []
  {
  }

  lemma SkipStep(entries: seq<FileEntry>, j: nat, cursor: Option<string>)
    requires j < |entries| && Filled(cursor)
    ensures ToHandle(entries[j..], cursor)
         == if CodePointLe(entries[j].relPath, cursor.value) then ToHandle(entries[j + 1..], cursor) else entries[j..]
  {
    hide CodePointLe;
    assert entries[j..][1..] == entries[j + 1..];
  }
}
