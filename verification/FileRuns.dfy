/**
 File jobs that are killed and taken up again (app/services/smb_job_processor.py:415-560). An attempt
 handles some files past its checkpoint, has sent the documents of some of these and written the
 rows of some of those, and has committed a checkpoint no later than what was sent. It is killed
 before the last overwrite of its checkpoint. The next attempt starts there; a job in full mode
 starts over. What the attempts leave in table and index, also when they overlap or die after
 that overwrite, is the subject of FileOverlaps.
 */
module FileRuns {
  import opened Wrappers
  import opened Text
  import opened SearchIndex
  import opened FileScan
  import opened FileResume

  /** How far an attempt got with the files it had to handle when it was killed. */
  datatype Attempt = Attempt(handled: nat, flushed: nat, saved: nat, committed: nat)

  /** State table, index and the job's checkpoint. */
  datatype Progress = Progress(states: States, store: Store, cursor: Option<string>)

  /** The places SmbJobProcessor keeps in this order, whatever fails. */
  predicate Ordered(a: Attempt, n: nat) {
    a.committed <= a.flushed && a.saved <= a.flushed <= a.handled <= n
  }

  function Todo(full: bool, entries: seq<FileEntry>, w: Progress): seq<FileEntry> {
    ToHandle(entries, if full then None else w.cursor)
  }

  function After(src: Source, full: bool, entries: seq<FileEntry>, w: Progress, a: Attempt): Progress
    requires Ordered(a, |Todo(full, entries, w)|)
  {
    var todo := Todo(full, entries, w);
    Progress(FinalStates(src, w.states, todo[..a.saved]),
             PutAll(w.store, ItemsToIndex(src, w.states, todo[..a.flushed]), src.model),
             if a.committed == 0 then w.cursor else Some(todo[a.committed - 1].relPath))
  }

  predicate Possible(src: Source, full: bool, entries: seq<FileEntry>, w: Progress, attempts: seq<Attempt>)
    decreases |attempts|
  {
    attempts == []
    || (Ordered(attempts[0], |Todo(full, entries, w)|)
        && Possible(src, full, entries, After(src, full, entries, w, attempts[0]), attempts[1..]))
  }

  /** How many files of the walk the next attempt skips. */
  function Position(full: bool, entries: seq<FileEntry>, w: Progress): int {
    |entries| - |Todo(full, entries, w)|
  }

  ghost predicate OrderedWalk(entries: seq<FileEntry>) {
    Increasing(entries) && forall i :: 0 <= i < |entries| ==> entries[i].relPath != ""
  }

  // ------------------------------------------------------------------
  // Stretches of the walk
  // ------------------------------------------------------------------

  lemma TodoIsSuffix(full: bool, entries: seq<FileEntry>, w: Progress)
    ensures 0 <= Position(full, entries, w) <= |entries|
    ensures Todo(full, entries, w) == entries[Position(full, entries, w)..]
  {
    if !full && w.cursor.Some? && w.cursor.value != "" {
      var k := AfterCursorIsSuffix(entries, w.cursor.value);
    }
  }

  /** The next attempt starts at the checkpoint, after the files that were committed. */
  lemma NextPosition(src: Source, full: bool, entries: seq<FileEntry>, w: Progress, a: Attempt)
    requires OrderedWalk(entries) && Ordered(a, |Todo(full, entries, w)|)
    ensures Position(full, entries, After(src, full, entries, w, a))
         == Position(full, entries, w) + if full then 0 else a.committed
  {
    hide FinalStates, PutAll, ItemsToIndex, ToHandle, Increasing;
    if !full && a.committed > 0 {
      ResumedTodo(entries, w.cursor, a.committed);
    }
  }

  /** File p of the walk is handled by some attempt. */
  ghost predicate Handled(
    src: Source, full: bool, entries: seq<FileEntry>, w: Progress, attempts: seq<Attempt>, p: nat)
    requires Possible(src, full, entries, w, attempts)
    decreases |attempts|
  {
    attempts != []
    && (Position(full, entries, w) <= p < Position(full, entries, w) + attempts[0].handled
        || Handled(src, full, entries, After(src, full, entries, w, attempts[0]), attempts[1..], p))
  }

  /** The last attempt handled, and sent the documents of, everything that was left. */
  ghost predicate ReachesEnd(src: Source, full: bool, entries: seq<FileEntry>, w: Progress, attempts: seq<Attempt>)
    requires Possible(src, full, entries, w, attempts)
    decreases |attempts|
  {
    attempts != []
    && if |attempts| == 1 then attempts[0].flushed == |Todo(full, entries, w)|
       else ReachesEnd(src, full, entries, After(src, full, entries, w, attempts[0]), attempts[1..])
  }

  /**
   On an increasing walk, however the attempts were cut short, every file past the first
   checkpoint is handled, each attempt handling one stretch of the walk. Files between the
   checkpoint and the kill are handled again.
   */
  lemma {:induction false} EveryFileIsHandled(
    src: Source, full: bool, entries: seq<FileEntry>, w: Progress, attempts: seq<Attempt>, p: nat)
    requires OrderedWalk(entries) && Possible(src, full, entries, w, attempts)
    requires ReachesEnd(src, full, entries, w, attempts) && Position(full, entries, w) <= p < |entries|
    ensures Handled(src, full, entries, w, attempts, p)
    decreases |attempts|
  {
    hide After, Todo, OrderedWalk;
    TodoIsSuffix(full, entries, w);
    var a := attempts[0];
    if p >= Position(full, entries, w) + a.handled {
      NextPosition(src, full, entries, w, a);
      EveryFileIsHandled(src, full, entries, After(src, full, entries, w, a), attempts[1..], p);
    }
  }

  /** What an attempt handled past its checkpoint, the next one has to handle again. */
  lemma UncommittedComesAgain(src: Source, full: bool, entries: seq<FileEntry>, w: Progress, a: Attempt, p: nat)
    requires OrderedWalk(entries) && Ordered(a, |Todo(full, entries, w)|) && p < |entries|
    requires Position(full, entries, w) + a.committed <= p
    ensures Position(full, entries, After(src, full, entries, w, a)) <= p
    ensures entries[p] in Todo(full, entries, After(src, full, entries, w, a))
  {
    hide After, Todo, OrderedWalk;
    NextPosition(src, full, entries, w, a);
    var w' := After(src, full, entries, w, a);
    TodoIsSuffix(full, entries, w');
    assert entries[p] == entries[Position(full, entries, w')..][p - Position(full, entries, w')];
  }

  lemma SameHashIsCurrent(src: Source, states: States, e: FileEntry)
    requires VerdictOf(src, states, e).HashSame?
    ensures src.read(e.fullPath).Some? && VerdictOf(src, states, e).state.hash == src.hash(src.read(e.fullPath).value)
    ensures e.relPath in states && states[e.relPath].hash == src.hash(src.read(e.fullPath).value)
  {
    hide FileName, DocIdOf, ItemOf, MetaUnchanged;
  }

  lemma WalkIsDistinct(entries: seq<FileEntry>)
    requires Increasing(entries)
    ensures DistinctPaths(entries)
  {
    forall i, j | 0 <= i < j < |entries| ensures entries[i].relPath != entries[j].relPath {
      CodePointRefl(entries[i].relPath);
      assert CodePointLt(entries[i].relPath, entries[j].relPath);
    }
  }
}
