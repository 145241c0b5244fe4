/**
 The job queue on the sync_jobs table (app/services/worker_service.py:175-296, 340-383,
 app/services/system_service.py:407-470, 1426-1498, app/api/admin/system.py:364-400).

 `Enqueued`, `SkipLockedChoice` and the like say what each operation does to the rows;
 `JobQueue` is the code, one operation at a time. Interleavings are the subject of QueueRuns.
 */
module JobQueue {
  import opened Wrappers
  import opened JobProgress

  const MAX_ERROR := 4000

  datatype Status = Pending | Running | Paused | Done | Failed

  datatype Job = Job(
    sourceType: string, sourceId: int, status: Status, mode: string, cursor: Option<string>, createdAt: int,
    leaseUntil: Option<int>, workerId: Option<string>, startedAt: Option<int>, finishedAt: Option<int>,
    lastError: Option<string>)

  /** Rows by id; ids are handed out in order and rows stay. */
  type Rows = seq<Job>

  predicate Active(j: Job) {
    j.status.Pending? || j.status.Running? || j.status.Paused?
  }

  predicate SameSource(a: Job, b: Job) {
    a.sourceType == b.sourceType && a.sourceId == b.sourceId
  }

  /** At most one pending, running or paused job for each source. */
  ghost predicate OneActivePerSource(rows: Rows) {
    forall i, j :: 0 <= i < j < |rows| && Active(rows[i]) && Active(rows[j]) ==> !SameSource(rows[i], rows[j])
  }

  // ------------------------------------------------------------------
  // Choosing a job
  // ------------------------------------------------------------------

  predicate Claimable(j: Job, now: int) {
    || j.status.Pending?
    || (j.status.Running? && (j.leaseUntil.None? || j.leaseUntil.value < now))
  }

  /** Another job of the same source is running under a lease that is not known to have ended. */
  predicate Blocks(rows: Rows, r: nat, id: nat, now: int)
    requires r < |rows| && id < |rows|
  {
    && r != id && SameSource(rows[r], rows[id]) && rows[r].status.Running?
    && (rows[r].leaseUntil.None? || rows[r].leaseUntil.value > now)
  }

  predicate SourceBusy(rows: Rows, id: nat, now: int)
    requires id < |rows|
  {
    exists r: nat :: r < |rows| && Blocks(rows, r, id, now)
  }

  /** ORDER BY created_at, id */
  predicate Before(rows: Rows, a: nat, b: nat)
    requires a < |rows| && b < |rows|
  {
    rows[a].createdAt < rows[b].createdAt || (rows[a].createdAt == rows[b].createdAt && a < b)
  }

  /** ... LIMIT 1, over the first n rows. */
  function Least(rows: Rows, wanted: set<nat>, n: nat): (r: Option<nat>)
    requires n <= |rows|
    ensures r.Some? ==> r.value < n && r.value in wanted
    ensures r.Some? ==> forall i: nat :: i < n && i in wanted ==> i == r.value || Before(rows, r.value, i)
    ensures r.None? ==> forall i: nat :: i < n ==> i !in wanted
  {
    if n == 0 then None
    else
      var best := Least(rows, wanted, n - 1);
      if n - 1 in wanted && (best.None? || Before(rows, n - 1, best.value)) then Some(n - 1) else best
  }

  function ClaimableIds(rows: Rows, now: int): set<nat> {
    set id: nat | id < |rows| && Claimable(rows[id], now)
  }

  /** The rows the SKIP LOCKED query may return: claimable, source free, not locked by somebody else. */
  function OpenIds(rows: Rows, now: int, locked: set<nat>): set<nat> {
    set id: nat | id < |rows| && Claimable(rows[id], now) && !SourceBusy(rows, id, now) && id !in locked
  }

  function SkipLockedChoice(rows: Rows, now: int, locked: set<nat>): (r: Option<nat>)
    ensures r.Some? ==> r.value < |rows| && r.value in OpenIds(rows, now, locked)
    ensures r.Some? ==> forall i :: i in OpenIds(rows, now, locked) ==> i == r.value || Before(rows, r.value, i)
    ensures r.None? ==> OpenIds(rows, now, locked) == {}
  {
    Least(rows, OpenIds(rows, now, locked), |rows|)
  }

  /** The oldest claimable job, dropped if its source is busy. */
  function OptimisticChoice(rows: Rows, now: int): (r: Option<nat>)
    ensures r.Some? ==> r.value < |rows| && Claimable(rows[r.value], now) && !SourceBusy(rows, r.value, now)
    ensures r.Some? ==> forall i :: i in ClaimableIds(rows, now) ==> i == r.value || Before(rows, r.value, i)
    ensures r.None? ==> forall i :: i in ClaimableIds(rows, now) && !SourceBusy(rows, i, now) ==>
                          exists k :: k in ClaimableIds(rows, now) && Before(rows, k, i) && SourceBusy(rows, k, now)
  {
    var candidate := Least(rows, ClaimableIds(rows, now), |rows|);
    if candidate.None? || SourceBusy(rows, candidate.value, now) then None else candidate
  }

  // ------------------------------------------------------------------
  // Changing rows
  // ------------------------------------------------------------------

  function Claimed(j: Job, worker: string, now: int, lease: nat): Job {
    j.(status := Running, workerId := Some(worker), leaseUntil := Some(now + lease),
       startedAt := if j.startedAt.Some? then j.startedAt else Some(now))
  }

  /** The claim in fields: the start is that of the first claim, the end and error of the row stay. */
  predicate IsClaimOf(j: Job, after: Job, worker: string, now: int, lease: nat) {
    && SameOrder(j, after) && after.status.Running? && after.workerId == Some(worker) && after.leaseUntil == Some(now + lease)
    && (j.startedAt.Some? ==> after.startedAt == j.startedAt) && (j.startedAt.None? ==> after.startedAt == Some(now))
    && after.finishedAt == j.finishedAt && after.lastError == j.lastError
  }

  /** The handlers end with "done" or "failed". */
  function Finished(j: Job, ok: bool, error: Option<string>, now: int): Job {
    j.(status := if ok then Done else Failed, finishedAt := Some(now), leaseUntil := None,
       lastError := if error.Some? && error.value != "" then Some(Clip(error.value)) else j.lastError)
  }

  function Clip(message: string): string {
    if |message| > MAX_ERROR then message[..MAX_ERROR] else message
  }

  function PausedRow(j: Job): Job {
    if j.status.Pending? || j.status.Running? then j.(status := Paused, leaseUntil := None) else j
  }

  function ResumedRow(j: Job): Job {
    if j.status.Paused? then j.(status := Pending) else j
  }

  function NewJob(sourceType: string, sourceId: int, mode: string, cursor: Option<string>, now: int): Job {
    Job(sourceType, sourceId, Pending, mode, cursor, now, None, None, None, None, None)
  }

  /** Nothing has been done about the job yet. */
  predicate Untouched(j: Job) {
    && j.status.Pending? && j.leaseUntil.None? && j.workerId.None? && j.startedAt.None? && j.finishedAt.None?
    && j.lastError.None?
  }

  /** What was asked for when the job was enqueued is as it was. */
  predicate SameOrder(a: Job, b: Job) {
    a.sourceType == b.sourceType && a.sourceId == b.sourceId && a.mode == b.mode && a.cursor == b.cursor
    && a.createdAt == b.createdAt
  }

  function ActiveIds(rows: Rows, sourceType: string, sourceId: int): set<nat> {
    set id: nat | id < |rows| && Active(rows[id]) && rows[id].sourceType == sourceType && rows[id].sourceId == sourceId
  }

  /** Row `id` changes and no other. */
  predicate OnlyRow(before: Rows, after: Rows, id: nat) {
    && id < |before| == |after| && SameOrder(before[id], after[id])
    && forall i: nat :: i < |after| && i != id ==> after[i] == before[i]
  }

  /**
   What a claim means for the other workers: until the lease has ended nobody can claim the job
   again, nor any other job of its source.
   */
  ghost predicate Exclusive(rows: Rows, id: nat, worker: string, until: int) {
    && id < |rows| && rows[id].status.Running? && rows[id].workerId == Some(worker)
    && (forall t: int :: t <= until ==> !Claimable(rows[id], t))
    && (forall k: nat, t: int :: k < |rows| && k != id && SameSource(rows[id], rows[k]) && t < until ==>
          SourceBusy(rows, k, t))
  }

  lemma ClaimIsExclusive(rows: Rows, id: nat, worker: string, now: int, lease: nat)
    requires id < |rows| && Claimable(rows[id], now)
    ensures var after := rows[id := Claimed(rows[id], worker, now, lease)];
            && OnlyRow(rows, after, id) && Exclusive(after, id, worker, now + lease)
            && (OneActivePerSource(rows) ==> OneActivePerSource(after))
  {
    var after := rows[id := Claimed(rows[id], worker, now, lease)];
    forall k: nat, t: int | k < |rows| && k != id && SameSource(after[id], after[k]) && t < now + lease
      ensures SourceBusy(after, k, t)
    {
      assert Blocks(after, id, k, t);
    }
  }

  // ------------------------------------------------------------------
  // The code
  // ------------------------------------------------------------------

  datatype DbSourceRow = DbSourceRow(
    isActive: bool, cursorColumn: string, cursorType: string, pkColumn: string, lastCursor: Option<string>)

  /** `connType` is in lower case, "smb" when the row has none. */
  datatype FileSourceRow = FileSourceRow(isActive: bool, connType: string)

  datatype Reply = Refused | Duplicate(id: nat) | Enqueued(id: nat)

  predicate ValidMode(mode: string) {
    mode == "incremental" || mode == "full"
  }

  class JobQueue {
    var rows: Rows

    constructor ()
      ensures rows == []
    {
      rows := [];
    }

    /** The check for an unfinished job of the source and the insert, nobody else writing in between. */
    method Insert(sourceType: string, sourceId: int, mode: string, cursor: Option<string>, now: int) returns (r: Reply)
      modifies this
      ensures if ActiveIds(old(rows), sourceType, sourceId) == {} then r == Enqueued(|old(rows)|) else r.Duplicate?
      ensures r.Duplicate? ==> r.id in ActiveIds(old(rows), sourceType, sourceId) && rows == old(rows)
      ensures r.Enqueued? ==>
                && rows == old(rows) + [NewJob(sourceType, sourceId, mode, cursor, now)]
                && var j := rows[|old(rows)|];
                && j.sourceType == sourceType && j.sourceId == sourceId && j.mode == mode && j.cursor == cursor
                && j.createdAt == now && Untouched(j)
      ensures old(OneActivePerSource(rows)) ==> OneActivePerSource(rows)
    {
      for id := 0 to |rows|
        invariant forall i: nat :: i < id ==> i !in ActiveIds(rows, sourceType, sourceId)
      {
        if Active(rows[id]) && rows[id].sourceType == sourceType && rows[id].sourceId == sourceId {
          assert id in ActiveIds(rows, sourceType, sourceId);
          return Duplicate(id);
        }
      }
      assert ActiveIds(rows, sourceType, sourceId) == {};
      FreshJobKeepsOne(rows, NewJob(sourceType, sourceId, mode, cursor, now));
      r := Enqueued(|rows|);
      rows := rows + [NewJob(sourceType, sourceId, mode, cursor, now)];
    }

    /** DBIngestionService.enqueue_sync_job */
    method EnqueueDbJob(sourceId: int, source: Option<DbSourceRow>, mode: string, resetCursor: bool, now: int)
      returns (r: Reply)
      modifies this
      ensures r.Refused? <==> !((mode == "incremental" || mode == "full") && source.Some? && source.value.isActive
                                && source.value.cursorColumn != "" && source.value.cursorType != ""
                                && source.value.pkColumn != "")
      ensures !r.Enqueued? ==> rows == old(rows)
      ensures r.Enqueued? ==>
                && ActiveIds(old(rows), "db", sourceId) == {} && r.id == |old(rows)|
                && |rows| == |old(rows)| + 1 && rows[..|old(rows)|] == old(rows)
                && var j := rows[|old(rows)|];
                && j.sourceType == "db" && j.sourceId == sourceId && j.mode == mode && j.createdAt == now && Untouched(j)
                && (mode == "full" || resetCursor ==> j.cursor == None)
                && (mode == "incremental" && !resetCursor ==>
                      j.cursor == if source.value.lastCursor == Some("") then None else source.value.lastCursor)
      ensures old(OneActivePerSource(rows)) ==> OneActivePerSource(rows)
    {
      if !ValidMode(mode) || source.None? || !source.value.isActive {
        return Refused;
      }
      if source.value.cursorColumn == "" || source.value.cursorType == "" || source.value.pkColumn == "" {
        return Refused;
      }
      var cursor := if mode == "full" || resetCursor then None else OrElse(source.value.lastCursor, None);
      r := Insert("db", sourceId, mode, cursor, now);
    }

    /** The same for file sources, whose jobs start without a checkpoint whatever is asked for. */
    method EnqueueFileJob(sourceId: int, source: Option<FileSourceRow>, mode: string, now: int) returns (r: Reply)
      modifies this
      ensures r.Refused? <==> !((mode == "incremental" || mode == "full") && source.Some? && source.value.isActive
                                && source.value.connType in ["smb", "ssh", "local"])
      ensures !r.Enqueued? ==> rows == old(rows)
      ensures r.Enqueued? ==>
                && ActiveIds(old(rows), source.value.connType, sourceId) == {} && r.id == |old(rows)|
                && |rows| == |old(rows)| + 1 && rows[..|old(rows)|] == old(rows)
                && var j := rows[|old(rows)|];
                && j.sourceType == source.value.connType && j.sourceId == sourceId && j.mode == mode
                && j.cursor == None && j.createdAt == now && Untouched(j)
      ensures old(OneActivePerSource(rows)) ==> OneActivePerSource(rows)
    {
      if !ValidMode(mode) || source.None? || !source.value.isActive {
        return Refused;
      }
      if source.value.connType !in ["smb", "ssh", "local"] {
        return Refused;
      }
      r := Insert(source.value.connType, sourceId, mode, None, now);
    }

    /** _claim_with_skip_locked, nobody else holding a lock. */
    method ClaimWithSkipLocked(worker: string, now: int, lease: nat) returns (id: Option<nat>)
      modifies this
      ensures id == SkipLockedChoice(old(rows), now, {})
      ensures id.Some? ==> && OnlyRow(old(rows), rows, id.value) && Exclusive(rows, id.value, worker, now + lease)
                           && Claimable(old(rows)[id.value], now) && !SourceBusy(old(rows), id.value, now)
      ensures id.None? ==> forall i :: i in ClaimableIds(old(rows), now) ==> SourceBusy(old(rows), i, now)
      ensures id.Some? ==> IsClaimOf(old(rows)[id.value], rows[id.value], worker, now, lease)
      ensures old(OneActivePerSource(rows)) ==>
                OneActivePerSource(rows) && id == Least(old(rows), ClaimableIds(old(rows), now), |old(rows)|)
      ensures rows == if id.None? then old(rows) else old(rows)[id.value := Claimed(old(rows)[id.value], worker, now, lease)]
    {
      id := SkipLockedChoice(rows, now, {});
      if OneActivePerSource(rows) {
        ClaimsAgree(rows, now);
      }
      if id.Some? {
        ClaimIsExclusive(rows, id.value, worker, now, lease);
        rows := rows[id.value := Claimed(rows[id.value], worker, now, lease)];
      } else {
        assert forall i :: i in ClaimableIds(rows, now) ==> i !in OpenIds(rows, now, {});
      }
    }

    /** _claim_with_optimistic_update, nobody else running between its three statements. */
    method ClaimWithOptimisticUpdate(worker: string, now: int, lease: nat) returns (id: Option<nat>)
      modifies this
      ensures id == OptimisticChoice(old(rows), now)
      ensures id.Some? ==> OnlyRow(old(rows), rows, id.value) && Exclusive(rows, id.value, worker, now + lease)
      ensures id.Some? ==> IsClaimOf(old(rows)[id.value], rows[id.value], worker, now, lease)
      ensures old(OneActivePerSource(rows)) ==> OneActivePerSource(rows)
      ensures rows == if id.None? then old(rows) else old(rows)[id.value := Claimed(old(rows)[id.value], worker, now, lease)]
    {
      var candidate := Least(rows, ClaimableIds(rows, now), |rows|);
      if candidate.None? {
        return None;
      }
      if SourceBusy(rows, candidate.value, now) {
        return None;
      }
      ClaimIsExclusive(rows, candidate.value, worker, now, lease);
      rows := rows[candidate.value := Claimed(rows[candidate.value], worker, now, lease)];
      return candidate;
    }

    /** renew_lease: by id alone, whatever the row's status and whoever holds it. */
    method RenewLease(id: nat, now: int, lease: nat)
      modifies this
      ensures id < |old(rows)| ==> OnlyRow(old(rows), rows, id) && rows[id].status == old(rows)[id].status
      ensures id < |old(rows)| && rows[id].status.Running? ==> forall t: int :: Claimable(rows[id], t) <==> t > now + lease
      ensures old(OneActivePerSource(rows)) ==> OneActivePerSource(rows)
      ensures rows == if id < |old(rows)| then old(rows)[id := old(rows)[id].(leaseUntil := Some(now + lease))]
                      else old(rows)
    {
      if id < |rows| {
        rows := rows[id := rows[id].(leaseUntil := Some(now + lease))];
      }
    }

    /** By id, whatever the row's status: the job is over and its source can be enqueued again. */
    method FinalizeJob(id: nat, ok: bool, error: Option<string>, now: int)
      modifies this
      ensures id < |old(rows)| ==>
                && OnlyRow(old(rows), rows, id) && !Active(rows[id]) && (rows[id].status.Done? <==> ok)
                && forall t: int :: !Claimable(rows[id], t)
      ensures id < |old(rows)| ==>
                var before, j := old(rows)[id], rows[id];
                && j.status == (if ok then Done else Failed) && j.finishedAt == Some(now) && j.leaseUntil == None
                && j.workerId == before.workerId && j.startedAt == before.startedAt
                && (error == None || error == Some("") ==> j.lastError == before.lastError)
                && (error.Some? && error.value != "" ==>
                      j.lastError == Some(if |error.value| <= 4000 then error.value else error.value[..4000]))
      ensures id < |old(rows)| && old(OneActivePerSource(rows)) && Active(old(rows)[id]) ==>
                ActiveIds(rows, rows[id].sourceType, rows[id].sourceId) == {}
      ensures old(OneActivePerSource(rows)) ==> OneActivePerSource(rows)
      ensures rows == if id < |old(rows)| then old(rows)[id := Finished(old(rows)[id], ok, error, now)] else old(rows)
    {
      if id < |rows| {
        rows := rows[id := Finished(rows[id], ok, error, now)];
      }
    }

    method PauseSyncJob(id: nat) returns (ok: bool)
      modifies this
      ensures ok <==> id < |old(rows)| && (old(rows)[id].status.Pending? || old(rows)[id].status.Running?)
      ensures !ok ==> rows == old(rows)
      ensures ok ==> && OnlyRow(old(rows), rows, id) && rows[id].status.Paused? && (forall t: int :: !Claimable(rows[id], t))
                     && id in ActiveIds(rows, rows[id].sourceType, rows[id].sourceId)
      ensures ok ==> rows[id] == old(rows)[id].(status := Paused, leaseUntil := None)
      ensures old(OneActivePerSource(rows)) ==> OneActivePerSource(rows)
      ensures rows == if id < |old(rows)| then old(rows)[id := PausedRow(old(rows)[id])] else old(rows)
    {
      if id >= |rows| || !(rows[id].status.Pending? || rows[id].status.Running?) {
        return false;
      }
      rows := rows[id := rows[id].(status := Paused, leaseUntil := None)];
      return true;
    }

    method ResumeSyncJob(id: nat) returns (ok: bool)
      modifies this
      ensures ok <==> id < |old(rows)| && old(rows)[id].status.Paused?
      ensures !ok ==> rows == old(rows)
      ensures ok ==> && OnlyRow(old(rows), rows, id) && (forall t: int :: Claimable(rows[id], t))
                     && id in ActiveIds(rows, rows[id].sourceType, rows[id].sourceId)
      ensures ok ==> rows[id] == old(rows)[id].(status := Pending)
      ensures old(OneActivePerSource(rows)) ==> OneActivePerSource(rows)
      ensures rows == if id < |old(rows)| then old(rows)[id := ResumedRow(old(rows)[id])] else old(rows)
    {
      if id >= |rows| || !rows[id].status.Paused? {
        return false;
      }
      rows := rows[id := rows[id].(status := Pending)];
      return true;
    }
  }

  lemma FreshJobKeepsOne(rows: Rows, j: Job)
    requires ActiveIds(rows, j.sourceType, j.sourceId) == {}
    ensures OneActivePerSource(rows) ==> OneActivePerSource(rows + [j])
  {
    forall i: nat | i < |rows| && Active(rows[i]) ensures !SameSource(rows[i], j) {
      assert i !in ActiveIds(rows, j.sourceType, j.sourceId);
    }
  }

  // ------------------------------------------------------------------
  // The two ways of claiming
  // ------------------------------------------------------------------

  /**
   For any table: the two paths pick the same job, or both none, exactly when nothing is claimable,
   or the oldest claimable job has its source to itself, or every claimable job has a busy source.
   */
  lemma ClaimsAgreeIff(rows: Rows, now: int)
    ensures var oldest := Least(rows, ClaimableIds(rows, now), |rows|);
            SkipLockedChoice(rows, now, {}) == OptimisticChoice(rows, now)
            <==>
            || oldest.None?
            || !SourceBusy(rows, oldest.value, now)
            || (forall id :: id in ClaimableIds(rows, now) ==> SourceBusy(rows, id, now))
  {
    hide SourceBusy, Claimable;
    var open, all := OpenIds(rows, now, {}), ClaimableIds(rows, now);
    var oldest, choice := Least(rows, all, |rows|), Least(rows, open, |rows|);
    assert open <= all;
    if oldest.Some? && !SourceBusy(rows, oldest.value, now) {
      assert oldest.value in open;
      assert choice == oldest;
    }
    if oldest.Some? && SourceBusy(rows, oldest.value, now) && choice.None? {
      forall id | id in all ensures SourceBusy(rows, id, now) {
        assert id !in open;
      }
    }
  }

  /** Where every source has at most one active job, the two paths always agree. */
  lemma ClaimsAgree(rows: Rows, now: int)
    requires OneActivePerSource(rows)
    ensures SkipLockedChoice(rows, now, {}) == OptimisticChoice(rows, now)
    ensures SkipLockedChoice(rows, now, {}) == Least(rows, ClaimableIds(rows, now), |rows|)
  {
    var oldest := Least(rows, ClaimableIds(rows, now), |rows|);
    if oldest.Some? {
      forall r: nat | r < |rows| ensures !Blocks(rows, r, oldest.value, now) {
      }
    }
    ClaimsAgreeIff(rows, now);
  }

  /**
   Two jobs of one source, the older pending and the younger running: until the lease has ended one
   path passes over both and takes a younger job, the other takes none; from then on both take the pending job.
   */
  lemma ClaimsCanDiffer(a: Job, b: Job, c: Job, until: int, now: int)
    requires a.status.Pending? && b.status.Running? && b.leaseUntil == Some(until) && SameSource(a, b)
    requires c.status.Pending? && !SameSource(a, c) && a.createdAt <= b.createdAt && a.createdAt < c.createdAt
    ensures SkipLockedChoice([a, b, c], now, {}) == Some(if now < until then 2 else 0)
    ensures OptimisticChoice([a, b, c], now) == if now < until then None else Some(0)
  {
    var rows := [a, b, c];
    assert 0 in ClaimableIds(rows, now) && Before(rows, 0, 2) && Before(rows, 0, 1);
    if now < until {
      assert Blocks(rows, 1, 0, now);
      assert ClaimableIds(rows, now) == {0, 2};
      assert !SourceBusy(rows, 2, now);
      assert OpenIds(rows, now, {}) == {2};
    } else {
      assert !SourceBusy(rows, 0, now);
      assert 0 in OpenIds(rows, now, {});
    }
  }
}
