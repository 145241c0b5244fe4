/**
 What happened to the jobs of a queue, as a log (app/services/worker_service.py:184-383,
 app/api/admin/system.py:369-400, app/services/system_service.py:407-470, 1426-1490). Enqueue,
 pause and resume read, test what they read and write in separate statements; their entries say
 how long the log was when they read.
 */
module QueueLog {
  import opened Wrappers
  import opened JobQueue

  /**
   `pended` claims found the job pending. A pause writes the lease only if it read one; `seen` is
   the length of the log at the read.
   */
  datatype Entry =
    | Insertion(id: nat, seen: nat)
    | Claim(id: nat, who: string, stamp: int, until: int, pended: bool, optimistic: bool)
    | Renewal(id: nat, until: int)
    | Pausing(id: nat, clears: bool, seen: nat)
    | Resuming(id: nat, seen: nat)
    | Ending(id: nat, ok: bool)

  datatype Tale = Tale(status: Status, lease: Option<int>)

  function Told(t: Tale, e: Entry): Tale {
    match e
    case Insertion(_, _) => t
    case Claim(_, _, _, until, _, _) => Tale(Running, Some(until))
    case Renewal(_, until) => t.(lease := Some(until))
    case Pausing(_, clears, _) => Tale(Paused, if clears then None else t.lease)
    case Resuming(_, _) => t.(status := Pending)
    case Ending(_, ok) => Tale(if ok then Done else Failed, None)
  }

  /** Status and lease of a job, from the entries about it. */
  function TaleOf(log: seq<Entry>, id: nat): Tale {
    if log == [] then Tale(Pending, None)
    else
      var n := |log| - 1;
      if log[n].id == id then Told(TaleOf(log[..n], id), log[n]) else TaleOf(log[..n], id)
  }

  predicate Over(t: Tale) {
    t.status.Done? || t.status.Failed?
  }

  /**
   A claim that found its job pending says so; other claims found it running, on the SKIP LOCKED
   path with a lease that ended before the worker's clock. Pauses read a pending or running job
   and the lease they clear, resumes a paused one.
   */
  predicate Justified(log: seq<Entry>, e: Entry) {
    match e
    case Claim(id, _, stamp, _, pended, optimistic) =>
      var t := TaleOf(log, id);
      if pended then t.status.Pending?
      else t.status.Running? && (optimistic || t.lease.None? || t.lease.value < stamp)
    case Insertion(_, seen) => seen <= |log|
    case Pausing(id, clears, seen) => seen <= |log| && MayPause(TaleOf(log[..seen], id), clears)
    case Resuming(id, seen) => seen <= |log| && TaleOf(log[..seen], id).status.Paused?
    case _ => true
  }

  predicate MayPause(t: Tale, clears: bool) {
    (t.status.Pending? || t.status.Running?) && clears == t.lease.Some?
  }

  predicate WellLogged(log: seq<Entry>) {
    log == [] || (WellLogged(log[..|log| - 1]) && Justified(log[..|log| - 1], log[|log| - 1]))
  }

  lemma LogOneMore(log: seq<Entry>, e: Entry, id: nat)
    ensures TaleOf(log + [e], id) == if e.id == id then Told(TaleOf(log, id), e) else TaleOf(log, id)
    ensures WellLogged(log + [e]) <==> WellLogged(log) && Justified(log, e)
  {
    assert (log + [e])[..|log|] == log;
  }

  lemma {:induction false} WellLoggedAt(log: seq<Entry>, j: nat)
    requires WellLogged(log) && j < |log|
    ensures Justified(log[..j], log[j])
    decreases |log|
  {
    hide Justified, TaleOf;
    var n := |log| - 1;
    if j < n {
      WellLoggedAt(log[..n], j);
      assert log[..n][..j] == log[..j];
    }
  }

  lemma StepTale(log: seq<Entry>, n: nat, id: nat)
    requires n < |log|
    ensures TaleOf(log[..n + 1], id) == if log[n].id == id then Told(TaleOf(log[..n], id), log[n]) else TaleOf(log[..n], id)
  {
    assert log[..n + 1] == log[..n] + [log[n]];
    LogOneMore(log[..n], log[n], id);
  }

  // ------------------------------------------------------------------
  // Writes on reads that are out of date
  // ------------------------------------------------------------------

  /** Entry l is a pause or resume of the job, read before one of the job's ends and written after it. */
  ghost predicate LateWrite(log: seq<Entry>, l: nat, id: nat) {
    && l < |log| && (log[l].Pausing? || log[l].Resuming?) && log[l].id == id
    && exists m :: log[l].seen <= m < l && log[m].Ending? && log[m].id == id
  }

  /** The job was finished and is later not. */
  ghost predicate Reopened(log: seq<Entry>, id: nat) {
    exists n, n' :: 0 <= n <= n' <= |log| && Over(TaleOf(log[..n], id)) && !Over(TaleOf(log[..n'], id))
  }

  /** Between an unfinished and a finished job lies an end. */
  lemma {:induction false} EndBetween(log: seq<Entry>, a: nat, b: nat, id: nat) returns (m: nat)
    requires a <= b <= |log| && !Over(TaleOf(log[..a], id)) && Over(TaleOf(log[..b], id))
    ensures a <= m < b && log[m].Ending? && log[m].id == id
    decreases b
  {
    hide TaleOf;
    StepTale(log, b - 1, id);
    if log[b - 1].Ending? && log[b - 1].id == id {
      m := b - 1;
    } else {
      m := EndBetween(log, a, b - 1, id);
    }
  }

  /** A write that finds its job finished is late. */
  lemma WriteOnFinishedIsLate(log: seq<Entry>, l: nat)
    requires l < |log| && Justified(log[..l], log[l]) && (log[l].Pausing? || log[l].Resuming?)
    requires Over(TaleOf(log[..l], log[l].id))
    ensures LateWrite(log, l, log[l].id)
  {
    assert log[..l][..log[l].seen] == log[..log[l].seen];
    hide TaleOf;
    var m := EndBetween(log, log[l].seen, l, log[l].id);
  }

  /** The first step that takes a finished job out of its end is a late write. */
  lemma {:induction false} ReopeningWrite(log: seq<Entry>, n: nat, n': nat, id: nat) returns (l: nat)
    requires WellLogged(log) && n <= n' <= |log|
    requires Over(TaleOf(log[..n], id)) && !Over(TaleOf(log[..n'], id))
    ensures n <= l < n' && LateWrite(log, l, id)
    decreases n' - n
  {
    hide TaleOf, WellLogged;
    StepTale(log, n, id);
    if Over(TaleOf(log[..n + 1], id)) {
      l := ReopeningWrite(log, n + 1, n', id);
    } else {
      l := n;
      WellLoggedAt(log, n);
      WriteOnFinishedIsLate(log, n);
    }
  }

  lemma AfterEnding(log: seq<Entry>, m: nat, id: nat)
    requires m < |log| && log[m].Ending? && log[m].id == id
    ensures Over(TaleOf(log[..m + 1], id))
  {
    StepTale(log, m, id);
  }

  lemma AfterWrite(log: seq<Entry>, l: nat, id: nat)
    requires l < |log| && (log[l].Pausing? || log[l].Resuming?) && log[l].id == id
    ensures !Over(TaleOf(log[..l + 1], id))
  {
    StepTale(log, l, id);
  }

  /**
   A job that was done or failed becomes active again exactly when a pause or resume of it is
   written after one of its ends on a read made before that end.
   */
  lemma ReopenedIff(log: seq<Entry>, id: nat)
    requires WellLogged(log)
    ensures Reopened(log, id) <==> exists l :: LateWrite(log, l, id)
  {
    hide TaleOf, WellLogged, Over;
    if Reopened(log, id) {
      var n, n' :| 0 <= n <= n' <= |log| && Over(TaleOf(log[..n], id)) && !Over(TaleOf(log[..n'], id));
      var l := ReopeningWrite(log, n, n', id);
    }
    if l: nat :| LateWrite(log, l, id) {
      var m :| log[l].seen <= m < l && log[m].Ending? && log[m].id == id;
      AfterEnding(log, m, id);
      AfterWrite(log, l, id);
      assert 0 <= m + 1 <= l + 1 <= |log|;
    }
  }

  lemma StillLateWrite(log: seq<Entry>, e: Entry, l: nat, id: nat)
    requires LateWrite(log, l, id)
    ensures LateWrite(log + [e], l, id)
  {
    var m :| log[l].seen <= m < l && log[m].Ending? && log[m].id == id;
    assert (log + [e])[m] == log[m];
  }

  // ------------------------------------------------------------------
  // Claims of one job
  // ------------------------------------------------------------------

  ghost predicate PausedThenResumed(log: seq<Entry>, i: int, j: int, id: nat) {
    exists k, l :: 0 <= i < k < l < j <= |log| && log[k].Pausing? && log[k].id == id && log[l].Resuming? && log[l].id == id
  }

  /** A resume was written between, on a read made before entry i. */
  ghost predicate ResumedLate(log: seq<Entry>, i: int, j: int, id: nat) {
    exists l :: 0 <= i < l < j <= |log| && log[l].Resuming? && log[l].id == id && log[l].seen <= i
  }

  ghost predicate PausedSince(log: seq<Entry>, i: int, j: int, id: nat) {
    exists k :: 0 <= i < k < j <= |log| && log[k].Pausing? && log[k].id == id
  }

  predicate GrantsLease(e: Entry, id: nat) {
    (e.Claim? || e.Renewal?) && e.id == id
  }

  /** The last claim or renewal of the job from i on and before j set its lease to end at `until`. */
  ghost predicate LastLease(log: seq<Entry>, i: int, j: int, id: nat, until: int) {
    exists k :: 0 <= i <= k < j <= |log| && GrantsLease(log[k], id) && log[k].until == until
                && forall m :: k < m < j ==> !GrantsLease(log[m], id)
  }

  /** What must have happened since the claim at i for the job to stand as it does before entry j. */
  ghost predicate Since(log: seq<Entry>, i: nat, j: nat, id: nat)
    requires j <= |log|
  {
    var t := TaleOf(log[..j], id);
    match t.status
    case Running => t.lease.Some? && LastLease(log, i, j, id, t.lease.value)
    case Paused => PausedSince(log, i, j, id)
    case Pending => PausedThenResumed(log, i, j, id) || ResumedLate(log, i, j, id)
    case _ => true
  }

  lemma {:induction false} SinceClaim(log: seq<Entry>, i: nat, j: nat, id: nat)
    requires WellLogged(log) && i < j <= |log| && log[i].Claim? && log[i].id == id
    ensures Since(log, i, j, id)
    decreases j
  {
    var n := j - 1;
    StepTale(log, n, id);
    hide TaleOf, WellLogged;
    if n == i {
      assert GrantsLease(log[i], id);
    } else {
      SinceClaim(log, i, n, id);
      var e := log[n];
      var t, t' := TaleOf(log[..n], id), TaleOf(log[..j], id);
      if GrantsLease(e, id) {
        assert LastLease(log, i, j, id, e.until);
      } else if t.status.Running? && t' == t {
      } else if e.Resuming? && e.id == id {
        WellLoggedAt(log, n);
        if e.seen <= i {
          assert ResumedLate(log, i, j, id);
        } else {
          assert log[..n][..e.seen] == log[..e.seen];
          SinceClaim(log, i, e.seen, id);
          var k :| i < k < e.seen && log[k].Pausing? && log[k].id == id;
          assert PausedThenResumed(log, i, j, id);
        }
      }
    }
  }

  /** The separation of two claims of one job, as far as the log goes. */
  lemma SeparatedInLog(log: seq<Entry>, i: nat, j: nat)
    requires WellLogged(log) && i < j < |log| && log[i].Claim? && log[j].Claim? && log[i].id == log[j].id
    ensures log[j].pended ==> PausedThenResumed(log, i, j, log[j].id) || ResumedLate(log, i, j, log[j].id)
    ensures !log[j].pended && !log[j].optimistic ==>
              exists until :: until < log[j].stamp && LastLease(log, i, j, log[j].id, until)
  {
    hide TaleOf, WellLogged;
    SinceClaim(log, i, j, log[j].id);
    WellLoggedAt(log, j);
  }
}
