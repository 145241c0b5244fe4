/**
 The operations of `JobQueue.JobQueue` among the runs of QueueRuns: a session that nobody gets in
 between with leaves the rows that the method leaves, and nothing begun.
 */
module QueueAlone {
  import opened Wrappers
  import opened Traces
  import opened JobQueue
  import opened QueueRuns

  /** The rows have changed to `rows` and nothing is under way that was not before. */
  predicate Leaves(w: World, w': World, rows: Rows) {
    w'.rows == rows && w'.now == w.now && w'.steps == w.steps && Locked(w') == Locked(w)
  }

  lemma EnqueueAlone(w: World, who: string, sourceType: string, sourceId: int, mode: string, cursor: Option<string>, at: int)
    requires who !in w.steps
    ensures var w' := Run(w, [EnqueueCheck(who, sourceType, sourceId, mode, cursor), EnqueueInsert(who, at)]);
            Leaves(w, w', if ActiveIds(w.rows, sourceType, sourceId) == {}
                          then w.rows + [NewJob(sourceType, sourceId, mode, cursor, at)] else w.rows)
  {
    TraceTwo(Next, w, EnqueueCheck(who, sourceType, sourceId, mode, cursor), EnqueueInsert(who, at));
    var s := Vacant(sourceType, sourceId, mode, cursor, |w.log|);
    assert w.steps[who := s] - {who} == w.steps;
  }

  lemma SkipClaimAlone(w: World, who: string, now: int, lease: nat)
    requires who !in w.steps && now <= w.now
    ensures var w', id := Run(w, [SkipSelect(who, now, lease), SkipUpdate(who)]), SkipLockedChoice(w.rows, now, Locked(w));
            Leaves(w, w', if id.None? then w.rows else w.rows[id.value := Claimed(w.rows[id.value], who, now, lease)])
  {
    TraceTwo(Next, w, SkipSelect(who, now, lease), SkipUpdate(who));
    hide SkipLockedChoice, Claimed;
    var id := SkipLockedChoice(w.rows, now, Locked(w));
    if id.Some? {
      assert w.steps[who := Holding(id.value, now, lease)] - {who} == w.steps;
    }
  }

  /** A worker that dies after its select leaves no lock behind. */
  lemma AbortAlone(w: World, who: string, now: int, lease: nat)
    requires who !in w.steps
    ensures Leaves(w, Run(w, [SkipSelect(who, now, lease), Abort(who)]), w.rows)
  {
    TraceTwo(Next, w, SkipSelect(who, now, lease), Abort(who));
    hide SkipLockedChoice;
    var w1 := Next(w, SkipSelect(who, now, lease));
    assert w1 == w || exists id: nat :: w1 == w.(steps := w.steps[who := Holding(id, now, lease)]);
    assert w1.steps - {who} == w.steps;
  }

  lemma OptClaimAlone(w: World, who: string, now: int, lease: nat)
    requires who !in w.steps && now <= w.now && Locked(w) == {}
    ensures var w', id := Run(w, [OptRead(who, now, lease), OptCheck(who), OptUpdate(who)]), OptimisticChoice(w.rows, now);
            Leaves(w, w', if id.None? then w.rows else w.rows[id.value := Claimed(w.rows[id.value], who, now, lease)])
  {
    TraceThree(Next, w, OptRead(who, now, lease), OptCheck(who), OptUpdate(who));
    hide Least, ClaimableIds, SourceBusy, Claimed;
    var candidate := Least(w.rows, ClaimableIds(w.rows, now), |w.rows|);
    if candidate.Some? {
      var id := candidate.value;
      var w1 := w.(steps := w.steps[who := Found(id, w.rows[id].status, now, lease)]);
      assert Next(w, OptRead(who, now, lease)) == w1;
      assert w1.steps - {who} == w.steps;
      if !SourceBusy(w.rows, id, now) {
        var s := Checked(id, w.rows[id].status, now, lease);
        assert Next(w1, OptCheck(who)) == w.(steps := w.steps[who := s]);
        assert w.steps[who := s] - {who} == w.steps;
        assert Locked(w.(steps := w.steps[who := s])) == {};
      }
    }
  }

  lemma PauseAlone(w: World, who: string, id: nat)
    requires who !in w.steps && Locked(w) == {}
    ensures Leaves(w, Run(w, [PauseRead(who, id), PauseWrite(who)]),
                   if id < |w.rows| then w.rows[id := PausedRow(w.rows[id])] else w.rows)
  {
    TraceTwo(Next, w, PauseRead(who, id), PauseWrite(who));
    var w1 := Next(w, PauseRead(who, id));
    if w1 != w {
      assert Locked(w1) == {};
      assert w1.steps - {who} == w.steps;
    }
  }

  lemma ResumeAlone(w: World, who: string, id: nat)
    requires who !in w.steps && Locked(w) == {}
    ensures Leaves(w, Run(w, [ResumeRead(who, id), ResumeWrite(who)]),
                   if id < |w.rows| then w.rows[id := ResumedRow(w.rows[id])] else w.rows)
  {
    TraceTwo(Next, w, ResumeRead(who, id), ResumeWrite(who));
    var w1 := Next(w, ResumeRead(who, id));
    if w1 != w {
      assert Locked(w1) == {};
      assert w1.steps - {who} == w.steps;
    }
  }

  /** Renewals and ends are one update; it waits for a lock on its row. */
  lemma UpdatesAlone(w: World, id: nat, now: int, lease: nat, ok: bool, error: Option<string>)
    ensures now <= w.now && id !in Locked(w) ==>
              Leaves(w, Next(w, Renew(id, now, lease)),
                     if id < |w.rows| then w.rows[id := w.rows[id].(leaseUntil := Some(now + lease))] else w.rows)
    ensures id !in Locked(w) ==>
              Leaves(w, Next(w, Finish(id, ok, error, now)),
                     if id < |w.rows| then w.rows[id := Finished(w.rows[id], ok, error, now)] else w.rows)
    ensures id in Locked(w) ==> Next(w, Renew(id, now, lease)) == w && Next(w, Finish(id, ok, error, now)) == w
  {
    hide Finished;
  }
}
