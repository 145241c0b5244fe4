/**
 What holds of every run of the job queue: one unfinished job per source, finished jobs, claims.
 The first two are broken by enqueues, pauses and resumes that write on an outdated read, and by
 nothing else; QueueRaces has the shortest such runs.
 */
module QueueLaws {
  import opened Wrappers
  import opened Traces
  import opened JobQueue
  import opened QueueLog
  import opened QueueRuns

  // ------------------------------------------------------------------
  // Moments of a run
  // ------------------------------------------------------------------

  function Moment(now: int, events: seq<Event>, n: nat): World
    requires n <= |events|
  {
    Run(Empty(now), events[..n])
  }

  lemma NextMoment(now: int, events: seq<Event>, n: nat)
    requires n < |events|
    ensures Moment(now, events, n + 1) == Next(Moment(now, events, n), events[n])
  {
    hide Next;
    TraceLast(Next, Empty(now), events, n);
  }

  lemma StepLogs(w: World, e: Event)
    ensures var w' := Next(w, e);
            w.log <= w'.log && |w'.log| <= |w.log| + 1 && |w.rows| <= |w'.rows|
  {
    hide SourceBusy, ActiveIds, SkipLockedChoice, ClaimableIds, Claimed, Finished;
  }

  lemma {:induction false} LogGrows(now: int, events: seq<Event>, n: nat, n': nat)
    requires n <= n' <= |events|
    ensures var w, w' := Moment(now, events, n), Moment(now, events, n');
            w.log <= w'.log && |w.rows| <= |w'.rows|
    decreases n' - n
  {
    hide Moment, Next;
    if n < n' {
      NextMoment(now, events, n);
      StepLogs(Moment(now, events, n), events[n]);
      LogGrows(now, events, n + 1, n');
    }
  }

  lemma {:induction false} MomentOfLog(now: int, events: seq<Event>, n': nat, k: nat) returns (n: nat)
    requires n' <= |events| && k <= |Moment(now, events, n').log|
    ensures n <= n' && |Moment(now, events, n).log| == k
    decreases n'
  {
    n := n';
    if |Moment(now, events, n').log| != k {
      if n' > 0 {
        hide Moment, Next;
        NextMoment(now, events, n' - 1);
        StepLogs(Moment(now, events, n' - 1), events[n' - 1]);
        n := MomentOfLog(now, events, n' - 1, k);
      }
    }
  }

  lemma MomentHolds(now: int, events: seq<Event>, n: nat)
    requires n <= |events|
    ensures Inv(Moment(now, events, n))
  {
    hide Inv, Run;
    EmptyHolds(now);
    RunKeepsInv(Empty(now), events[..n]);
  }

  // ------------------------------------------------------------------
  // One unfinished job per source
  // ------------------------------------------------------------------

  ghost predicate EndedSince(log: seq<Entry>, id: nat, seen: nat) {
    exists m :: seen <= m < |log| && log[m].Ending? && log[m].id == id
  }

  /** A job other than `id` of the source is unfinished. */
  predicate HasOther(rows: Rows, sourceType: string, sourceId: int, id: nat) {
    exists k: nat :: k < |rows| && k != id && Active(rows[k]) && OfSource(rows[k], sourceType, sourceId)
  }

  /**
   The event writes on an outdated read while the source has another unfinished job: an insert
   after the source got a job since its check, a pause or resume after the job ended since its read.
   */
  ghost predicate Doubles(w: World, e: Event) {
    match e
    case EnqueueInsert(who, _) =>
      && who in w.steps && w.steps[who].Vacant?
      && var s := w.steps[who];
         && Overtaken(w.rows, w.log, s.sourceType, s.sourceId, s.seen)
         && HasOther(w.rows, s.sourceType, s.sourceId, |w.rows|)
    case PauseWrite(who) => who in w.steps && w.steps[who].PauseSeen? && LateHere(w, w.steps[who].id, w.steps[who].seen)
    case ResumeWrite(who) => who in w.steps && w.steps[who].ResumeSeen? && LateHere(w, w.steps[who].id, w.steps[who].seen)
    case _ => false
  }

  ghost predicate LateHere(w: World, id: nat, seen: nat) {
    && Free(w, id) && EndedSince(w.log, id, seen)
    && HasOther(w.rows, w.rows[id].sourceType, w.rows[id].sourceId, id)
  }

  lemma DoublingBreaks(w: World, e: Event)
    requires Doubles(w, e)
    ensures !OneActivePerSource(Next(w, e).rows)
  {
    var rows := Next(w, e).rows;
    var s := w.steps[e.who];
    var id := if s.Vacant? then |w.rows| else s.id;
    var j := rows[id];
    var k: nat :| k < |w.rows| && k != id && Active(w.rows[k]) && OfSource(w.rows[k], j.sourceType, j.sourceId);
    assert rows[k] == w.rows[k];
  }

  /** Changing a row without making an ended job unfinished. */
  lemma StaysOneActive(rows: Rows, id: nat, j: Job)
    requires OneActivePerSource(rows) && id < |rows| && SameSource(rows[id], j)
    requires Active(j) && !Active(rows[id]) ==> !HasOther(rows, j.sourceType, j.sourceId, id)
    ensures OneActivePerSource(rows[id := j])
  {
    if Active(j) {
      forall k: nat | k < |rows| && k != id && Active(rows[k]) ensures !SameSource(rows[k], j) && !SameSource(j, rows[k]) {
        if OfSource(rows[k], j.sourceType, j.sourceId) {
          assert SameSource(rows[k], rows[id]) && SameSource(rows[id], rows[k]);
        }
      }
    }
  }

  lemma ClaimKeepsOne(w: World, e: Event)
    requires Inv(w) && OneActivePerSource(w.rows) && (e.SkipUpdate? || e.OptUpdate? || e.Renew? || e.Finish?)
    ensures OneActivePerSource(Next(w, e).rows)
  {
    hide OneActivePerSource, LogTells, WellLogged, HasOther, SourceBusy;
    match e
    case SkipUpdate(who) =>
      if who in w.steps && w.steps[who].Holding? && w.steps[who].id < |w.rows| {
        var s := w.steps[who];
        StaysOneActive(w.rows, s.id, Claimed(w.rows[s.id], who, s.stamp, s.lease));
      }
    case OptUpdate(who) =>
      if who in w.steps && w.steps[who].Checked? && Free(w, w.steps[who].id) {
        var s := w.steps[who];
        if w.rows[s.id].status == s.was {
          StaysOneActive(w.rows, s.id, Claimed(w.rows[s.id], who, s.stamp, s.lease));
        }
      }
    case Renew(id, stamp, lease) =>
      if Free(w, id) {
        StaysOneActive(w.rows, id, w.rows[id].(leaseUntil := Some(stamp + lease)));
      }
    case Finish(id, ok, error, at) =>
      if Free(w, id) {
        StaysOneActive(w.rows, id, Finished(w.rows[id], ok, error, at));
      }
  }

  lemma InsertBreaks(w: World, who: string, at: int)
    requires Inv(w) && OneActivePerSource(w.rows) && !OneActivePerSource(Next(w, EnqueueInsert(who, at)).rows)
    ensures Doubles(w, EnqueueInsert(who, at))
  {
    hide OneActivePerSource, LogTells, WellLogged, Overtaken;
    var s := w.steps[who];
    if ActiveIds(w.rows, s.sourceType, s.sourceId) == {} {
      FreshJobKeepsOne(w.rows, NewJob(s.sourceType, s.sourceId, s.mode, s.cursor, at));
    }
    var k :| k in ActiveIds(w.rows, s.sourceType, s.sourceId);
    assert OfSource(w.rows[k], s.sourceType, s.sourceId);
    assert StepHolds(w.rows, w.log, s);
  }

  lemma WriteBreaks(w: World, id: nat, seen: nat, j: Job)
    requires Inv(w) && OneActivePerSource(w.rows) && Free(w, id) && SameSource(w.rows[id], j)
    requires seen <= |w.log| && !Over(TaleOf(w.log[..seen], id))
    requires !OneActivePerSource(w.rows[id := j])
    ensures LateHere(w, id, seen)
  {
    hide OneActivePerSource, TaleOf, WellLogged, HasOther, StepHolds;
    if Active(w.rows[id]) || !HasOther(w.rows, j.sourceType, j.sourceId, id) {
      StaysOneActive(w.rows, id, j);
    }
    assert w.log[..|w.log|] == w.log;
    var m := EndBetween(w.log, seen, |w.log|, id);
  }

  lemma OnlyDoublingBreaks(w: World, e: Event)
    requires Inv(w) && OneActivePerSource(w.rows) && !OneActivePerSource(Next(w, e).rows)
    ensures Doubles(w, e)
  {
    hide OneActivePerSource, TaleOf, WellLogged, LogTells, LateHere, SkipLockedChoice, SourceBusy;
    match e
    case EnqueueInsert(who, at) => InsertBreaks(w, who, at);
    case PauseWrite(who) =>
      assert StepHolds(w.rows, w.log, w.steps[who]);
      WriteBreaks(w, w.steps[who].id, w.steps[who].seen, PausedLate(w.rows[w.steps[who].id], w.steps[who].clears));
    case ResumeWrite(who) =>
      assert StepHolds(w.rows, w.log, w.steps[who]);
      WriteBreaks(w, w.steps[who].id, w.steps[who].seen, w.rows[w.steps[who].id].(status := Pending));
    case SkipUpdate(_) => ClaimKeepsOne(w, e);
    case OptUpdate(_) => ClaimKeepsOne(w, e);
    case Renew(_, _, _) => ClaimKeepsOne(w, e);
    case Finish(_, _, _, _) => ClaimKeepsOne(w, e);
    case _ =>
  }

  ghost predicate DoublesAt(now: int, events: seq<Event>, n: nat) {
    n < |events| && Doubles(Moment(now, events, n), events[n])
  }

  lemma {:induction false} FirstBreak(now: int, events: seq<Event>, n': nat) returns (n: nat)
    requires n' <= |events| && !OneActivePerSource(Moment(now, events, n').rows)
    ensures DoublesAt(now, events, n)
    decreases n'
  {
    NothingYet(now, events);
    hide Run, Next, Moment, OneActivePerSource, Doubles, Inv;
    n := n' - 1;
    if OneActivePerSource(Moment(now, events, n).rows) {
      MomentHolds(now, events, n);
      NextMoment(now, events, n);
      OnlyDoublingBreaks(Moment(now, events, n), events[n]);
    } else {
      n := FirstBreak(now, events, n);
    }
  }

  lemma NothingYet(now: int, events: seq<Event>)
    ensures OneActivePerSource(Moment(now, events, 0).rows)
  {
  }

  /**
   In any run: every source has at most one unfinished job throughout, exactly when no insert,
   pause or resume lands on an outdated read while its source has another unfinished job.
   */
  lemma AtMostOneActiveIff(now: int, events: seq<Event>)
    ensures (forall n: nat :: n <= |events| ==> OneActivePerSource(Moment(now, events, n).rows))
            <==> (forall n: nat :: !DoublesAt(now, events, n))
  {
    hide Run, Next, Moment, OneActivePerSource, Doubles;
    if n: nat :| DoublesAt(now, events, n) {
      NextMoment(now, events, n);
      DoublingBreaks(Moment(now, events, n), events[n]);
    }
    if n: nat :| n <= |events| && !OneActivePerSource(Moment(now, events, n).rows) {
      var m := FirstBreak(now, events, n);
    }
  }

  /** The event just before a session's write is the read it rests on. */
  ghost predicate WritesAtOnce(now: int, events: seq<Event>) {
    forall n: nat :: n < |events| && IsWrite(events[n]) && events[n].who in Moment(now, events, n).steps ==>
      n > 0 && events[n].who !in Moment(now, events, n - 1).steps
  }

  predicate IsWrite(e: Event) {
    e.EnqueueInsert? || e.PauseWrite? || e.ResumeWrite?
  }

  /** A session that has just begun has seen the whole log. */
  lemma JustBegun(w: World, e: Event, who: string)
    requires who !in w.steps && who in Next(w, e).steps
    ensures Next(w, e).log == w.log
    ensures var s := Next(w, e).steps[who]; s.Vacant? || s.PauseSeen? || s.ResumeSeen? ==> s.seen == |w.log|
  {
    hide SourceBusy, ActiveIds, SkipLockedChoice, ClaimableIds, Claimed, Finished;
  }

  lemma FreshReadIsCurrent(w: World, e: Event)
    requires IsWrite(e) && e.who in w.steps
    requires var s := w.steps[e.who]; s.Vacant? || s.PauseSeen? || s.ResumeSeen? ==> s.seen >= |w.log|
    ensures !Doubles(w, e)
  {
    hide LateWrite, OfSource, HasOther;
  }

  /** With nothing between their reads and writes, a source never has two unfinished jobs. */
  lemma AtMostOneActiveAtOnce(now: int, events: seq<Event>, n: nat)
    requires WritesAtOnce(now, events) && n <= |events|
    ensures OneActivePerSource(Moment(now, events, n).rows)
  {
    hide Run, Next, Moment, OneActivePerSource, Doubles;
    forall m: nat ensures !DoublesAt(now, events, m) {
      if m < |events| {
        OtherEventsDoNot(Moment(now, events, m), events[m]);
        if IsWrite(events[m]) && events[m].who in Moment(now, events, m).steps {
          NextMoment(now, events, m - 1);
          JustBegun(Moment(now, events, m - 1), events[m - 1], events[m].who);
          FreshReadIsCurrent(Moment(now, events, m), events[m]);
        }
      }
    }
    AtMostOneActiveIff(now, events);
  }

  lemma OtherEventsDoNot(w: World, e: Event)
    ensures Doubles(w, e) ==> IsWrite(e) && e.who in w.steps
  {
  }

  // ------------------------------------------------------------------
  // Finished jobs
  // ------------------------------------------------------------------

  predicate HasEnded(w: World, id: nat) {
    id < |w.rows| && !Active(w.rows[id])
  }

  lemma EndedIsTold(w: World, id: nat)
    requires Inv(w)
    ensures HasEnded(w, id) <==> Over(TaleOf(w.log, id))
  {
    hide TaleOf, WellLogged, StepHolds;
    if id >= |w.rows| {
      TaleOfNone(w.log, id);
    }
  }

  /** At some moment of the run the job was done or failed, and later it was not. */
  ghost predicate Reopens(now: int, events: seq<Event>, id: nat) {
    exists n: nat, n': nat ::
      n <= n' <= |events| && HasEnded(Moment(now, events, n), id) && !HasEnded(Moment(now, events, n'), id)
  }

  lemma ReopensIsLogged(now: int, events: seq<Event>, id: nat)
    ensures Reopens(now, events, id) <==> Reopened(Run(Empty(now), events).log, id)
  {
    hide Over, HasEnded, TaleOf, Run, Inv;
    var log := Run(Empty(now), events).log;
    assert events[..|events|] == events;
    if Reopens(now, events, id) {
      var n: nat, n': nat :|
        n <= n' <= |events| && HasEnded(Moment(now, events, n), id) && !HasEnded(Moment(now, events, n'), id);
      TaleAtMoment(now, events, n, id);
      TaleAtMoment(now, events, n', id);
      LogGrows(now, events, n, n');
    }
    if Reopened(log, id) {
      var p, p' :| 0 <= p <= p' <= |log| && Over(TaleOf(log[..p], id)) && !Over(TaleOf(log[..p'], id));
      var n' := MomentOfLog(now, events, |events|, p');
      TaleAtMoment(now, events, n', id);
      var n := MomentOfLog(now, events, |events|, p);
      TaleAtMoment(now, events, n, id);
      if n > n' {
        LogGrows(now, events, n', n);
      }
    }
  }

  lemma TaleAtMoment(now: int, events: seq<Event>, n: nat, id: nat)
    requires n <= |events|
    ensures var log, k := Run(Empty(now), events).log, |Moment(now, events, n).log|;
            k <= |log| && (HasEnded(Moment(now, events, n), id) <==> Over(TaleOf(log[..k], id)))
  {
    hide Over, HasEnded, TaleOf, Run, Inv;
    assert events[..|events|] == events;
    LogGrows(now, events, n, |events|);
    MomentHolds(now, events, n);
    var w := Moment(now, events, n);
    EndedIsTold(w, id);
    assert Run(Empty(now), events).log[..|w.log|] == w.log;
  }

  /**
   In any run: a job that was done or failed is active again later exactly when a pause or resume
   of it was written after one of its ends on a read made before that end.
   */
  lemma ReopensIff(now: int, events: seq<Event>, id: nat)
    ensures Reopens(now, events, id) <==> exists l: nat :: LateWrite(Run(Empty(now), events).log, l, id)
  {
    hide WellLogged, LateWrite, Reopened, Reopens, LogTells, StepHolds;
    EmptyHolds(now);
    RunKeepsInv(Empty(now), events);
    ReopenedIff(Run(Empty(now), events).log, id);
    ReopensIsLogged(now, events, id);
  }

  /** Without such a write, a job that is done or failed stays so. */
  lemma FinishedForGood(now: int, before: seq<Event>, id: nat, after: seq<Event>)
    requires HasEnded(Run(Empty(now), before), id)
    requires forall l: nat :: !LateWrite(Run(Run(Empty(now), before), after).log, l, id)
    ensures HasEnded(Run(Run(Empty(now), before), after), id)
  {
    var events := before + after;
    assert Run(Empty(now), events) == Run(Run(Empty(now), before), after) by {
      TraceConcat(Next, Empty(now), before, after);
    }
    hide HasEnded, LateWrite, Run;
    assert events[..|before|] == before && events[..|events|] == events;
    ReopensIff(now, events, id);
    assert HasEnded(Moment(now, events, |before|), id);
    assert !Reopens(now, events, id);
    assert HasEnded(Moment(now, events, |events|), id);
  }

  // ------------------------------------------------------------------
  // Claims of one job
  // ------------------------------------------------------------------

  /**
   Two claims of one job, in any run of both paths: if the later one found the job pending, it was
   paused and resumed in between, or resumed on a read from before the first claim; if it found it
   running, on the SKIP LOCKED path, the lease of the last claim or renewal before it had ended by
   its worker's clock.
   */
  lemma ClaimsAreSeparated(now: int, events: seq<Event>, i: nat, j: nat)
    requires var log := Run(Empty(now), events).log;
             i < j < |log| && log[i].Claim? && log[j].Claim? && log[i].id == log[j].id
    ensures var log := Run(Empty(now), events).log;
            && (log[j].pended ==> PausedThenResumed(log, i, j, log[j].id) || ResumedLate(log, i, j, log[j].id))
            && (!log[j].pended && !log[j].optimistic ==>
                  exists until :: until < log[j].stamp && LastLease(log, i, j, log[j].id, until))
  {
    hide TaleOf, WellLogged, LogTells, StepHolds;
    EmptyHolds(now);
    RunKeepsInv(Empty(now), events);
    SeparatedInLog(Run(Empty(now), events).log, i, j);
  }
}
