/**
 What the rows of the queue are for (app/services/system_service.py:407-470, 1426-1490,
 app/services/worker_service.py:184-383): in every run a job keeps the source, mode, cursor and
 creation time it was enqueued with, so the job a worker claims is the one that was asked for.
 */
module QueueOrders {
  import opened Wrappers
  import opened JobQueue
  import opened QueueLog
  import opened QueueRuns
  import opened QueueLaws

  /** What the session of the check of event n goes on with. */
  ghost function VacantOf(now: int, events: seq<Event>, n: nat): Step
    requires n < |events| && events[n].EnqueueCheck?
  {
    Vacant(events[n].sourceType, events[n].sourceId, events[n].mode, events[n].cursor, |Moment(now, events, n).log|)
  }

  ghost predicate StandsAt(now: int, events: seq<Event>, n: nat, k: nat, who: string)
    requires n < |events| && events[n].EnqueueCheck? && k <= |events|
  {
    var steps := Moment(now, events, k).steps;
    who in steps && steps[who] == VacantOf(now, events, n)
  }

  /** Event n is a check that session `who` passes, and the session stands by it until moment m. */
  ghost predicate CheckStands(now: int, events: seq<Event>, n: nat, m: nat, who: string) {
    && n < m <= |events| && events[n].EnqueueCheck? && events[n].who == who && who !in Moment(now, events, n).steps
    && forall k: nat :: n < k <= m ==> StandsAt(now, events, n, k, who)
  }

  ghost predicate HasChecked(now: int, events: seq<Event>, m: nat, who: string) {
    exists n: nat :: CheckStands(now, events, n, m, who)
  }

  /**
   Row `id` is inserted by event m on the check of event n, and row j is for the source, mode and
   cursor that the check was given, created at the time of the insert.
   */
  ghost predicate MadeBy(now: int, events: seq<Event>, n: nat, m: nat, id: nat, j: Job) {
    && m < |events| && events[m].EnqueueInsert? && CheckStands(now, events, n, m, events[m].who)
    && |Moment(now, events, m).rows| == id && |Moment(now, events, m + 1).rows| == id + 1
    && j.sourceType == events[n].sourceType && j.sourceId == events[n].sourceId && j.mode == events[n].mode
    && j.cursor == events[n].cursor && j.createdAt == events[m].at
  }

  ghost predicate AsEnqueued(now: int, events: seq<Event>, id: nat, j: Job) {
    exists n: nat, m: nat :: MadeBy(now, events, n, m, id, j)
  }

  /** Rows stay, and what was asked for stays in them. */
  lemma StepKeepsOrders(w: World, e: Event, id: nat)
    requires id < |w.rows|
    ensures id < |Next(w, e).rows| && SameOrder(w.rows[id], Next(w, e).rows[id])
  {
    hide SourceBusy, ActiveIds, ClaimableIds, SkipLockedChoice, Clip, Locked;
  }

  /** A vacancy was there before, or this event is its check. */
  lemma VacancyOrigin(w: World, e: Event, who: string)
    requires who in Next(w, e).steps && Next(w, e).steps[who].Vacant?
    ensures if who in w.steps then Next(w, e).steps[who] == w.steps[who]
            else e.EnqueueCheck? && e.who == who
                 && Next(w, e).steps[who] == Vacant(e.sourceType, e.sourceId, e.mode, e.cursor, |w.log|)
  {
    hide SourceBusy, ActiveIds, ClaimableIds, SkipLockedChoice, Locked, Claimed, Finished;
  }

  /** Only an insert adds a row, one, made of its session's vacancy and with nothing done about it yet. */
  lemma RowOrigin(w: World, e: Event)
    ensures |Next(w, e).rows| == |w.rows|
            || (&& e.EnqueueInsert? && e.who in w.steps && w.steps[e.who].Vacant? && |Next(w, e).rows| == |w.rows| + 1
                && var s, j := w.steps[e.who], Next(w, e).rows[|w.rows|];
                && j.sourceType == s.sourceType && j.sourceId == s.sourceId && j.mode == s.mode && j.cursor == s.cursor
                && j.createdAt == e.at && Untouched(j))
  {
    hide SourceBusy, ActiveIds, ClaimableIds, SkipLockedChoice, Locked, Claimed, Finished;
  }

  lemma CheckGoesOn(now: int, events: seq<Event>, m: nat, who: string)
    requires m < |events| && (who in Moment(now, events, m).steps && Moment(now, events, m).steps[who].Vacant? ==>
                                HasChecked(now, events, m, who))
    requires who in Moment(now, events, m + 1).steps && Moment(now, events, m + 1).steps[who].Vacant?
    ensures HasChecked(now, events, m + 1, who)
  {
    hide Moment, Next;
    NextMoment(now, events, m);
    VacancyOrigin(Moment(now, events, m), events[m], who);
    if who in Moment(now, events, m).steps {
      var n: nat :| CheckStands(now, events, n, m, who);
      assert StandsAt(now, events, n, m, who);
      assert CheckStands(now, events, n, m + 1, who);
    } else {
      assert CheckStands(now, events, m, m + 1, who);
    }
  }

  lemma RowGoesOn(now: int, events: seq<Event>, m: nat, id: nat)
    requires m < |events| && id < |Moment(now, events, m).rows|
    requires AsEnqueued(now, events, id, Moment(now, events, m).rows[id])
    ensures id < |Moment(now, events, m + 1).rows| && AsEnqueued(now, events, id, Moment(now, events, m + 1).rows[id])
  {
    hide Moment, Next, CheckStands;
    NextMoment(now, events, m);
    StepKeepsOrders(Moment(now, events, m), events[m], id);
    var j, j' := Moment(now, events, m).rows[id], Moment(now, events, m + 1).rows[id];
    var n: nat, k: nat :| MadeBy(now, events, n, k, id, j);
    assert MadeBy(now, events, n, k, id, j');
  }

  lemma NewRowIsAsked(now: int, events: seq<Event>, m: nat)
    requires m < |events| && |Moment(now, events, m + 1).rows| != |Moment(now, events, m).rows|
    requires forall who :: who in Moment(now, events, m).steps && Moment(now, events, m).steps[who].Vacant? ==>
               HasChecked(now, events, m, who)
    ensures var id := |Moment(now, events, m).rows|;
            |Moment(now, events, m + 1).rows| == id + 1 && AsEnqueued(now, events, id, Moment(now, events, m + 1).rows[id])
  {
    hide Moment, Next;
    NextMoment(now, events, m);
    RowOrigin(Moment(now, events, m), events[m]);
    var id, who := |Moment(now, events, m).rows|, events[m].who;
    var n: nat :| CheckStands(now, events, n, m, who);
    assert StandsAt(now, events, n, m, who);
    assert MadeBy(now, events, n, m, id, Moment(now, events, m + 1).rows[id]);
  }

  ghost predicate AllAsEnqueued(now: int, events: seq<Event>, m: nat)
    requires m <= |events|
  {
    && (forall id: nat :: id < |Moment(now, events, m).rows| ==>
          AsEnqueued(now, events, id, Moment(now, events, m).rows[id]))
    && (forall who :: who in Moment(now, events, m).steps && Moment(now, events, m).steps[who].Vacant? ==>
          HasChecked(now, events, m, who))
  }

  lemma {:induction false} AlwaysAsEnqueued(now: int, events: seq<Event>, m: nat)
    requires m <= |events|
    ensures AllAsEnqueued(now, events, m)
  {
    if m == 0 {
      assert Moment(now, events, 0) == Empty(now);
    } else {
      hide Moment, HasChecked, AsEnqueued;
      AlwaysAsEnqueued(now, events, m - 1);
      forall id: nat | id < |Moment(now, events, m).rows|
        ensures AsEnqueued(now, events, id, Moment(now, events, m).rows[id])
      {
        if id < |Moment(now, events, m - 1).rows| {
          RowGoesOn(now, events, m - 1, id);
        } else {
          NewRowIsAsked(now, events, m - 1);
        }
      }
      forall who | who in Moment(now, events, m).steps && Moment(now, events, m).steps[who].Vacant?
        ensures HasChecked(now, events, m, who)
      {
        CheckGoesOn(now, events, m - 1, who);
      }
    }
  }

  /**
   In every run, whatever is claimed, renewed, paused, resumed or ended in between: a row is for
   the source, mode and cursor of the check that its insert rests on, and created when inserted.
   */
  lemma JobIsAsEnqueued(now: int, events: seq<Event>, id: nat)
    requires id < |Run(Empty(now), events).rows|
    ensures exists n: nat, m: nat :: MadeBy(now, events, n, m, id, Run(Empty(now), events).rows[id])
  {
    assert Moment(now, events, |events|) == Run(Empty(now), events) by {
      assert events[..|events|] == events;
    }
    hide Moment, MadeBy, Run;
    AlwaysAsEnqueued(now, events, |events|);
    assert AsEnqueued(now, events, id, Moment(now, events, |events|).rows[id]);
  }
}
