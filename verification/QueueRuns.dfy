/**
 Runs of the job queue in which workers and administrators interleave
 (app/services/worker_service.py:184-383, app/services/system_service.py:407-470, 1426-1490,
 app/api/admin/system.py:369-400).

 Every statement that reads or commits is a step of its own: the select of the SKIP LOCKED path,
 which locks its row, and its update; the read, the check and the conditional update of the other
 path; the check and the insert of an enqueue; the read and the write of a pause or a resume.
 Nobody else can update a locked row. Workers read their clock before their first step.
 */
module QueueRuns {
  import opened Wrappers
  import opened Traces
  import opened JobQueue
  import opened QueueLog

  /** How far a session has got; `seen` is the length of the log when it read. */
  datatype Step =
    | Vacant(sourceType: string, sourceId: int, mode: string, cursor: Option<string>, seen: nat)
    | Holding(id: nat, stamp: int, lease: nat)
    | Found(id: nat, was: Status, stamp: int, lease: nat)
    | Checked(id: nat, was: Status, stamp: int, lease: nat)
    | PauseSeen(id: nat, clears: bool, seen: nat)
    | ResumeSeen(id: nat, seen: nat)

  datatype World = World(rows: Rows, now: int, steps: map<string, Step>, log: seq<Entry>)

  datatype Event =
    | Tick(delta: nat)
    | EnqueueCheck(who: string, sourceType: string, sourceId: int, mode: string, cursor: Option<string>)
    | EnqueueInsert(who: string, at: int)
    | SkipSelect(who: string, stamp: int, lease: nat)
    | SkipUpdate(who: string)
    | Abort(who: string)
    | OptRead(who: string, stamp: int, lease: nat)
    | OptCheck(who: string)
    | OptUpdate(who: string)
    | Renew(id: nat, stamp: int, lease: nat)
    | Finish(id: nat, ok: bool, error: Option<string>, at: int)
    | PauseRead(who: string, id: nat)
    | PauseWrite(who: string)
    | ResumeRead(who: string, id: nat)
    | ResumeWrite(who: string)

  function Locked(w: World): set<nat> {
    set who | who in w.steps && w.steps[who].Holding? :: w.steps[who].id
  }

  /** The row exists and an update of it need not wait. */
  predicate Free(w: World, id: nat) {
    id < |w.rows| && id !in Locked(w)
  }

  /** A session without anything begun begins. */
  function Begin(w: World, who: string, s: Step): World {
    if who in w.steps then w else w.(steps := w.steps[who := s])
  }

  /** A row changes, its entry is logged, and the session is through. */
  function Commit(w: World, steps: map<string, Step>, j: Job, e: Entry): World
    requires e.id < |w.rows|
  {
    World(w.rows[e.id := j], w.now, steps, w.log + [e])
  }

  /** Lease, worker and status of the claimed row, the entry for it, and the worker done with claiming. */
  function Grant(w: World, who: string, id: nat, stamp: int, lease: nat, optimistic: bool): World
    requires id < |w.rows|
  {
    Commit(w, w.steps - {who}, Claimed(w.rows[id], who, stamp, lease),
           Claim(id, who, stamp, stamp + lease, w.rows[id].status.Pending?, optimistic))
  }

  /** The conditional update, WHERE id = ? AND status = ?: it hits the row or gives up. */
  function Update(w: World, who: string): World
    requires who in w.steps && w.steps[who].Checked? && w.steps[who].id < |w.rows|
  {
    var s := w.steps[who];
    if w.rows[s.id].status == s.was then Grant(w, who, s.id, s.stamp, s.lease, true)
    else w.(steps := w.steps - {who})
  }

  /** The insert does not look at the table again. */
  function Insert(w: World, who: string, at: int): World
    requires who in w.steps && w.steps[who].Vacant?
  {
    var s := w.steps[who];
    World(w.rows + [NewJob(s.sourceType, s.sourceId, s.mode, s.cursor, at)], w.now, w.steps - {who},
          w.log + [Insertion(|w.rows|, s.seen)])
  }

  /** What the pause writes: the status, and the lease if it read one; by id, whatever the row is now. */
  function PausedLate(j: Job, clears: bool): Job {
    j.(status := Paused, leaseUntil := if clears then None else j.leaseUntil)
  }

  /** One step; an event that is not possible in `w` changes nothing. */
  function Next(w: World, e: Event): World {
    match e
    case Tick(delta) => w.(now := w.now + delta)
    case EnqueueCheck(who, sourceType, sourceId, mode, cursor) =>
      if ActiveIds(w.rows, sourceType, sourceId) == {} then
        Begin(w, who, Vacant(sourceType, sourceId, mode, cursor, |w.log|))
      else w
    case EnqueueInsert(who, at) =>
      if who in w.steps && w.steps[who].Vacant? then Insert(w, who, at) else w
    case SkipSelect(who, stamp, lease) =>
      if stamp > w.now then w
      else
        (match SkipLockedChoice(w.rows, stamp, Locked(w))
         case None => w
         case Some(id) => Begin(w, who, Holding(id, stamp, lease)))
    case SkipUpdate(who) =>
      if who in w.steps && w.steps[who].Holding? && w.steps[who].id < |w.rows| then
        Grant(w, who, w.steps[who].id, w.steps[who].stamp, w.steps[who].lease, false)
      else w
    case Abort(who) => w.(steps := w.steps - {who})
    case OptRead(who, stamp, lease) =>
      if stamp > w.now then w
      else
        (match Least(w.rows, ClaimableIds(w.rows, stamp), |w.rows|)
         case None => w
         case Some(id) => Begin(w, who, Found(id, w.rows[id].status, stamp, lease)))
    case OptCheck(who) =>
      if who in w.steps && w.steps[who].Found? && w.steps[who].id < |w.rows| then
        var s := w.steps[who];
        w.(steps := if SourceBusy(w.rows, s.id, s.stamp) then w.steps - {who}
                    else w.steps[who := Checked(s.id, s.was, s.stamp, s.lease)])
      else w
    case OptUpdate(who) =>
      if who in w.steps && w.steps[who].Checked? && Free(w, w.steps[who].id) then Update(w, who) else w
    case Renew(id, stamp, lease) =>
      if Free(w, id) && stamp <= w.now then
        Commit(w, w.steps, w.rows[id].(leaseUntil := Some(stamp + lease)), Renewal(id, stamp + lease))
      else w
    case Finish(id, ok, error, at) =>
      if Free(w, id) then Commit(w, w.steps, Finished(w.rows[id], ok, error, at), Ending(id, ok)) else w
    case PauseRead(who, id) =>
      if id < |w.rows| && (w.rows[id].status.Pending? || w.rows[id].status.Running?) then
        Begin(w, who, PauseSeen(id, w.rows[id].leaseUntil.Some?, |w.log|))
      else w
    case PauseWrite(who) =>
      if who in w.steps && w.steps[who].PauseSeen? && Free(w, w.steps[who].id) then
        var s := w.steps[who];
        Commit(w, w.steps - {who}, PausedLate(w.rows[s.id], s.clears), Pausing(s.id, s.clears, s.seen))
      else w
    case ResumeRead(who, id) =>
      if id < |w.rows| && w.rows[id].status.Paused? then Begin(w, who, ResumeSeen(id, |w.log|)) else w
    case ResumeWrite(who) =>
      if who in w.steps && w.steps[who].ResumeSeen? && Free(w, w.steps[who].id) then
        var s := w.steps[who];
        Commit(w, w.steps - {who}, w.rows[s.id].(status := Pending), Resuming(s.id, s.seen))
      else w
  }

  function Run(w: World, events: seq<Event>): World {
    Trace(Next, w, events)
  }

  function Empty(now: int): World {
    World([], now, map[], [])
  }

  // ------------------------------------------------------------------
  // The invariant
  // ------------------------------------------------------------------

  predicate OfSource(j: Job, sourceType: string, sourceId: int) {
    j.sourceType == sourceType && j.sourceId == sourceId
  }

  /** Entry m gave the source an unfinished job: an insert, or a late write of one of its jobs. */
  ghost predicate TakesSource(rows: Rows, log: seq<Entry>, m: nat, sourceType: string, sourceId: int) {
    && m < |log| && log[m].id < |rows| && OfSource(rows[log[m].id], sourceType, sourceId)
    && (log[m].Insertion? || LateWrite(log, m, log[m].id))
  }

  /** Since the session's check, the source has been given an unfinished job. */
  ghost predicate Overtaken(rows: Rows, log: seq<Entry>, sourceType: string, sourceId: int, seen: nat) {
    exists m: nat :: seen <= m && TakesSource(rows, log, m, sourceType, sourceId)
  }

  ghost predicate StillVacant(rows: Rows, log: seq<Entry>, sourceType: string, sourceId: int, seen: nat) {
    Overtaken(rows, log, sourceType, sourceId, seen) || ActiveIds(rows, sourceType, sourceId) == {}
  }

  /**
   A session that holds a row's lock holds a claimable one; the others read what they say they
   read, and a source found without an unfinished job has none unless it was given one since.
   */
  ghost predicate StepHolds(rows: Rows, log: seq<Entry>, s: Step) {
    match s
    case Vacant(sourceType, sourceId, _, _, seen) => seen <= |log| && StillVacant(rows, log, sourceType, sourceId, seen)
    case Holding(id, stamp, _) => id < |rows| && Claimable(rows[id], stamp)
    case Found(id, was, _, _) => id < |rows| && (was.Pending? || was.Running?)
    case Checked(id, was, _, _) => id < |rows| && (was.Pending? || was.Running?)
    case PauseSeen(id, clears, seen) => id < |rows| && Justified(log, Pausing(id, clears, seen))
    case ResumeSeen(id, seen) => id < |rows| && Justified(log, Resuming(id, seen))
  }

  ghost predicate LogTells(rows: Rows, log: seq<Entry>) {
    && (forall i :: 0 <= i < |log| ==> log[i].id < |rows|)
    && (forall id: nat :: id < |rows| ==> TaleOf(log, id) == Tale(rows[id].status, rows[id].leaseUntil))
  }

  ghost predicate Inv(w: World) {
    && (forall who :: who in w.steps ==> StepHolds(w.rows, w.log, w.steps[who]))
    && (forall a, b :: a in w.steps && b in w.steps && a != b && w.steps[a].Holding? && w.steps[b].Holding? ==>
          w.steps[a].id != w.steps[b].id)
    && LogTells(w.rows, w.log) && WellLogged(w.log)
  }

  lemma {:induction false} TaleOfNone(log: seq<Entry>, id: nat)
    requires forall i :: 0 <= i < |log| ==> log[i].id != id
    ensures TaleOf(log, id) == Tale(Pending, None)
  {
    if log != [] {
      TaleOfNone(log[..|log| - 1], id);
    }
  }

  /** A row and its entry change together. */
  lemma TellsOneMore(rows: Rows, log: seq<Entry>, j: Job, e: Entry)
    requires LogTells(rows, log) && e.id < |rows|
    requires Tale(j.status, j.leaseUntil) == Told(Tale(rows[e.id].status, rows[e.id].leaseUntil), e)
    ensures LogTells(rows[e.id := j], log + [e])
  {
    hide TaleOf, Told;
    forall id: nat | id < |rows|
      ensures TaleOf(log + [e], id) == Tale(rows[e.id := j][id].status, rows[e.id := j][id].leaseUntil)
    {
      LogOneMore(log, e, id);
    }
  }

  lemma TellsNewRow(rows: Rows, log: seq<Entry>, j: Job, e: Entry)
    requires LogTells(rows, log) && j.status.Pending? && j.leaseUntil.None? && e.Insertion? && e.id == |rows|
    ensures LogTells(rows + [j], log + [e])
  {
    hide TaleOf;
    forall id: nat | id < |rows| + 1
      ensures TaleOf(log + [e], id) == Tale((rows + [j])[id].status, (rows + [j])[id].leaseUntil)
    {
      LogOneMore(log, e, id);
      if id == |rows| {
        TaleOfNone(log, id);
      }
    }
  }

  /** The row of e, or a new row for it, changes; the sources of the rows do not. */
  predicate Grown(rows: Rows, rows': Rows, e: Entry) {
    && |rows| <= |rows'| && e.id < |rows'| && (e.id < |rows| ==> SameSource(rows[e.id], rows'[e.id]))
    && forall id: nat :: id < |rows'| ==> id == e.id || (id < |rows| && rows'[id] == rows[id])
  }

  /** A row becomes unfinished only by an insert or a late write. */
  ghost predicate Accounted(rows: Rows, rows': Rows, log: seq<Entry>, e: Entry)
    requires Grown(rows, rows', e)
  {
    Active(rows'[e.id]) && (e.id < |rows| ==> !Active(rows[e.id])) ==> e.Insertion? || LateWrite(log + [e], |log|, e.id)
  }

  lemma TakesSourceLater(rows: Rows, rows': Rows, log: seq<Entry>, e: Entry, m: nat, sourceType: string, sourceId: int)
    requires TakesSource(rows, log, m, sourceType, sourceId) && Grown(rows, rows', e)
    ensures TakesSource(rows', log + [e], m, sourceType, sourceId)
  {
    hide LateWrite;
    if !log[m].Insertion? {
      StillLateWrite(log, e, m, log[m].id);
    }
  }

  lemma StillVacantLater(
    rows: Rows, rows': Rows, log: seq<Entry>, e: Entry, sourceType: string, sourceId: int, seen: nat)
    requires StillVacant(rows, log, sourceType, sourceId, seen) && seen <= |log|
    requires Grown(rows, rows', e) && Accounted(rows, rows', log, e)
    ensures StillVacant(rows', log + [e], sourceType, sourceId, seen)
  {
    hide LateWrite;
    if Overtaken(rows, log, sourceType, sourceId, seen) {
      hide Accounted, Grown;
      var m: nat :| seen <= m && TakesSource(rows, log, m, sourceType, sourceId);
      TakesSourceLater(rows, rows', log, e, m, sourceType, sourceId);
    } else if id :| id in ActiveIds(rows', sourceType, sourceId) {
      assert id !in ActiveIds(rows, sourceType, sourceId);
      assert TakesSource(rows', log + [e], |log|, sourceType, sourceId);
    }
  }

  lemma StepHoldsLater(rows: Rows, rows': Rows, log: seq<Entry>, e: Entry, s: Step)
    requires StepHolds(rows, log, s) && Grown(rows, rows', e) && Accounted(rows, rows', log, e)
    requires s.Holding? ==> s.id != e.id
    ensures StepHolds(rows', log + [e], s)
  {
    hide TaleOf, MayPause, StillVacant, Accounted;
    match s
    case Vacant(sourceType, sourceId, _, _, seen) =>
      StillVacantLater(rows, rows', log, e, sourceType, sourceId, seen);
    case PauseSeen(_, _, seen) =>
      assert (log + [e])[..seen] == log[..seen];
    case ResumeSeen(_, seen) =>
      assert (log + [e])[..seen] == log[..seen];
    case _ =>
  }

  /** A write that makes an ended job unfinished is late. */
  lemma ReactivationIsLate(rows: Rows, log: seq<Entry>, e: Entry)
    requires LogTells(rows, log) && Justified(log, e) && (e.Pausing? || e.Resuming?) && e.id < |rows|
    requires !Active(rows[e.id])
    ensures LateWrite(log + [e], |log|, e.id)
  {
    hide TaleOf, Justified;
    assert (log + [e])[..|log|] == log;
    WriteOnFinishedIsLate(log + [e], |log|);
  }

  /** A row no other session has locked changes, and the log says so. */
  lemma RowChangeKeeps(w: World, j: Job, e: Entry, steps: map<string, Step>)
    requires Inv(w) && e.id < |w.rows|
    requires forall who :: who in steps ==>
               who in w.steps && steps[who] == w.steps[who] && !(steps[who].Holding? && steps[who].id == e.id)
    requires SameSource(w.rows[e.id], j) && (Active(j) ==> Active(w.rows[e.id]) || e.Pausing? || e.Resuming?)
    requires Tale(j.status, j.leaseUntil) == Told(Tale(w.rows[e.id].status, w.rows[e.id].leaseUntil), e)
    requires Justified(w.log, e)
    ensures Inv(Commit(w, steps, j, e))
  {
    hide TaleOf, WellLogged, Told, Justified, StepHolds, Active, LateWrite;
    TellsOneMore(w.rows, w.log, j, e);
    LogOneMore(w.log, e, e.id);
    if Active(j) && !Active(w.rows[e.id]) {
      ReactivationIsLate(w.rows, w.log, e);
    }
    var rows' := w.rows[e.id := j];
    assert Grown(w.rows, rows', e) && Accounted(w.rows, rows', w.log, e);
    forall who | who in steps ensures StepHolds(rows', w.log + [e], steps[who]) {
      StepHoldsLater(w.rows, rows', w.log, e, steps[who]);
    }
  }

  lemma GrantKeeps(w: World, who: string, id: nat, stamp: int, lease: nat, optimistic: bool)
    requires Inv(w) && who in w.steps && id < |w.rows|
    requires w.rows[id].status.Pending? || (w.rows[id].status.Running? && (optimistic || Claimable(w.rows[id], stamp)))
    requires forall other :: other in w.steps && other != who && w.steps[other].Holding? ==> w.steps[other].id != id
    ensures Inv(Grant(w, who, id, stamp, lease, optimistic))
  {
    hide TaleOf, WellLogged, StepHolds;
    RowChangeKeeps(
      w, Claimed(w.rows[id], who, stamp, lease),
      Claim(id, who, stamp, stamp + lease, w.rows[id].status.Pending?, optimistic),
      w.steps - {who});
  }

  /** Nobody holds a free row. */
  lemma FreeIsNotHeld(w: World, id: nat)
    requires Free(w, id)
    ensures forall who :: who in w.steps && w.steps[who].Holding? ==> w.steps[who].id != id
  {
    forall who | who in w.steps && w.steps[who].Holding? ensures w.steps[who].id in Locked(w) {
    }
  }

  lemma InsertKeeps(w: World, who: string, at: int)
    requires Inv(w) && who in w.steps && w.steps[who].Vacant?
    ensures Inv(Insert(w, who, at))
  {
    var s, w' := w.steps[who], Insert(w, who, at);
    var j, e := w'.rows[|w.rows|], w'.log[|w.log|];
    assert Justified(w.log, e);
    assert Grown(w.rows, w'.rows, e) && Accounted(w.rows, w'.rows, w.log, e);
    hide TaleOf, WellLogged, Told, Accounted, Grown, Justified;
    TellsNewRow(w.rows, w.log, j, e);
    LogOneMore(w.log, e, e.id);
    forall other | other in w'.steps ensures StepHolds(w'.rows, w'.log, w'.steps[other]) {
      hide StepHolds;
      StepHoldsLater(w.rows, w'.rows, w.log, e, w.steps[other]);
    }
  }

  /** A session that begins changes nothing else. */
  lemma BeginKeeps(w: World, who: string, s: Step)
    requires Inv(w) && (who !in w.steps ==> StepHolds(w.rows, w.log, s))
    requires s.Holding? ==> forall other :: other in w.steps && w.steps[other].Holding? ==> w.steps[other].id != s.id
    ensures Inv(Begin(w, who, s))
  {
    hide StepHolds, LogTells, WellLogged;
  }

  lemma ClaimStepKeeps(w: World, e: Event)
    requires Inv(w)
    requires e.SkipSelect? || e.SkipUpdate? || e.Abort? || e.OptRead? || e.OptCheck? || e.OptUpdate?
    ensures Inv(Next(w, e))
  {
    hide TaleOf, WellLogged, LogTells, SourceBusy, Least, Grant, StillVacant, Begin;
    match e
    case SkipSelect(who, stamp, lease) =>
      if stamp <= w.now && SkipLockedChoice(w.rows, stamp, Locked(w)).Some? {
        var id := SkipLockedChoice(w.rows, stamp, Locked(w)).value;
        assert Free(w, id);
        FreeIsNotHeld(w, id);
        BeginKeeps(w, who, Holding(id, stamp, lease));
      }
    case SkipUpdate(who) =>
      if who in w.steps && w.steps[who].Holding? && w.steps[who].id < |w.rows| {
        GrantKeeps(w, who, w.steps[who].id, w.steps[who].stamp, w.steps[who].lease, false);
      }
    case OptUpdate(who) =>
      if who in w.steps && w.steps[who].Checked? && Free(w, w.steps[who].id) {
        var s := w.steps[who];
        FreeIsNotHeld(w, s.id);
        if w.rows[s.id].status == s.was {
          GrantKeeps(w, who, s.id, s.stamp, s.lease, true);
        }
      }
    case OptRead(who, stamp, lease) =>
      var found := Least(w.rows, ClaimableIds(w.rows, stamp), |w.rows|);
      if stamp <= w.now && found.Some? {
        BeginKeeps(w, who, Found(found.value, w.rows[found.value].status, stamp, lease));
      }
    case OptCheck(who) =>
    case Abort(who) =>
  }

  lemma OtherStepKeeps(w: World, e: Event)
    requires Inv(w) && (e.Renew? || e.Finish?)
    ensures Inv(Next(w, e))
  {
    hide TaleOf, WellLogged, LogTells, StepHolds, Commit;
    if Free(w, e.id) {
      FreeIsNotHeld(w, e.id);
      match e
      case Renew(id, stamp, lease) =>
        if stamp <= w.now {
          RowChangeKeeps(w, w.rows[id].(leaseUntil := Some(stamp + lease)), Renewal(id, stamp + lease), w.steps);
        }
      case Finish(id, ok, error, at) => RowChangeKeeps(w, Finished(w.rows[id], ok, error, at), Ending(id, ok), w.steps);
    }
  }

  lemma ReadKeeps(w: World, e: Event)
    requires Inv(w) && (e.PauseRead? || e.ResumeRead? || e.EnqueueCheck?)
    ensures Inv(Next(w, e))
  {
    assert w.log[..|w.log|] == w.log;
    hide TaleOf, WellLogged, Begin, ActiveIds, Overtaken;
    match e
    case PauseRead(who, id) =>
      if id < |w.rows| && (w.rows[id].status.Pending? || w.rows[id].status.Running?) {
        BeginKeeps(w, who, PauseSeen(id, w.rows[id].leaseUntil.Some?, |w.log|));
      }
    case ResumeRead(who, id) =>
      if id < |w.rows| && w.rows[id].status.Paused? {
        BeginKeeps(w, who, ResumeSeen(id, |w.log|));
      }
    case EnqueueCheck(who, sourceType, sourceId, mode, cursor) =>
      if ActiveIds(w.rows, sourceType, sourceId) == {} {
        BeginKeeps(w, who, Vacant(sourceType, sourceId, mode, cursor, |w.log|));
      }
  }

  lemma WriteKeeps(w: World, e: Event)
    requires Inv(w) && (e.PauseWrite? || e.ResumeWrite?)
    ensures Inv(Next(w, e))
  {
    hide TaleOf, WellLogged, LogTells, Justified, Commit, StillVacant;
    if e.who in w.steps && (w.steps[e.who].PauseSeen? || w.steps[e.who].ResumeSeen?) && Free(w, w.steps[e.who].id) {
      var s := w.steps[e.who];
      FreeIsNotHeld(w, s.id);
      if e.PauseWrite? && s.PauseSeen? {
        RowChangeKeeps(w, PausedLate(w.rows[s.id], s.clears), Pausing(s.id, s.clears, s.seen), w.steps - {e.who});
      } else if e.ResumeWrite? && s.ResumeSeen? {
        RowChangeKeeps(w, w.rows[s.id].(status := Pending), Resuming(s.id, s.seen), w.steps - {e.who});
      }
    }
  }

  lemma StepKeepsInv(w: World, e: Event)
    requires Inv(w)
    ensures Inv(Next(w, e))
  {
    hide TaleOf, WellLogged, LogTells, StepHolds, Insert;
    match e
    case Tick(_) =>
    case EnqueueInsert(who, at) =>
      if who in w.steps && w.steps[who].Vacant? {
        InsertKeeps(w, who, at);
      }
    case EnqueueCheck(_, _, _, _, _) => ReadKeeps(w, e);
    case PauseRead(_, _) => ReadKeeps(w, e);
    case ResumeRead(_, _) => ReadKeeps(w, e);
    case PauseWrite(_) => WriteKeeps(w, e);
    case ResumeWrite(_) => WriteKeeps(w, e);
    case Renew(_, _, _) => OtherStepKeeps(w, e);
    case Finish(_, _, _, _) => OtherStepKeeps(w, e);
    case _ => ClaimStepKeeps(w, e);
  }

  lemma {:induction false} RunKeepsInv(w: World, events: seq<Event>)
    requires Inv(w)
    ensures Inv(Run(w, events))
    decreases |events|
  {
    hide Inv, Next;
    if events != [] {
      StepKeepsInv(w, events[0]);
      RunKeepsInv(Next(w, events[0]), events[1..]);
    }
  }

  lemma EmptyHolds(now: int)
    ensures Inv(Empty(now))
  {
  }
}
