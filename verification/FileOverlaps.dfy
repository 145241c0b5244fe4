/**
 File jobs whose attempts overlap (app/services/smb_job_processor.py:403-583). Leases are renewed only
 when a batch of items is flushed, so a slow attempt can be reclaimed while it still runs. Every
 document sent, row saved and checkpoint committed is a step of its own here, the last overwrite of
 the checkpoint and the finalize of the worker included, and an attempt may die between any two.
 The engine may refuse documents.
 */
module FileOverlaps {
  import opened Wrappers
  import opened Traces
  import opened SearchIndex
  import opened JobProgress
  import opened FileScan
  import opened FileAgreement
  import opened FileResume
  import FileRuns

  datatype Job = Job(src: Source, full: bool, entries: seq<FileEntry>)

  /**
   An attempt goes by `begun`, the checkpoint at its start, and by `snapshot`, the rows it loads
   before its walk; the numbers are places in the walk.
   */
  datatype Live = Live(snapshot: States, begun: Option<string>, start: nat, saved: nat, sent: nat)

  /**
   `ended`: the job is finalised. `complete`: some attempt came to its overwrite with nothing left of the walk.
   `closing` are the attempts between their overwrite and their finalize.
   */
  datatype World = World(
    states: States, store: Store, cursor: Option<string>, ended: bool, complete: bool, refused: set<nat>,
    attempts: map<string, Live>, closing: set<string>)

  /** A finalize that fails in the database leaves the job as it is and so counts as a kill. */
  datatype Event =
    | Start(who: string)
    | Load(who: string)
    | Send(who: string, accepted: bool)
    | Save(who: string)
    | Commit(who: string)
    | Overwrite(who: string, handled: nat)
    | Finalise(who: string)
    | Kill(who: string)

  /** The checkpoint an attempt goes by. */
  function Begun(j: Job, cursor: Option<string>): Option<string> {
    if j.full then None else OrElse(cursor, None)
  }

  /** How many files of the walk an attempt skips that starts at this checkpoint. */
  function Skipped(j: Job, cursor: Option<string>): int {
    |j.entries| - |ToHandle(j.entries, if j.full then None else cursor)|
  }

  function StoreAfter(src: Source, snapshot: States, store: Store, e: FileEntry, accepted: bool): Store {
    match VerdictOf(src, snapshot, e)
    case Changed(item, _) => if accepted then PutItem(store, item, src.model) else store
    case _ => store
  }

  function StatesAfter(src: Source, snapshot: States, states: States, e: FileEntry): States {
    match VerdictOf(src, snapshot, e)
    case HashSame(s) => states[e.relPath := s]
    case Changed(_, s) => states[e.relPath := s]
    case _ => states
  }

  /** The next file of the attempt is dealt with; what the engine refuses is noted. */
  function Sent(j: Job, w: World, who: string, accepted: bool): World
    requires who in w.attempts && w.attempts[who].sent < |j.entries|
  {
    var a := w.attempts[who];
    var e := j.entries[a.sent];
    w.(store := StoreAfter(j.src, a.snapshot, w.store, e, accepted),
       refused := if FileDoc(j.src, a.snapshot, e).Some? && !accepted then w.refused + {a.sent} else w.refused,
       attempts := w.attempts[who := a.(sent := a.sent + 1)])
  }

  function Saved(j: Job, w: World, who: string): World
    requires who in w.attempts && w.attempts[who].saved < |j.entries|
  {
    var a := w.attempts[who];
    w.(states := StatesAfter(j.src, a.snapshot, w.states, j.entries[a.saved]),
       attempts := w.attempts[who := a.(saved := a.saved + 1)])
  }

  /** One step; an event that is not possible in `w` changes nothing. */
  function Next(j: Job, w: World, e: Event): World {
    match e
    case Start(who) =>
      var k := Skipped(j, w.cursor);
      if w.ended || who in w.attempts || who in w.closing || k < 0 then w
      else w.(attempts := w.attempts[who := Live(w.states, Begun(j, w.cursor), k, k, k)])
    case Load(who) =>
      if who in w.attempts && w.attempts[who].sent == w.attempts[who].start then
        w.(attempts := w.attempts[who := w.attempts[who].(snapshot := w.states)])
      else w
    case Send(who, accepted) =>
      if who in w.attempts && w.attempts[who].sent < |j.entries| then Sent(j, w, who, accepted) else w
    case Save(who) =>
      if who in w.attempts && w.attempts[who].saved < w.attempts[who].sent <= |j.entries| then Saved(j, w, who) else w
    case Commit(who) =>
      if who in w.attempts && w.attempts[who].start < w.attempts[who].sent <= |j.entries| then
        w.(cursor := Some(j.entries[w.attempts[who].sent - 1].relPath))
      else w
    case Overwrite(who, handled) =>
      if Closes(j, w, e) then
        var a := w.attempts[who];
        w.(cursor := if a.start < handled then Some(j.entries[handled - 1].relPath) else a.begun,
           complete := w.complete || a.sent == |j.entries|, attempts := w.attempts - {who}, closing := w.closing + {who})
      else w
    case Finalise(who) =>
      if who in w.attempts || who in w.closing then
        w.(ended := true, attempts := w.attempts - {who}, closing := w.closing - {who})
      else w
    case Kill(who) => w.(attempts := w.attempts - {who}, closing := w.closing - {who})
  }

  /** The walk of an attempt is over, after `handled` files; those from `sent` on are dropped with what was pending. */
  predicate Closes(j: Job, w: World, e: Event) {
    && e.Overwrite? && e.who in w.attempts
    && w.attempts[e.who].start <= w.attempts[e.who].sent <= e.handled <= |j.entries|
  }

  function Step(j: Job): (World, Event) -> World {
    (w: World, e: Event) => Next(j, w, e)
  }

  function Run(j: Job, w: World, events: seq<Event>): World {
    Trace(Step(j), w, events)
  }

  function First(states: States, store: Store, cursor: Option<string>): World {
    World(states, store, cursor, false, false, {}, map[], {})
  }

  // ------------------------------------------------------------------
  // What becomes of one file in a run
  // ------------------------------------------------------------------

  /** An overwrite moves the checkpoint past file p while its document is pending. */
  predicate Overtakes(j: Job, w: World, e: Event, p: nat) {
    Closes(j, w, e) && w.attempts[e.who].sent <= p < e.handled
  }

  predicate Overtaken(j: Job, w: World, events: seq<Event>, p: nat)
    decreases |events|
  {
    events != [] && (Overtakes(j, w, events[0], p) || Overtaken(j, Next(j, w, events[0]), events[1..], p))
  }

  /** An attempt deals with file p. */
  predicate TakesTurn(j: Job, w: World, e: Event, p: nat) {
    e.Send? && e.who in w.attempts && w.attempts[e.who].sent == p < |j.entries|
  }

  predicate HadTurn(j: Job, w: World, events: seq<Event>, p: nat)
    decreases |events|
  {
    events != [] && (TakesTurn(j, w, events[0], p) || HadTurn(j, Next(j, w, events[0]), events[1..], p))
  }

  /** No walk of the run breaks off with items pending. */
  predicate NothingDropped(j: Job, w: World, events: seq<Event>)
    decreases |events|
  {
    events == []
    || ((Closes(j, w, events[0]) ==> w.attempts[events[0].who].sent == events[0].handled)
        && NothingDropped(j, Next(j, w, events[0]), events[1..]))
  }

  // ------------------------------------------------------------------
  // One step and one file
  // ------------------------------------------------------------------

  /** A document that is sent leaves other files' documents alone, and is its own file's present one. */
  lemma SendKeeps(src: Source, snapshot: States, store: Store, sent: FileEntry, accepted: bool, e: FileEntry)
    requires sent == e || sent.relPath != e.relPath
    ensures var store' := StoreAfter(src, snapshot, store, sent, accepted);
            && (IndexedNow(src, store, e) ==> IndexedNow(src, store', e))
            && (sent.relPath != e.relPath ==> (IndexedNow(src, store', e) <==> IndexedNow(src, store, e)))
            && forall states :: RowIsTrue(src, states, store, e) ==> RowIsTrue(src, states, store', e)
  {
    hide Classify, KeyFor, DocFor, PutItem, StateOf;
    if VerdictOf(src, snapshot, sent).Changed? && accepted {
      PutChanged(src, snapshot, store, sent, e.relPath);
      var content := SentIsCurrent(src, snapshot, sent);
    }
  }

  /** After its turn, a file in size is indexed as it is now, or its document was refused. */
  lemma SendIndexes(src: Source, snapshot: States, store: Store, e: FileEntry, accepted: bool)
    requires InCap(src, e) && MetaIsFaithful(src, snapshot, e) && RowIsTrue(src, snapshot, store, e)
    ensures IndexedNow(src, StoreAfter(src, snapshot, store, e, accepted), e)
            || (FileDoc(src, snapshot, e).Some? && !accepted)
  {
    hide Classify, KeyFor, DocFor, PutItem, FaithfulMeta, InCap, StateOf;
    var store' := StoreAfter(src, snapshot, store, e, accepted);
    var v := VerdictOf(src, snapshot, e);
    if v.Changed? {
      PutChanged(src, snapshot, store, e, e.relPath);
      var content := SentIsCurrent(src, snapshot, e);
    }
    forall content | src.read(e.fullPath) == Some(content) && DocFor(src, e.relPath, content).Some?
      ensures Lookup(store', KeyFor(src, e.relPath)) == DocFor(src, e.relPath, content)
              || (FileDoc(src, snapshot, e).Some? && !accepted)
    {
      VerdictOnIndexable(src, snapshot, e, content);
    }
  }

  /** A saved row is its file's present one. */
  lemma SaveKeeps(src: Source, snapshot: States, states: States, store: Store, saved: FileEntry, e: FileEntry)
    requires saved == e || saved.relPath != e.relPath
    requires MetaIsFaithful(src, states, e)
    ensures var states' := StatesAfter(src, snapshot, states, saved);
            && MetaIsFaithful(src, states', e)
            && (saved.relPath != e.relPath && RowIsTrue(src, states, store, e) ==> RowIsTrue(src, states', store, e))
  {
  }

  // ------------------------------------------------------------------
  // Every step keeps what is known of a file
  // ------------------------------------------------------------------

  /** File p is in the index as it is now, or the engine refused it. */
  ghost predicate Good(j: Job, w: World, p: nat)
    requires p < |j.entries|
  {
    p in w.refused || IndexedNow(j.src, w.store, j.entries[p])
  }

  /** What these rows say of the file can be relied on. */
  ghost predicate Reliable(j: Job, w: World, states: States, p: nat)
    requires p < |j.entries|
  {
    MetaIsFaithful(j.src, states, j.entries[p]) && (Good(j, w, p) || RowIsTrue(j.src, states, w.store, j.entries[p]))
  }

  /** `passed`: some overwrite has passed the file while its document was pending. */
  ghost predicate LiveWell(j: Job, w: World, a: Live, from: nat, p: nat, passed: bool)
    requires p < |j.entries|
  {
    && from <= a.start <= a.saved <= a.sent <= |j.entries| && a.start == Skipped(j, a.begun)
    && Reliable(j, w, a.snapshot, p)
    && (a.start <= p < a.sent ==> Good(j, w, p)) && (from <= p < a.start ==> passed || Good(j, w, p))
  }

  /** For a job that first started after `from` files. */
  ghost predicate Inv(j: Job, w: World, from: nat, p: nat, passed: bool)
    requires p < |j.entries|
  {
    && Reliable(j, w, w.states, p) && from <= Skipped(j, w.cursor)
    && (forall who :: who in w.attempts ==> LiveWell(j, w, w.attempts[who], from, p, passed))
    && (from <= p < Skipped(j, w.cursor) ==> passed || Good(j, w, p))
    && (w.complete && from <= p ==> passed || Good(j, w, p))
  }

  lemma SendStep(j: Job, w: World, who: string, accepted: bool, from: nat, p: nat, passed: bool)
    requires FileRuns.OrderedWalk(j.entries) && p < |j.entries| && InCap(j.src, j.entries[p])
    requires Inv(j, w, from, p, passed) && who in w.attempts && w.attempts[who].sent < |j.entries|
    ensures Inv(j, Sent(j, w, who, accepted), from, p, passed)
    ensures Good(j, Sent(j, w, who, accepted), p) <==> Good(j, w, p) || w.attempts[who].sent == p
  {
    hide StoreAfter, IndexedNow, MetaIsFaithful, RowIsTrue, InCap, Skipped, FileDoc, FileRuns.OrderedWalk;
    var a, w' := w.attempts[who], Sent(j, w, who, accepted);
    var sent, e := j.entries[a.sent], j.entries[p];
    DistinctFiles(j.entries, a.sent, p);
    SendKeeps(j.src, a.snapshot, w.store, sent, accepted, e);
    assert Good(j, w, p) ==> Good(j, w', p);
    assert Reliable(j, w, w.states, p) ==> Reliable(j, w', w.states, p);
    assert LiveWell(j, w, a, from, p, passed);
    if a.sent == p && !Good(j, w, p) {
      SendIndexes(j.src, a.snapshot, w.store, e, accepted);
    }
    forall other | other in w'.attempts ensures LiveWell(j, w', w'.attempts[other], from, p, passed) {
      assert LiveWell(j, w, w.attempts[other], from, p, passed);
      assert Reliable(j, w', w.attempts[other].snapshot, p);
    }
  }

  lemma DistinctFiles(entries: seq<FileEntry>, i: nat, p: nat)
    requires FileRuns.OrderedWalk(entries) && i < |entries| && p < |entries|
    ensures i == p || entries[i].relPath != entries[p].relPath
  {
    FileRuns.WalkIsDistinct(entries);
  }

  lemma SaveStep(j: Job, w: World, who: string, from: nat, p: nat, passed: bool)
    requires FileRuns.OrderedWalk(j.entries) && p < |j.entries| && Inv(j, w, from, p, passed)
    requires who in w.attempts && w.attempts[who].saved < w.attempts[who].sent <= |j.entries|
    ensures Inv(j, Saved(j, w, who), from, p, passed)
    ensures Good(j, Saved(j, w, who), p) <==> Good(j, w, p)
  {
    hide StatesAfter, IndexedNow, MetaIsFaithful, RowIsTrue, Skipped, FileRuns.OrderedWalk;
    var a, w' := w.attempts[who], Saved(j, w, who);
    assert LiveWell(j, w, a, from, p, passed);
    DistinctFiles(j.entries, a.saved, p);
    SaveKeeps(j.src, a.snapshot, w.states, w.store, j.entries[a.saved], j.entries[p]);
    assert Good(j, w, p) <==> Good(j, w', p);
    forall other | other in w'.attempts ensures LiveWell(j, w', w'.attempts[other], from, p, passed) {
      assert LiveWell(j, w, w.attempts[other], from, p, passed);
    }
  }

  lemma SkippedAt(j: Job, cursor: Option<string>, m: nat)
    requires FileRuns.OrderedWalk(j.entries) && 0 < m <= |j.entries|
    ensures 0 <= Skipped(j, cursor) <= |j.entries| && Skipped(j, Begun(j, cursor)) == Skipped(j, cursor)
    ensures Skipped(j, Some(j.entries[m - 1].relPath)) == if j.full then 0 else m
    ensures j.full ==> Skipped(j, cursor) == 0
  {
    hide Increasing;
    if cursor.Some? && cursor.value != "" {
      var k := AfterCursorIsSuffix(j.entries, cursor.value);
    }
    ResumedTodo(j.entries, None, m);
  }

  /** Where index and rows stay as they are, so does what is known of the file. */
  lemma NothingWritten(j: Job, w: World, w': World, from: nat, p: nat, passed: bool)
    requires p < |j.entries| && w'.store == w.store && w'.refused == w.refused
    ensures Good(j, w', p) <==> Good(j, w, p)
    ensures forall states :: Reliable(j, w', states, p) <==> Reliable(j, w, states, p)
    ensures forall a, b :: LiveWell(j, w, a, from, p, passed) && (passed ==> b) ==> LiveWell(j, w', a, from, p, b)
  {
    hide IndexedNow, MetaIsFaithful, RowIsTrue, Skipped;
  }

  /** Index and rows stay, no attempt is new, and the checkpoint stays behind what is known. */
  lemma MovedKeeps(j: Job, w: World, w': World, from: nat, p: nat, passed: bool, passed': bool)
    requires p < |j.entries| && Inv(j, w, from, p, passed) && (passed ==> passed')
    requires w'.store == w.store && w'.refused == w.refused && w'.states == w.states
    requires forall who :: who in w'.attempts ==> who in w.attempts && w'.attempts[who] == w.attempts[who]
    requires from <= Skipped(j, w'.cursor) && (from <= p < Skipped(j, w'.cursor) ==> passed' || Good(j, w, p))
    requires w'.complete ==> w.complete || p < from || passed' || Good(j, w, p)
    ensures Inv(j, w', from, p, passed') && (Good(j, w', p) <==> Good(j, w, p))
  {
    NothingWritten(j, w, w', from, p, passed);
    hide Skipped, LiveWell, Reliable, Good;
  }

  /** The checkpoint moves, by a commit or an overwrite, to a place of the attempt. */
  lemma MoveStep(j: Job, w: World, e: Event, from: nat, p: nat, passed: bool)
    requires FileRuns.OrderedWalk(j.entries) && p < |j.entries| && Inv(j, w, from, p, passed)
    requires e.Commit? || e.Overwrite?
    ensures Inv(j, Next(j, w, e), from, p, passed || Overtakes(j, w, e, p))
    ensures Good(j, Next(j, w, e), p) <==> Good(j, w, p)
  {
    hide Skipped, FileRuns.OrderedWalk, Begun, Reliable, Good;
    if e.who in w.attempts {
      var a := w.attempts[e.who];
      assert LiveWell(j, w, a, from, p, passed);
      var m := if e.Commit? then a.sent else e.handled;
      if 0 < m <= |j.entries| {
        SkippedAt(j, w.cursor, m);
      }
    }
    MovedKeeps(j, w, Next(j, w, e), from, p, passed, passed || Overtakes(j, w, e, p));
  }

  /** Attempts come and go. */
  lemma BookStep(j: Job, w: World, e: Event, from: nat, p: nat, passed: bool)
    requires FileRuns.OrderedWalk(j.entries) && p < |j.entries| && Inv(j, w, from, p, passed)
    requires e.Start? || e.Load? || e.Finalise? || e.Kill?
    ensures Inv(j, Next(j, w, e), from, p, passed)
    ensures Good(j, Next(j, w, e), p) <==> Good(j, w, p)
  {
    hide Skipped, FileRuns.OrderedWalk, Begun;
    NothingWritten(j, w, Next(j, w, e), from, p, passed);
    if e.Start? {
      SkippedAt(j, w.cursor, |j.entries|);
      var k := Skipped(j, w.cursor);
      assert LiveWell(j, w, Live(w.states, Begun(j, w.cursor), k, k, k), from, p, passed);
    } else if e.Load? && e.who in w.attempts {
      assert LiveWell(j, w, w.attempts[e.who].(snapshot := w.states), from, p, passed) by {
        assert LiveWell(j, w, w.attempts[e.who], from, p, passed);
      }
    }
    hide LiveWell, Reliable, Good;
  }

  lemma StepKeepsInv(j: Job, w: World, e: Event, from: nat, p: nat, passed: bool)
    requires FileRuns.OrderedWalk(j.entries) && p < |j.entries| && InCap(j.src, j.entries[p])
    requires Inv(j, w, from, p, passed)
    ensures Inv(j, Next(j, w, e), from, p, passed || Overtakes(j, w, e, p))
    ensures Good(j, Next(j, w, e), p) <==> Good(j, w, p) || TakesTurn(j, w, e, p)
  {
    hide Inv, InCap, Skipped, Sent, Saved, Good, FileRuns.OrderedWalk;
    match e
    case Send(who, accepted) =>
      if who in w.attempts && w.attempts[who].sent < |j.entries| {
        SendStep(j, w, who, accepted, from, p, passed);
      }
    case Save(who) =>
      if who in w.attempts && w.attempts[who].saved < w.attempts[who].sent <= |j.entries| {
        SaveStep(j, w, who, from, p, passed);
      }
    case Commit(_) => MoveStep(j, w, e, from, p, passed);
    case Overwrite(_, _) => MoveStep(j, w, e, from, p, passed);
    case _ => BookStep(j, w, e, from, p, passed);
  }

  lemma {:induction false} RunKeepsInv(j: Job, w: World, events: seq<Event>, from: nat, p: nat, passed: bool)
    requires FileRuns.OrderedWalk(j.entries) && p < |j.entries| && InCap(j.src, j.entries[p])
    requires Inv(j, w, from, p, passed)
    ensures Inv(j, Run(j, w, events), from, p, passed || Overtaken(j, w, events, p))
    ensures Good(j, Run(j, w, events), p) <==> Good(j, w, p) || HadTurn(j, w, events, p)
    decreases |events|
  {
    hide Inv, Next, Good, Overtakes, TakesTurn, FileRuns.OrderedWalk, InCap;
    if events != [] {
      StepKeepsInv(j, w, events[0], from, p, passed);
      RunKeepsInv(j, Next(j, w, events[0]), events[1..], from, p, passed || Overtakes(j, w, events[0], p));
    }
  }

  // ------------------------------------------------------------------
  // Main results
  // ------------------------------------------------------------------

  /** The start of a job whose rows agree with the index and whose metadata is faithful for file p. */
  ghost predicate Starts(j: Job, states: States, store: Store, p: nat) {
    && FileRuns.OrderedWalk(j.entries) && p < |j.entries| && InCap(j.src, j.entries[p])
    && Agree(j.src, states, store) && MetaIsFaithful(j.src, states, j.entries[p])
  }

  lemma FirstHolds(j: Job, states: States, store: Store, cursor: Option<string>, p: nat)
    requires Starts(j, states, store, p) && Skipped(j, cursor) <= p
    ensures 0 <= Skipped(j, cursor) && Inv(j, First(states, store, cursor), Skipped(j, cursor), p, false)
    ensures Good(j, First(states, store, cursor), p) <==> IndexedNow(j.src, store, j.entries[p])
  {
    hide IndexedNow, MetaIsFaithful, RowIsTrue, InCap, Agree, Skipped, FileRuns.OrderedWalk;
    SkippedAt(j, cursor, |j.entries|);
    AgreementIsTrue(j.src, states, store, j.entries[p]);
  }

  /** File p counts as done with: it is before the checkpoint, or some attempt came to its overwrite with nothing left. */
  predicate DoneWith(j: Job, w: World, p: nat) {
    p < Skipped(j, w.cursor) || w.complete
  }

  /**
   At every moment of every run of overlapping, dying attempts, a file in size past the first
   checkpoint is in the index as it is now, or was refused, exactly if it was there before or
   some attempt dealt with it. Once it counts as done with, it is lost exactly if it was not there,
   an overwrite passed it while its document was pending, and no attempt has dealt with it.
   */
  lemma FileIsLostIff(j: Job, states: States, store: Store, cursor: Option<string>, events: seq<Event>, p: nat)
    requires Starts(j, states, store, p) && Skipped(j, cursor) <= p
    ensures var w0 := First(states, store, cursor);
            var w := Run(j, w0, events);
            && (Good(j, w, p) <==> IndexedNow(j.src, store, j.entries[p]) || HadTurn(j, w0, events, p))
            && (DoneWith(j, w, p) ==>
                  (!Good(j, w, p) <==> && !IndexedNow(j.src, store, j.entries[p]) && Overtaken(j, w0, events, p)
                                       && !HadTurn(j, w0, events, p)))
  {
    hide Good, Reliable, Skipped, InCap, Run, Agree, MetaIsFaithful, IndexedNow, LiveWell, FileRuns.OrderedWalk;
    FirstHolds(j, states, store, cursor, p);
    RunKeepsInv(j, First(states, store, cursor), events, Skipped(j, cursor), p, false);
  }

  lemma {:induction false} NothingDroppedNothingPassed(j: Job, w: World, events: seq<Event>, p: nat)
    requires NothingDropped(j, w, events)
    ensures !Overtaken(j, w, events, p)
    decreases |events|
  {
    hide Next;
    if events != [] {
      NothingDroppedNothingPassed(j, Next(j, w, events[0]), events[1..], p);
    }
  }

  /**
   So in a run where no walk breaks off with items pending: every file in size between the first
   checkpoint and the present one is in the index as it is now, or its document was refused. No
   attempt skips a file that is missing.
   */
  lemma NoFileLeftBehind(
    j: Job, states: States, store: Store, cursor: Option<string>, events: seq<Event>, p: nat)
    requires Starts(j, states, store, p) && NothingDropped(j, First(states, store, cursor), events)
    requires Skipped(j, cursor) <= p < Skipped(j, Run(j, First(states, store, cursor), events).cursor)
    ensures Good(j, Run(j, First(states, store, cursor), events), p)
  {
    hide Good, Skipped, Run, Agree, IndexedNow, Starts;
    NothingDroppedNothingPassed(j, First(states, store, cursor), events, p);
    FileIsLostIff(j, states, store, cursor, events, p);
  }

  /** And once an attempt has gone through to the end of the walk, so is every file past the first checkpoint. */
  lemma CompleteJobIndexesEverything(
    j: Job, states: States, store: Store, cursor: Option<string>, events: seq<Event>, p: nat)
    requires Starts(j, states, store, p) && Skipped(j, cursor) <= p
    requires NothingDropped(j, First(states, store, cursor), events)
    requires Run(j, First(states, store, cursor), events).complete
    ensures Good(j, Run(j, First(states, store, cursor), events), p)
  {
    hide Good, Skipped, Run, Agree, IndexedNow, Starts;
    NothingDroppedNothingPassed(j, First(states, store, cursor), events, p);
    FileIsLostIff(j, states, store, cursor, events, p);
  }

  /** Two attempts: the walk of the first breaks off after n files with all of them pending, and its worker dies. */
  function LosingRun(n: nat): seq<Event> {
    [Start("a"), Overwrite("a", n), Kill("a")] + [Start("b"), Overwrite("b", n), Finalise("b")]
  }

  /** Nothing is sent, and yet the second attempt finds nothing left and finalises the job. */
  lemma PendingFilesAreLost(j: Job, states: States, store: Store)
    requires FileRuns.OrderedWalk(j.entries) && j.entries != [] && !j.full
    ensures var w0 := First(states, store, None);
            var n := |j.entries|;
            var w1, w2 := Run(j, w0, [Start("a"), Overwrite("a", n), Kill("a")]), Run(j, w0, LosingRun(n));
            && !w1.ended && Skipped(j, w1.cursor) == n && w1.store == store && w1.refused == {}
            && w2.ended && w2.complete && w2.store == store && w2.refused == {}
  {
    hide Skipped, FileRuns.OrderedWalk;
    var w0, n := First(states, store, None), |j.entries|;
    SkippedAt(j, None, n);
    assert Skipped(j, None) == 0 by {
      SkippedOfNone(j);
    }
    var w1 := World(states, store, Some(j.entries[n - 1].relPath), false, false, {}, map[], {});
    TraceThree(Step(j), w0, Start("a"), Overwrite("a", n), Kill("a"));
    assert Next(j, Next(j, Next(j, w0, Start("a")), Overwrite("a", n)), Kill("a")) == w1;
    TraceThree(Step(j), w1, Start("b"), Overwrite("b", n), Finalise("b"));
    TraceConcat(Step(j), w0, [Start("a"), Overwrite("a", n), Kill("a")], [Start("b"), Overwrite("b", n), Finalise("b")]);
  }

  lemma SkippedOfNone(j: Job)
    ensures Skipped(j, None) == 0
  {
  }

  /** Such an input: one new file of one letter. The job ends as complete, and the file is missing and was not refused. */
  lemma OneNewFileIsLost(model: Model, digest: Bytes -> string)
    ensures var j := Job(OneFileSource(model, digest), false, [ONE_FILE]);
            var w0 := First(map[], Store(map[], 0), None);
            var w1, w2 := Run(j, w0, [Start("a"), Overwrite("a", 1), Kill("a")]), Run(j, w0, LosingRun(1));
            && !w1.ended && Skipped(j, w1.cursor) == 1 && !Good(j, w1, 0)
            && w2.ended && w2.complete && !Good(j, w2, 0)
  {
    hide Run, Skipped, DocFor;
    var j := Job(OneFileSource(model, digest), false, [ONE_FILE]);
    OneFileHasDoc(model, digest);
    PendingFilesAreLost(j, map[], Store(map[], 0));
    assert Lookup(Store(map[], 0), KeyFor(j.src, "a.txt")) == None;
    assert j.src.read(j.entries[0].fullPath) == Some(ONE_CONTENT);
    assert !IndexedNow(j.src, Store(map[], 0), j.entries[0]);
  }

  // ------------------------------------------------------------------
  // Attempts that do not overlap are among these runs
  // ------------------------------------------------------------------

  function Repeat(e: Event, n: nat): seq<Event> {
    if n == 0 then [] else Repeat(e, n - 1) + [e]
  }

  lemma OneMoreItem(j: Job, snapshot: States, base: Store, k: nat, m: nat)
    requires k <= m < |j.entries|
    ensures PutAll(base, ItemsToIndex(j.src, snapshot, j.entries[k..m + 1]), j.src.model)
         == StoreAfter(j.src, snapshot, PutAll(base, ItemsToIndex(j.src, snapshot, j.entries[k..m]), j.src.model),
                       j.entries[m], true)
  {
    hide VerdictOf, PutItem;
    var es := j.entries[k..m + 1];
    assert es[..|es| - 1] == j.entries[k..m] && es[|es| - 1] == j.entries[m];
    var items := ItemsToIndex(j.src, snapshot, j.entries[k..m]);
    if VerdictOf(j.src, snapshot, j.entries[m]).Changed? {
      var item := VerdictOf(j.src, snapshot, j.entries[m]).item;
      assert (items + [item])[..|items|] == items;
    }
  }

  lemma OneMoreRow(j: Job, snapshot: States, states: States, k: nat, m: nat)
    requires k <= m < |j.entries|
    ensures Upserted(states, RowsOf(j.src, snapshot, j.entries[k..m + 1]))
         == StatesAfter(j.src, snapshot, Upserted(states, RowsOf(j.src, snapshot, j.entries[k..m])), j.entries[m])
  {
    hide VerdictOf, Upserted;
    var es := j.entries[k..m + 1];
    assert es[..|es| - 1] == j.entries[k..m] && es[|es| - 1] == j.entries[m];
    var rows, e := RowsOf(j.src, snapshot, j.entries[k..m]), j.entries[m];
    match VerdictOf(j.src, snapshot, e)
    case HashSame(s) => UpsertedSnoc(states, rows, StateRow(e.relPath, s, Missing));
    case Changed(_, s) => UpsertedSnoc(states, rows, StateRow(e.relPath, s, Now));
    case _ =>
  }

  /** The world after an attempt that started in `w` has sent n documents and saved m rows. */
  function Partly(j: Job, w: World, who: string, k: nat, m: nat, n: nat, cursor: Option<string>): World
    requires m <= n && k + n <= |j.entries|
  {
    w.(states := Upserted(w.states, RowsOf(j.src, w.states, j.entries[k..k + m])),
       store := PutAll(w.store, ItemsToIndex(j.src, w.states, j.entries[k..k + n]), j.src.model),
       cursor := cursor, attempts := w.attempts[who := Live(w.states, Begun(j, w.cursor), k, k + m, k + n)])
  }

  lemma UpdatedTwice<K, V>(m: map<K, V>, k: K, x: V, y: V)
    ensures m[k := x][k := y] == m[k := y]
  {
  }

  lemma SendOneMore(j: Job, w: World, who: string, k: nat, n: nat, cursor: Option<string>)
    requires k + n < |j.entries|
    ensures Next(j, Partly(j, w, who, k, 0, n, cursor), Send(who, true)) == Partly(j, w, who, k, 0, n + 1, cursor)
  {
    hide PutAll, ItemsToIndex, RowsOf, Upserted, StoreAfter, FileDoc, VerdictOf;
    OneMoreItem(j, w.states, w.store, k, k + n);
    UpdatedTwice(w.attempts, who, Live(w.states, Begun(j, w.cursor), k, k, k + n),
                 Live(w.states, Begun(j, w.cursor), k, k, k + n + 1));
    assert Next(j, Partly(j, w, who, k, 0, n, cursor), Send(who, true))
        == Sent(j, Partly(j, w, who, k, 0, n, cursor), who, true);
    hide Next;
  }

  lemma {:induction false} SendTo(j: Job, w: World, who: string, k: nat, n: nat, n': nat, cursor: Option<string>)
    requires n <= n' && k + n' <= |j.entries|
    ensures Run(j, Partly(j, w, who, k, 0, n, cursor), Repeat(Send(who, true), n' - n))
         == Partly(j, w, who, k, 0, n', cursor)
  {
    hide Partly, Next;
    if n < n' {
      SendTo(j, w, who, k, n, n' - 1, cursor);
      TraceConcat(Step(j), Partly(j, w, who, k, 0, n, cursor), Repeat(Send(who, true), n' - 1 - n), [Send(who, true)]);
      TraceOne(Step(j), Partly(j, w, who, k, 0, n' - 1, cursor), Send(who, true));
      SendOneMore(j, w, who, k, n' - 1, cursor);
    }
  }

  lemma SaveOneMore(j: Job, w: World, who: string, k: nat, m: nat, n: nat, cursor: Option<string>)
    requires m < n && k + n <= |j.entries|
    ensures Next(j, Partly(j, w, who, k, m, n, cursor), Save(who)) == Partly(j, w, who, k, m + 1, n, cursor)
  {
    hide PutAll, ItemsToIndex, RowsOf, Upserted, StatesAfter, VerdictOf;
    OneMoreRow(j, w.states, w.states, k, k + m);
    UpdatedTwice(w.attempts, who, Live(w.states, Begun(j, w.cursor), k, k + m, k + n),
                 Live(w.states, Begun(j, w.cursor), k, k + m + 1, k + n));
    assert Next(j, Partly(j, w, who, k, m, n, cursor), Save(who)) == Saved(j, Partly(j, w, who, k, m, n, cursor), who);
    hide Next;
  }

  lemma {:induction false} SaveTo(j: Job, w: World, who: string, k: nat, m: nat, n: nat, cursor: Option<string>)
    requires m <= n && k + n <= |j.entries|
    ensures Run(j, Partly(j, w, who, k, 0, n, cursor), Repeat(Save(who), m)) == Partly(j, w, who, k, m, n, cursor)
  {
    hide Partly, Next;
    if m > 0 {
      SaveTo(j, w, who, k, m - 1, n, cursor);
      TraceConcat(Step(j), Partly(j, w, who, k, 0, n, cursor), Repeat(Save(who), m - 1), [Save(who)]);
      TraceOne(Step(j), Partly(j, w, who, k, m - 1, n, cursor), Save(who));
      SaveOneMore(j, w, who, k, m - 1, n, cursor);
    }
  }

  lemma StartAt(j: Job, w: World, who: string, k: nat)
    requires !w.ended && who !in w.attempts && who !in w.closing && k == Skipped(j, w.cursor) <= |j.entries|
    ensures Next(j, w, Start(who)) == Partly(j, w, who, k, 0, 0, w.cursor)
  {
    hide Skipped;
    NothingUpserted(w.states);
    assert j.entries[k..k] == [];
  }

  function CommitOf(who: string, n: nat): seq<Event> {
    if n == 0 then [] else [Commit(who)]
  }

  lemma CommitAt(j: Job, w: World, who: string, k: nat, n: nat)
    requires k + n <= |j.entries|
    ensures Run(j, Partly(j, w, who, k, 0, n, w.cursor), CommitOf(who, n))
         == Partly(j, w, who, k, 0, n, if n == 0 then w.cursor else Some(j.entries[k + n - 1].relPath))
  {
    hide PutAll, ItemsToIndex, RowsOf, Upserted;
    TraceOne(Step(j), Partly(j, w, who, k, 0, n, w.cursor), Commit(who));
  }

  function EventsOf(a: FileRuns.Attempt, who: string): seq<Event>
    requires FileRuns.Ordered(a, a.handled)
  {
    [Start(who)]
    + (Repeat(Send(who, true), a.committed)
       + (CommitOf(who, a.committed)
          + (Repeat(Send(who, true), a.flushed - a.committed) + (Repeat(Save(who), a.saved) + [Kill(who)]))))
  }

  lemma EventsRun(j: Job, w: World, a: FileRuns.Attempt, who: string, k: nat, cursor: Option<string>)
    requires !w.ended && who !in w.attempts && who !in w.closing && k == Skipped(j, w.cursor)
    requires FileRuns.Ordered(a, a.handled)
    requires k + a.flushed <= |j.entries|
    requires cursor == if a.committed == 0 then w.cursor else Some(j.entries[k + a.committed - 1].relPath)
    ensures Run(j, w, EventsOf(a, who)) == Next(j, Partly(j, w, who, k, a.saved, a.flushed, cursor), Kill(who))
  {
    hide Skipped, Partly, Trace, Next, Repeat;
    StartAt(j, w, who, k);
    SendTo(j, w, who, k, 0, a.committed, w.cursor);
    CommitAt(j, w, who, k, a.committed);
    SendTo(j, w, who, k, a.committed, a.flushed, cursor);
    SaveTo(j, w, who, k, a.saved, a.flushed, cursor);
    SixParts(j, w, [Start(who)], Repeat(Send(who, true), a.committed), CommitOf(who, a.committed),
             Repeat(Send(who, true), a.flushed - a.committed), Repeat(Save(who), a.saved), [Kill(who)]);
    TraceOne(Step(j), w, Start(who));
    TraceOne(Step(j), Partly(j, w, who, k, a.saved, a.flushed, cursor), Kill(who));
  }

  /** A killed attempt of FileRuns, nobody else running, is a run here. */
  lemma AttemptIsRun(j: Job, w: World, a: FileRuns.Attempt, who: string)
    requires !w.ended && who !in w.attempts && who !in w.closing
    requires FileRuns.Ordered(a, |FileRuns.Todo(j.full, j.entries, FileRuns.Progress(w.states, w.store, w.cursor))|)
    ensures var w', after := Run(j, w, EventsOf(a, who)),
              FileRuns.After(j.src, j.full, j.entries, FileRuns.Progress(w.states, w.store, w.cursor), a);
            w' == w.(states := after.states, store := after.store, cursor := after.cursor)
  {
    hide ToHandle, PutAll, ItemsToIndex, RowsOf, Upserted, Run, Next, EventsOf, Partly, FileRuns.After;
    var pr := FileRuns.Progress(w.states, w.store, w.cursor);
    FileRuns.TodoIsSuffix(j.full, j.entries, pr);
    var k := Skipped(j, w.cursor);
    assert k == FileRuns.Position(j.full, j.entries, pr);
    hide Skipped, FileRuns.Todo, FileRuns.Position;
    var cursor := if a.committed == 0 then w.cursor else Some(j.entries[k + a.committed - 1].relPath);
    EventsRun(j, w, a, who, k, cursor);
    KilledWorld(j, w, who, k, a.saved, a.flushed, cursor);
    AfterInPlaces(j, w, a, k);
  }

  lemma KilledWorld(j: Job, w: World, who: string, k: nat, m: nat, n: nat, cursor: Option<string>)
    requires m <= n && k + n <= |j.entries| && who !in w.attempts && who !in w.closing
    ensures Next(j, Partly(j, w, who, k, m, n, cursor), Kill(who))
         == w.(states := Upserted(w.states, RowsOf(j.src, w.states, j.entries[k..k + m])),
               store := PutAll(w.store, ItemsToIndex(j.src, w.states, j.entries[k..k + n]), j.src.model), cursor := cursor)
  {
    hide PutAll, ItemsToIndex, RowsOf, Upserted;
    assert w.attempts[who := Live(w.states, Begun(j, w.cursor), k, k + m, k + n)] - {who} == w.attempts;
    assert w.closing - {who} == w.closing;
  }

  lemma AfterInPlaces(j: Job, w: World, a: FileRuns.Attempt, k: nat)
    requires k <= |j.entries|
    requires FileRuns.Todo(j.full, j.entries, FileRuns.Progress(w.states, w.store, w.cursor)) == j.entries[k..]
    requires FileRuns.Ordered(a, |j.entries[k..]|)
    ensures FileRuns.After(j.src, j.full, j.entries, FileRuns.Progress(w.states, w.store, w.cursor), a)
         == FileRuns.Progress(
              Upserted(w.states, RowsOf(j.src, w.states, j.entries[k..k + a.saved])),
              PutAll(w.store, ItemsToIndex(j.src, w.states, j.entries[k..k + a.flushed]), j.src.model),
              if a.committed == 0 then w.cursor else Some(j.entries[k + a.committed - 1].relPath))
  {
    hide PutAll, ItemsToIndex, RowsOf, Upserted, FileRuns.Todo;
    assert j.entries[k..][..a.flushed] == j.entries[k..k + a.flushed];
    assert j.entries[k..][..a.saved] == j.entries[k..k + a.saved];
  }

  lemma SixParts(
    j: Job, w: World, a: seq<Event>, b: seq<Event>, c: seq<Event>, d: seq<Event>, e: seq<Event>, f: seq<Event>)
    ensures Run(j, w, a + (b + (c + (d + (e + f)))))
         == Run(j, Run(j, Run(j, Run(j, Run(j, Run(j, w, a), b), c), d), e), f)
  {
    hide Trace;
    var w1 := Run(j, w, a);
    var w2 := Run(j, w1, b);
    var w3 := Run(j, w2, c);
    TraceConcat(Step(j), w, a, b + (c + (d + (e + f))));
    TraceConcat(Step(j), w1, b, c + (d + (e + f)));
    TraceConcat(Step(j), w2, c, d + (e + f));
    TraceConcat(Step(j), w3, d, e + f);
    TraceConcat(Step(j), Run(j, w3, d), e, f);
  }

  /** All of an attempt that starts in `w` with `n` files to handle. */
  function WholeOf(j: Job, who: string, n: nat): seq<Event> {
    [Start(who)]
    + ([Load(who)]
       + (Repeat(Send(who, true), n) + (Repeat(Save(who), n) + ([Overwrite(who, |j.entries|)] + [Finalise(who)]))))
  }

  lemma LoadAt(j: Job, w: World, who: string, k: nat)
    requires k <= |j.entries|
    ensures Next(j, Partly(j, w, who, k, 0, 0, w.cursor), Load(who)) == Partly(j, w, who, k, 0, 0, w.cursor)
  {
    NothingUpserted(w.states);
    assert j.entries[k..k] == [];
  }

  lemma CloseAt(j: Job, w: World, who: string, k: nat, n: nat)
    requires k + n == |j.entries| && who !in w.attempts && who !in w.closing
    ensures Next(j, Next(j, Partly(j, w, who, k, n, n, w.cursor), Overwrite(who, |j.entries|)), Finalise(who))
         == World(Upserted(w.states, RowsOf(j.src, w.states, j.entries[k..])),
                  PutAll(w.store, ItemsToIndex(j.src, w.states, j.entries[k..]), j.src.model),
                  if n > 0 then Some(j.entries[|j.entries| - 1].relPath) else Begun(j, w.cursor), true, true, w.refused,
                  w.attempts, w.closing)
  {
    hide PutAll, ItemsToIndex, RowsOf, Upserted;
    assert j.entries[k..k + n] == j.entries[k..];
    assert w.attempts[who := Live(w.states, Begun(j, w.cursor), k, k + n, k + n)] - {who} == w.attempts;
    assert w.closing + {who} - {who} == w.closing;
  }

  /**
   An attempt that nothing disturbs and nothing is refused to leaves what `ProcessSmbJob` leaves when it
   is done: the rows and documents of all files past the checkpoint, the last of them as the new
   checkpoint, or the one it began with if there was none left, and the job ended.
   */
  lemma UndisturbedIsRun(j: Job, w: World, who: string)
    requires !w.ended && who !in w.attempts && who !in w.closing
    ensures var todo := ToHandle(j.entries, if j.full then None else w.cursor);
            Run(j, w, WholeOf(j, who, |todo|))
            == World(FinalStates(j.src, w.states, todo),
                     PutAll(w.store, ItemsToIndex(j.src, w.states, todo), j.src.model),
                     if todo != [] then Some(todo[|todo| - 1].relPath)
                     else if j.full || w.cursor == Some("") then None else w.cursor,
                     true, true, w.refused, w.attempts, w.closing)
  {
    hide ToHandle, PutAll, ItemsToIndex, RowsOf, Upserted, Trace, Next, Partly, Repeat;
    FileRuns.TodoIsSuffix(j.full, j.entries, FileRuns.Progress(w.states, w.store, w.cursor));
    var k, n := Skipped(j, w.cursor), |j.entries| - Skipped(j, w.cursor);
    assert ToHandle(j.entries, if j.full then None else w.cursor) == j.entries[k..];
    StartAt(j, w, who, k);
    LoadAt(j, w, who, k);
    SendTo(j, w, who, k, 0, n, w.cursor);
    SaveTo(j, w, who, k, n, n, w.cursor);
    CloseAt(j, w, who, k, n);
    var saved := Partly(j, w, who, k, n, n, w.cursor);
    SixParts(j, w, [Start(who)], [Load(who)], Repeat(Send(who, true), n), Repeat(Save(who), n),
             [Overwrite(who, |j.entries|)], [Finalise(who)]);
    TraceOne(Step(j), w, Start(who));
    TraceOne(Step(j), Partly(j, w, who, k, 0, 0, w.cursor), Load(who));
    TraceOne(Step(j), saved, Overwrite(who, |j.entries|));
    TraceOne(Step(j), Next(j, saved, Overwrite(who, |j.entries|)), Finalise(who));
  }

  lemma {:induction false} SettledSendsNothing(j: Job, w: World, who: string, accepted: bool, n: nat)
    requires who in w.attempts && w.attempts[who].sent + n <= |j.entries|
    requires forall i: nat :: w.attempts[who].sent <= i < |j.entries| ==>
               !VerdictOf(j.src, w.attempts[who].snapshot, j.entries[i]).Changed?
    ensures var w', a := Run(j, w, Repeat(Send(who, accepted), n)), w.attempts[who];
            && w'.store == w.store && w'.refused == w.refused && w'.states == w.states
            && who in w'.attempts && w'.attempts[who] == a.(sent := a.sent + n)
  {
    hide VerdictOf;
    if n > 0 {
      SettledSendsNothing(j, w, who, accepted, n - 1);
      TraceConcat(Step(j), w, Repeat(Send(who, accepted), n - 1), [Send(who, accepted)]);
      TraceOne(Step(j), Run(j, w, Repeat(Send(who, accepted), n - 1)), Send(who, accepted));
    }
  }

  /** An attempt decides by the rows it loads: those another one saved before are not sent again. */
  lemma LoadedRowsAreNotSentAgain(j: Job, w: World, who: string, before: States, accepted: bool)
    requires DistinctPaths(j.entries) && w.states == FinalStates(j.src, before, j.entries)
    requires who in w.attempts && w.attempts[who].start == w.attempts[who].sent <= |j.entries|
    ensures var w' := Run(j, w, [Load(who)] + Repeat(Send(who, accepted), |j.entries| - w.attempts[who].sent));
            w'.store == w.store && w'.refused == w.refused
  {
    hide FinalStates, VerdictOf, Repeat;
    var n := |j.entries| - w.attempts[who].sent;
    var w1 := Next(j, w, Load(who));
    assert j.entries[..|j.entries|] == j.entries;
    forall i: nat | i < |j.entries| ensures !VerdictOf(j.src, w.states, j.entries[i]).Changed? {
      SettledVerdict(j.src, before, j.entries, |j.entries|, i);
    }
    SettledSendsNothing(j, w1, who, accepted, n);
    TraceConcat(Step(j), w, [Load(who)], Repeat(Send(who, accepted), n));
    TraceOne(Step(j), w, Load(who));
  }
}
