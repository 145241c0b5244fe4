/**
 Sessions that overlap, step by step: the conditional update of the optimistic claim, and the
 shortest runs from the empty table that break what QueueLaws proves of orderly ones.
 */
module QueueRaces {
  import opened Wrappers
  import opened Traces
  import opened JobQueue
  import opened QueueLog
  import opened QueueRuns

  // ------------------------------------------------------------------
  // Workers racing with conditional updates
  // ------------------------------------------------------------------

  function Updates(whos: seq<string>): (r: seq<Event>)
    ensures |r| == |whos|
  {
    if whos == [] then [] else [OptUpdate(whos[0])] + Updates(whos[1..])
  }

  /** Every one of the workers has read the job with that status and is about to update it. */
  ghost predicate Racing(w: World, whos: seq<string>, id: nat, was: Status) {
    && Free(w, id)
    && (forall i :: 0 <= i < |whos| ==>
          whos[i] in w.steps && w.steps[whos[i]].Checked? && w.steps[whos[i]].id == id && w.steps[whos[i]].was == was)
    && (forall i, j :: 0 <= i < j < |whos| ==> whos[i] != whos[j])
  }

  lemma {:induction false} LateUpdatesLose(w: World, whos: seq<string>, id: nat, was: Status)
    requires Racing(w, whos, id, was) && w.rows[id].status != was
    ensures var w' := Run(w, Updates(whos)); w'.rows == w.rows && w'.log == w.log
    decreases |whos|
  {
    if whos != [] {
      var w1 := Next(w, OptUpdate(whos[0]));
      assert Updates(whos)[1..] == Updates(whos[1..]);
      forall who | who in w1.steps && w1.steps[who].Holding? ensures w1.steps[who].id in Locked(w) {
        assert who in w.steps;
      }
      LateUpdatesLose(w1, whos[1..], id, was);
    }
  }

  /** Workers that all read one pending job and then update it in any order: the first wins, nobody else does. */
  lemma ExactlyOneWins(w: World, whos: seq<string>, id: nat)
    requires Racing(w, whos, id, Pending) && whos != [] && w.rows[id].status.Pending?
    ensures var w', s := Run(w, Updates(whos)), w.steps[whos[0]];
            && w'.log == w.log + [Claim(id, whos[0], s.stamp, s.stamp + s.lease, true, true)]
            && w'.rows == w.rows[id := Claimed(w.rows[id], whos[0], s.stamp, s.lease)]
  {
    var w1 := Next(w, OptUpdate(whos[0]));
    assert Updates(whos)[1..] == Updates(whos[1..]);
    forall who | who in w1.steps && w1.steps[who].Holding? ensures w1.steps[who].id in Locked(w) {
      assert who in w.steps;
    }
    LateUpdatesLose(w1, whos[1..], id, Pending);
  }

  /**
   The update compares the status only: of two workers racing for a job, the second is turned
   away exactly when they both found it pending. Both win a running job whose lease has ended.
   */
  lemma SecondIsTurnedAwayIff(w: World, a: string, b: string, id: nat, was: Status)
    requires Racing(w, [a, b], id, was) && w.rows[id].status == was
    ensures var log := Run(w, [OptUpdate(a), OptUpdate(b)]).log;
            |log| == |w.log| + 1 <==> was != Running
    ensures was == Running ==>
              var log := Run(w, [OptUpdate(a), OptUpdate(b)]).log;
              |log| == |w.log| + 2 && log[|w.log|].Claim? && log[|w.log|].who == a
              && log[|w.log| + 1].Claim? && log[|w.log| + 1].who == b
  {
    var whos := [a, b];
    assert whos[0] == a && whos[1] == b;
    var w1 := Next(w, OptUpdate(a));
    TraceTwo(Next, w, OptUpdate(a), OptUpdate(b));
    assert w1.log == w.log + [Claim(id, a, w.steps[a].stamp, w.steps[a].stamp + w.steps[a].lease, was.Pending?, true)];
    forall who | who in w1.steps && w1.steps[who].Holding? ensures w1.steps[who].id in Locked(w) {
      assert who in w.steps;
    }
    assert Free(w1, id);
  }

  /**
   The claim's NOT EXISTS does not by itself keep a source to one running job: were two jobs of
   one source pending, two workers could select one each before either update.
   */
  lemma NotExistsAloneIsNotEnough(a: Job, b: Job, x: string, y: string, now: int, lease: nat, log: seq<Entry>)
    requires a.status.Pending? && b.status.Pending? && SameSource(a, b) && a.createdAt <= b.createdAt && x != y
    ensures var w := World([a, b], now, map[], log);
            var w' := Run(w, [SkipSelect(x, now, lease), SkipSelect(y, now, lease), SkipUpdate(x), SkipUpdate(y)]);
            w'.rows == [Claimed(a, x, now, lease), Claimed(b, y, now, lease)]
  {
    var rows := [a, b];
    var w := World(rows, now, map[], log);
    var e1, e2, e3, e4 := SkipSelect(x, now, lease), SkipSelect(y, now, lease), SkipUpdate(x), SkipUpdate(y);
    NobodyRuns(rows, now);
    assert Locked(w) == {};
    var w1 := Next(w, e1);
    assert w1 == w.(steps := map[x := Holding(0, now, lease)]);
    assert Locked(w1) == {0} by {
      assert w1.steps[x].Holding?;
    }
    var w2 := Next(w1, e2);
    assert w2.steps == map[x := Holding(0, now, lease), y := Holding(1, now, lease)];
    TraceFour(Next, w, e1, e2, e3, e4);
  }

  lemma NobodyRuns(rows: Rows, now: int)
    requires |rows| == 2 && rows[0].status.Pending? && rows[1].status.Pending? && rows[0].createdAt <= rows[1].createdAt
    ensures SkipLockedChoice(rows, now, {}) == Some(0) && SkipLockedChoice(rows, now, {0}) == Some(1)
  {
    assert !SourceBusy(rows, 0, now) && !SourceBusy(rows, 1, now);
    assert OpenIds(rows, now, {}) == {0, 1};
    assert OpenIds(rows, now, {0}) == {1};
  }

  // ------------------------------------------------------------------
  // Runs from the empty table
  // ------------------------------------------------------------------

  function NewOne(now: int): Job {
    NewJob("db", 1, "incremental", None, now)
  }

  function Check(who: string): Event {
    EnqueueCheck(who, "db", 1, "incremental", None)
  }

  /** Two requests to enqueue one source, checked before either inserts, and two workers. */
  function TwoRequests(now: int): seq<Event> {
    [Check("p"), Check("q"), EnqueueInsert("p", now), EnqueueInsert("q", now)]
  }

  function TwoClaims(now: int, lease: nat): seq<Event> {
    [SkipSelect("x", now, lease), SkipSelect("y", now, lease), SkipUpdate("x"), SkipUpdate("y")]
  }

  lemma AfterTwoRequests(now: int)
    ensures Run(Empty(now), TwoRequests(now))
            == World([NewOne(now), NewOne(now)], now, map[], [Insertion(0, 0), Insertion(1, 0)])
  {
    var w0 := Empty(now);
    assert ActiveIds(w0.rows, "db", 1) == {};
    var s := Vacant("db", 1, "incremental", None, 0);
    assert Next(w0, Check("p")) == w0.(steps := map["p" := s]);
    var w2 := Next(Next(w0, Check("p")), Check("q"));
    assert w2 == w0.(steps := map["p" := s, "q" := s]);
    var w3 := Next(w2, EnqueueInsert("p", now));
    assert w3 == World([NewOne(now)], now, map["q" := s], [Insertion(0, 0)]);
    var w4 := Next(w3, EnqueueInsert("q", now));
    assert w4.rows == [NewOne(now), NewOne(now)] && w4.log == [Insertion(0, 0), Insertion(1, 0)];
    TraceFour(Next, w0, Check("p"), Check("q"), EnqueueInsert("p", now), EnqueueInsert("q", now));
  }

  /** Two overlapping requests can get a source two jobs, and those can run at once. */
  lemma OverlappingEnqueues(now: int, lease: nat)
    ensures !OneActivePerSource(Run(Empty(now), TwoRequests(now)).rows)
    ensures Run(Run(Empty(now), TwoRequests(now)), TwoClaims(now, lease)).rows
            == [Claimed(NewOne(now), "x", now, lease), Claimed(NewOne(now), "y", now, lease)]
  {
    hide Run, Claimed;
    AfterTwoRequests(now);
    var j := NewOne(now);
    var rows := Run(Empty(now), TwoRequests(now)).rows;
    assert SameSource(rows[0], rows[1]) && Active(rows[0]) && Active(rows[1]);
    NotExistsAloneIsNotEnough(j, j, "x", "y", now, lease, [Insertion(0, 0), Insertion(1, 0)]);
  }

  function OneRequest(now: int): seq<Event> {
    [Check("p"), EnqueueInsert("p", now)]
  }

  lemma AfterOneRequest(now: int)
    ensures Run(Empty(now), OneRequest(now)) == World([NewOne(now)], now, map[], [Insertion(0, 0)])
  {
    var w0 := Empty(now);
    assert ActiveIds(w0.rows, "db", 1) == {};
    assert Next(w0, Check("p")) == w0.(steps := map["p" := Vacant("db", 1, "incremental", None, 0)]);
    assert map["p" := Vacant("db", 1, "incremental", None, 0)] - {"p"} == map[];
    TraceTwo(Next, w0, Check("p"), EnqueueInsert("p", now));
  }

  /** A claim, a pause that has read the running job, and the job's end. */
  function PauseMeetsEnd(now: int, lease: nat): seq<Event> {
    [SkipSelect("x", now, lease), SkipUpdate("x"), PauseRead("admin", 0), Finish(0, true, None, now)]
  }

  function EndedOne(now: int, lease: nat): World {
    World([Finished(Claimed(NewOne(now), "x", now, lease), true, None, now)], now, map["admin" := PauseSeen(0, true, 2)],
          [Insertion(0, 0), Claim(0, "x", now, now + lease, true, false), Ending(0, true)])
  }

  lemma OneChoice(j: Job, now: int)
    requires Claimable(j, now)
    ensures SkipLockedChoice([j], now, {}) == Some(0) && Least([j], ClaimableIds([j], now), 1) == Some(0)
    ensures !SourceBusy([j], 0, now)
  {
    assert OpenIds([j], now, {}) == {0} && ClaimableIds([j], now) == {0};
  }

  function ClaimedOne(now: int, lease: nat): World {
    World([Claimed(NewOne(now), "x", now, lease)], now, map[],
          [Insertion(0, 0), Claim(0, "x", now, now + lease, true, false)])
  }

  lemma OneClaim(now: int, lease: nat)
    ensures var w := World([NewOne(now)], now, map[], [Insertion(0, 0)]);
            Next(Next(w, SkipSelect("x", now, lease)), SkipUpdate("x")) == ClaimedOne(now, lease)
  {
    var w := World([NewOne(now)], now, map[], [Insertion(0, 0)]);
    assert Locked(w) == {};
    OneChoice(NewOne(now), now);
    hide SkipLockedChoice;
    assert Next(w, SkipSelect("x", now, lease)) == w.(steps := map["x" := Holding(0, now, lease)]);
    assert map["x" := Holding(0, now, lease)] - {"x"} == map[];
  }

  lemma EndAfterRead(now: int, lease: nat)
    ensures Next(Next(ClaimedOne(now, lease), PauseRead("admin", 0)), Finish(0, true, None, now)) == EndedOne(now, lease)
  {
    var w := ClaimedOne(now, lease);
    var w1 := Next(w, PauseRead("admin", 0));
    assert w1 == w.(steps := map["admin" := PauseSeen(0, true, 2)]);
    assert Locked(w1) == {};
  }

  lemma AfterPauseMeetsEnd(now: int, lease: nat)
    ensures Run(Run(Empty(now), OneRequest(now)), PauseMeetsEnd(now, lease)) == EndedOne(now, lease)
  {
    hide Trace, Next, NewOne;
    AfterOneRequest(now);
    OneClaim(now, lease);
    EndAfterRead(now, lease);
    TraceFour(Next, World([NewOne(now)], now, map[], [Insertion(0, 0)]),
              SkipSelect("x", now, lease), SkipUpdate("x"), PauseRead("admin", 0), Finish(0, true, None, now));
  }

  lemma SecondRequest(now: int, lease: nat)
    ensures var w := EndedOne(now, lease);
            Run(w, OneRequest(now))
            == World(w.rows + [NewOne(now)], now, map["admin" := PauseSeen(0, true, 2)], w.log + [Insertion(1, 3)])
  {
    var w := EndedOne(now, lease);
    assert ActiveIds(w.rows, "db", 1) == {};
    var s, seen := Vacant("db", 1, "incremental", None, 3), PauseSeen(0, true, 2);
    assert Next(w, Check("p")) == w.(steps := map["admin" := seen, "p" := s]);
    assert map["admin" := seen, "p" := s] - {"p"} == map["admin" := seen];
    TraceTwo(Next, w, Check("p"), EnqueueInsert("p", now));
  }

  lemma LatePause(now: int, lease: nat)
    ensures var w := Run(EndedOne(now, lease), OneRequest(now));
            var rows := Run(w, [PauseWrite("admin")]).rows;
            |rows| == 2 && rows[0].status.Paused? && rows[1] == NewOne(now) && SameSource(rows[0], rows[1])
  {
    SecondRequest(now, lease);
    hide Trace;
    var w := Run(EndedOne(now, lease), OneRequest(now));
    assert Locked(w) == {};
    TraceOne(Next, w, PauseWrite("admin"));
  }

  /**
   A pause that read a running job and writes after the job's end and the next enqueue: the
   finished job is paused, and its source has two unfinished jobs.
   */
  lemma OverlappingPause(now: int, lease: nat)
    ensures var w := Run(Run(Empty(now), OneRequest(now)), PauseMeetsEnd(now, lease));
            var w' := Run(Run(w, OneRequest(now)), [PauseWrite("admin")]);
            && |w.rows| == 1 && w.rows[0].status.Done?
            && |w'.rows| == 2 && w'.rows[0].status.Paused? && !OneActivePerSource(w'.rows)
  {
    hide Run, OneRequest, PauseMeetsEnd;
    AfterPauseMeetsEnd(now, lease);
    LatePause(now, lease);
  }

  /** A claim, and the time of its lease. */
  function ClaimLapses(now: int, lease: nat): seq<Event> {
    [OptRead("x", now, lease), OptCheck("x"), OptUpdate("x"), Tick(lease + 1)]
  }

  function Lapsed(now: int, lease: nat): World {
    World([Claimed(NewOne(now), "x", now, lease)], now + lease + 1, map[],
          [Insertion(0, 0), Claim(0, "x", now, now + lease, true, true)])
  }

  lemma AfterClaimLapses(now: int, lease: nat)
    ensures Run(Run(Empty(now), OneRequest(now)), ClaimLapses(now, lease)) == Lapsed(now, lease)
  {
    AfterOneRequest(now);
    var j := NewOne(now);
    var w0 := World([j], now, map[], [Insertion(0, 0)]);
    OneChoice(j, now);
    hide SourceBusy, SkipLockedChoice, ActiveIds, ClaimableIds, Least;
    var w2 := w0.(steps := map["x" := Checked(0, Pending, now, lease)]);
    assert Next(Next(w0, OptRead("x", now, lease)), OptCheck("x")) == w2 by {
      assert Next(w0, OptRead("x", now, lease)) == w0.(steps := map["x" := Found(0, Pending, now, lease)]);
    }
    assert Locked(w2) == {} && w2.steps - {"x"} == map[];
    assert Next(w2, OptUpdate("x")) == Lapsed(now, lease).(now := now);
    TraceFour(Next, w0, OptRead("x", now, lease), OptCheck("x"), OptUpdate("x"), Tick(lease + 1));
  }

  function TwoReads(at: int, lease: nat): seq<Event> {
    [OptRead("y", at, lease), OptRead("z", at, lease), OptCheck("y"), OptCheck("z")]
  }

  lemma AfterTwoReads(now: int, lease: nat)
    ensures var w, at := Lapsed(now, lease), now + lease + 1;
            Run(w, TwoReads(at, lease))
            == w.(steps := map["y" := Checked(0, Running, at, lease), "z" := Checked(0, Running, at, lease)])
  {
    var w0, at := Lapsed(now, lease), now + lease + 1;
    OneChoice(w0.rows[0], at);
    var w1 := Next(w0, OptRead("y", at, lease));
    assert w1 == w0.(steps := map["y" := Found(0, Running, at, lease)]);
    var w2 := Next(w1, OptRead("z", at, lease));
    assert w2 == w0.(steps := map["y" := Found(0, Running, at, lease), "z" := Found(0, Running, at, lease)]);
    var w3 := Next(w2, OptCheck("y"));
    assert w3 == w0.(steps := map["y" := Checked(0, Running, at, lease), "z" := Found(0, Running, at, lease)]);
    TraceFour(Next, w0, OptRead("y", at, lease), OptRead("z", at, lease), OptCheck("y"), OptCheck("z"));
  }

  lemma UpdateWins(w: World, who: string, others: map<string, Step>)
    requires who in w.steps && w.steps[who].Checked? && |w.rows| == 1 && w.steps[who].id == 0
    requires (forall other :: other in w.steps ==> !w.steps[other].Holding?) && others == w.steps - {who}
    requires w.rows[0].status.Running? && w.steps[who].was.Running?
    ensures var s := w.steps[who];
            Next(w, OptUpdate(who))
            == World([Claimed(w.rows[0], who, s.stamp, s.lease)], w.now, others,
                     w.log + [Claim(0, who, s.stamp, s.stamp + s.lease, false, true)])
  {
    assert Locked(w) == {};
  }

  lemma TwoUpdates(now: int, lease: nat)
    ensures var w, at := Lapsed(now, lease), now + lease + 1;
            var s := Checked(0, Running, at, lease);
            Run(w.(steps := map["y" := s, "z" := s]), [OptUpdate("y"), OptUpdate("z")]).log
            == w.log + [Claim(0, "y", at, at + lease, false, true), Claim(0, "z", at, at + lease, false, true)]
  {
    hide Next;
    var s := Checked(0, Running, now + lease + 1, lease);
    var w := Lapsed(now, lease).(steps := map["y" := s, "z" := s]);
    UpdateWins(w, "y", map["z" := s]);
    UpdateWins(Next(w, OptUpdate("y")), "z", map[]);
    TraceTwo(Next, w, OptUpdate("y"), OptUpdate("z"));
  }

  /** On the optimistic path two workers get one job whose lease has ended, and both process it. */
  lemma LapsedJobIsClaimedTwice(now: int, lease: nat)
    ensures var at := now + lease + 1;
            var w := Run(Run(Empty(now), OneRequest(now)), ClaimLapses(now, lease));
            var w' := Run(Run(w, TwoReads(at, lease)), [OptUpdate("y"), OptUpdate("z")]);
            w'.log == [Insertion(0, 0), Claim(0, "x", now, now + lease, true, true),
                       Claim(0, "y", at, at + lease, false, true), Claim(0, "z", at, at + lease, false, true)]
  {
    hide Run, TwoReads, ClaimLapses, OneRequest;
    AfterClaimLapses(now, lease);
    AfterTwoReads(now, lease);
    TwoUpdates(now, lease);
  }
}
