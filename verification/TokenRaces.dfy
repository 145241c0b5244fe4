/**
 Refreshes and logouts that overlap (app/core/security.py:197-246, 342-347).

 A refresh decodes its token, decodes it again inside revoke_token, looks for the token's row and
 inserts it if there was none. Each statement is a step; the id column is unique, so an insert that
 meets a row raises. A logout is the same without the first decode and without a new pair.
 */
module TokenRaces {
  import opened Wrappers
  import opened Traces
  import opened Tokens

  /** `passed` is the number of pairs minted when the second decode accepted the token. */
  datatype Step =
    | Decoded(t: Token)
    | Passed(t: Token, mints: bool, passed: nat)
    | Absent(t: Token, mints: bool, passed: nat)

  datatype Mint = Mint(t: Token, passed: nat)

  datatype Overlap = Overlap(tables: Tables, now: int, steps: map<string, Step>, minted: seq<Mint>)

  datatype Event =
    | Wait(delta: nat)
    | Purge(tick: int, force: bool)
    | BeginRefresh(who: string, t: Token)
    | BeginLogout(who: string, t: Token)
    | DecodeAgain(who: string)
    | Look(who: string)
    | Insert(who: string)

  predicate HasRow(s: Tables, t: Token) {
    (t.kind.Access? && t.jti in s.access) || (t.kind.Refresh? && t.jti in s.refresh)
  }

  /** The session ends; a refresh that got here mints its pair. */
  function Through(w: Overlap, who: string): Overlap
    requires who in w.steps && !w.steps[who].Decoded?
  {
    var s := w.steps[who];
    w.(steps := w.steps - {who}, minted := if s.mints then w.minted + [Mint(s.t, s.passed)] else w.minted)
  }

  /** revoke_token up to its transaction: the decode and the refusals of tokens without id or of other kinds. */
  function SecondDecode(w: Overlap, who: string, t: Token, mints: bool): Overlap {
    if Verdict(w.tables, w.now, t, None).Accepted? && t.jti != "" && !t.kind.Other? then
      w.(steps := w.steps[who := Passed(t, mints, |w.minted|)])
    else w.(steps := w.steps - {who})
  }

  function WithRow(s: Tables, now: int, t: Token): Tables {
    if t.kind.Access? then s.(access := AddRow(s.access, t.jti, ExpiryRow(now, t)))
    else s.(refresh := AddRow(s.refresh, t.jti, ExpiryRow(now, t)))
  }

  function Next(w: Overlap, e: Event): Overlap {
    match e
    case Wait(delta) => w.(now := w.now + delta)
    case Purge(tick, force) => w.(tables := CleanedUp(w.tables, w.now, tick, force))
    case BeginRefresh(who, t) =>
      if who !in w.steps && Verdict(w.tables, w.now, t, Some(Refresh)).Accepted? then
        w.(steps := w.steps[who := Decoded(t)])
      else w
    case BeginLogout(who, t) => if who in w.steps then w else SecondDecode(w, who, t, false)
    case DecodeAgain(who) =>
      if who in w.steps && w.steps[who].Decoded? then SecondDecode(w, who, w.steps[who].t, true) else w
    case Look(who) =>
      if who in w.steps && w.steps[who].Passed? then
        var s := w.steps[who];
        if HasRow(w.tables, s.t) then Through(w, who)
        else w.(steps := w.steps[who := Absent(s.t, s.mints, s.passed)])
      else w
    case Insert(who) =>
      if who in w.steps && w.steps[who].Absent? then
        var s := w.steps[who];
        if HasRow(w.tables, s.t) then w.(steps := w.steps - {who})
        else Through(w, who).(tables := WithRow(w.tables, w.now, s.t))
      else w
  }

  function Run(w: Overlap, events: seq<Event>): Overlap {
    Trace(Next, w, events)
  }

  function Fresh(now: int): Overlap {
    Overlap(Tables(map[], map[], 0), now, map[], [])
  }

  // ------------------------------------------------------------------
  // Minting
  // ------------------------------------------------------------------

  /** `owner` is the one token of a kind with an id: ids are drawn at random and never reused. */
  predicate Owns(owner: (Kind, string) -> Token, t: Token) {
    owner(t.kind, t.jti) == t
  }

  ghost predicate AllOwned(owner: (Kind, string) -> Token, events: seq<Event>) {
    forall e :: e in events && (e.BeginRefresh? || e.BeginLogout?) ==> Owns(owner, e.t)
  }

  predicate RowLasts(owner: (Kind, string) -> Token, kind: Kind, jti: string, until: int) {
    var t := owner(kind, jti);
    t.kind == kind && t.jti == jti && t.jti != "" && (t.exp.Some? ==> until >= t.exp.value)
  }

  ghost predicate RowsLast(owner: (Kind, string) -> Token, s: Tables) {
    && (forall jti :: jti in s.access ==> RowLasts(owner, Access, jti, s.access[jti]))
    && (forall jti :: jti in s.refresh ==> RowLasts(owner, Refresh, jti, s.refresh[jti]))
  }

  /** An expiring token that is past its expiry or has its row. */
  predicate Spent(w: Overlap, t: Token) {
    t.exp.Some? ==> Expired(t, w.now) || HasRow(w.tables, t)
  }

  predicate NotYet(minted: seq<Mint>, t: Token, passed: nat) {
    passed <= |minted| && (t.exp.Some? ==> forall i :: 0 <= i < passed ==> minted[i].t != t)
  }

  predicate StepHolds(owner: (Kind, string) -> Token, minted: seq<Mint>, s: Step) {
    && Owns(owner, s.t)
    && (!s.Decoded? ==> s.t.jti != "" && !s.t.kind.Other? && NotYet(minted, s.t, s.passed))
  }

  ghost predicate Inv(owner: (Kind, string) -> Token, w: Overlap) {
    && RowsLast(owner, w.tables)
    && (forall who :: who in w.steps ==> StepHolds(owner, w.minted, w.steps[who]))
    && (forall i :: 0 <= i < |w.minted| ==> Owns(owner, w.minted[i].t) && w.minted[i].t.jti != "" && Spent(w, w.minted[i].t))
    && (forall i, j :: 0 <= i < j < |w.minted| && w.minted[i].t == w.minted[j].t && w.minted[j].t.exp.Some? ==>
          w.minted[j].passed <= i)
  }

  /** A spent token stays spent: its row goes only after its expiry. */
  lemma StaysSpent(owner: (Kind, string) -> Token, w: Overlap, e: Event, t: Token)
    requires RowsLast(owner, w.tables) && Owns(owner, t) && Spent(w, t)
    ensures Spent(Next(w, e), t)
  {
    if e.Purge? && HasRow(w.tables, t) && t.exp.Some? {
      assert RowLasts(owner, t.kind, t.jti, if t.kind.Access? then w.tables.access[t.jti] else w.tables.refresh[t.jti]);
    }
  }

  lemma RowsStillLast(owner: (Kind, string) -> Token, w: Overlap, e: Event)
    requires Inv(owner, w)
    ensures RowsLast(owner, Next(w, e).tables)
  {
    hide Verdict, Spent, NotYet;
    if e.Insert? && e.who in w.steps && w.steps[e.who].Absent? {
      assert StepHolds(owner, w.minted, w.steps[e.who]);
    }
  }

  lemma DecodeHolds(owner: (Kind, string) -> Token, w: Overlap, who: string, t: Token, mints: bool)
    requires Inv(owner, w) && Owns(owner, t)
    ensures Inv(owner, SecondDecode(w, who, t, mints))
  {
    hide RowsLast;
    var w' := SecondDecode(w, who, t, mints);
    if who in w'.steps && t.exp.Some? {
      forall i | 0 <= i < |w.minted| ensures w.minted[i].t != t {
        assert Spent(w, w.minted[i].t);
      }
    }
    forall other | other in w'.steps ensures StepHolds(owner, w'.minted, w'.steps[other]) {
    }
  }

  lemma ThroughHolds(owner: (Kind, string) -> Token, w: Overlap, who: string, tables: Tables)
    requires Inv(owner, w) && who in w.steps && !w.steps[who].Decoded? && RowsLast(owner, tables)
    requires forall i :: 0 <= i < |w.minted| ==> Spent(w.(tables := tables), w.minted[i].t)
    requires Spent(w.(tables := tables), w.steps[who].t)
    ensures Inv(owner, Through(w, who).(tables := tables))
  {
    hide RowsLast;
    var s := w.steps[who];
    assert StepHolds(owner, w.minted, s);
    var w' := Through(w, who).(tables := tables);
    forall other | other in w'.steps ensures StepHolds(owner, w'.minted, w'.steps[other]) {
      assert StepHolds(owner, w.minted, w.steps[other]);
    }
    forall i | 0 <= i < |w'.minted| ensures Spent(w', w'.minted[i].t) {
    }
  }

  lemma StepKeepsInv(owner: (Kind, string) -> Token, w: Overlap, e: Event)
    requires Inv(owner, w) && (e.BeginRefresh? || e.BeginLogout? ==> Owns(owner, e.t))
    ensures Inv(owner, Next(w, e))
  {
    RowsStillLast(owner, w, e);
    forall i | 0 <= i < |w.minted| ensures Spent(Next(w, e), w.minted[i].t) {
      StaysSpent(owner, w, e, w.minted[i].t);
    }
    hide RowsLast, Verdict, Owns, NotYet, CleanedUp, SecondDecode;
    match e
    case BeginLogout(who, t) =>
      if who !in w.steps {
        DecodeHolds(owner, w, who, t, false);
      }
    case DecodeAgain(who) =>
      if who in w.steps && w.steps[who].Decoded? {
        assert StepHolds(owner, w.minted, w.steps[who]);
        DecodeHolds(owner, w, who, w.steps[who].t, true);
      }
    case Look(who) =>
      if who in w.steps && w.steps[who].Passed? && HasRow(w.tables, w.steps[who].t) {
        ThroughHolds(owner, w, who, w.tables);
      }
    case Insert(who) =>
      if who in w.steps && w.steps[who].Absent? && !HasRow(w.tables, w.steps[who].t) {
        assert StepHolds(owner, w.minted, w.steps[who]);
        ThroughHolds(owner, w, who, Next(w, e).tables);
      }
    case _ =>
  }

  lemma {:induction false} RunKeepsInv(owner: (Kind, string) -> Token, w: Overlap, events: seq<Event>)
    requires Inv(owner, w) && AllOwned(owner, events)
    ensures Inv(owner, Run(w, events))
    decreases |events|
  {
    hide Inv, Next, Owns;
    if events != [] {
      assert events[0] in events;
      StepKeepsInv(owner, w, events[0]);
      assert forall e :: e in events[1..] ==> e in events;
      RunKeepsInv(owner, Next(w, events[0]), events[1..]);
    }
  }

  /**
   In every run of overlapping refreshes and logouts: if a token mints a second pair, the later
   session's second decode had accepted it before the earlier pair was minted.
   */
  lemma SecondPairOverlaps(owner: (Kind, string) -> Token, now: int, events: seq<Event>, i: nat, j: nat)
    requires AllOwned(owner, events)
    requires var minted := Run(Fresh(now), events).minted;
             i < j < |minted| && minted[i].t == minted[j].t && minted[i].t.exp.Some?
    ensures Run(Fresh(now), events).minted[j].passed <= i
  {
    hide AllOwned, StepHolds, Spent, Owns, Run;
    RunKeepsInv(owner, Fresh(now), events);
  }

  // ------------------------------------------------------------------
  // When a token mints twice
  // ------------------------------------------------------------------

  function Moment(now: int, events: seq<Event>, n: nat): Overlap
    requires n <= |events|
  {
    Run(Fresh(now), events[..n])
  }

  lemma NextMoment(now: int, events: seq<Event>, n: nat)
    requires n < |events|
    ensures Moment(now, events, n + 1) == Next(Moment(now, events, n), events[n])
  {
    hide Next;
    TraceLast(Next, Fresh(now), events, n);
  }

  lemma MomentHolds(owner: (Kind, string) -> Token, now: int, events: seq<Event>, n: nat)
    requires n <= |events| && AllOwned(owner, events)
    ensures Inv(owner, Moment(now, events, n))
  {
    hide StepHolds, Spent, Owns, Run;
    assert forall e :: e in events[..n] ==> e in events;
    RunKeepsInv(owner, Fresh(now), events[..n]);
  }

  ghost predicate HasPair(minted: seq<Mint>, t: Token) {
    exists i :: 0 <= i < |minted| && minted[i].t == t
  }

  ghost predicate MintsTwice(minted: seq<Mint>, t: Token) {
    exists i, j :: 0 <= i < j < |minted| && minted[i].t == t && minted[j].t == t
  }

  /** A refresh of the token between its second decode and its end. */
  predicate InFlight(s: Step, t: Token) {
    !s.Decoded? && s.mints && s.t == t
  }

  /**
   The event is a refresh of the token, accepted before the token's first pair, that finds the row
   there when it looks, or that looked before there was a row and inserts after it was purged.
   */
  ghost predicate MintsAgain(w: Overlap, e: Event, t: Token) {
    && HasPair(w.minted, t) && (e.Look? || e.Insert?) && e.who in w.steps && InFlight(w.steps[e.who], t)
    && (forall i :: 0 <= i < |w.minted| && w.minted[i].t == t ==> w.steps[e.who].passed <= i)
    && if e.Look? then w.steps[e.who].Passed? && HasRow(w.tables, t)
       else w.steps[e.who].Absent? && !HasRow(w.tables, t) && Expired(t, w.now)
  }

  ghost predicate MintsAgainAt(now: int, events: seq<Event>, n: nat, t: Token) {
    n < |events| && MintsAgain(Moment(now, events, n), events[n], t)
  }

  /** A step mints at most one pair, for the session it ends. */
  lemma StepMints(w: Overlap, e: Event)
    ensures var minted, minted' := w.minted, Next(w, e).minted;
            minted' != minted ==>
              && (e.Look? || e.Insert?) && e.who in w.steps && !w.steps[e.who].Decoded? && w.steps[e.who].mints
              && (if e.Look? then w.steps[e.who].Passed? && HasRow(w.tables, w.steps[e.who].t)
                  else w.steps[e.who].Absent? && !HasRow(w.tables, w.steps[e.who].t))
              && minted' == minted + [Mint(w.steps[e.who].t, w.steps[e.who].passed)]
  {
    hide Verdict, HasRow, WithRow;
  }

  lemma {:induction false} MintedGrows(now: int, events: seq<Event>, n: nat, n': nat)
    requires n <= n' <= |events|
    ensures Moment(now, events, n).minted <= Moment(now, events, n').minted
    decreases n' - n
  {
    hide Moment, Next;
    if n < n' {
      NextMoment(now, events, n);
      StepMints(Moment(now, events, n), events[n]);
      MintedGrows(now, events, n + 1, n');
    }
  }

  /** The step that minted pair j. */
  lemma {:induction false} MintingStep(now: int, events: seq<Event>, n': nat, j: nat) returns (n: nat)
    requires n' <= |events| && j < |Moment(now, events, n').minted|
    ensures n < n' && |Moment(now, events, n).minted| == j && |Moment(now, events, n + 1).minted| == j + 1
    decreases n'
  {
    n := 0;
    if n' > 0 {
      hide Moment, Next;
      n := n' - 1;
      NextMoment(now, events, n);
      StepMints(Moment(now, events, n), events[n]);
      if j < |Moment(now, events, n).minted| {
        n := MintingStep(now, events, n, j);
      }
    }
  }

  /** A step that mints for a token that has a pair is of the described kind. */
  lemma SecondMintIsLate(owner: (Kind, string) -> Token, w: Overlap, e: Event, t: Token)
    requires Inv(owner, w) && t.exp.Some? && HasPair(w.minted, t)
    requires var minted' := Next(w, e).minted; minted' != w.minted && minted'[|minted'| - 1].t == t
    ensures MintsAgain(w, e, t)
  {
    StepMints(w, e);
    hide Next, HasRow, Owns, RowsLast;
    var i :| 0 <= i < |w.minted| && w.minted[i].t == t;
    assert Spent(w, w.minted[i].t);
    assert StepHolds(owner, w.minted, w.steps[e.who]);
  }

  lemma MintsAgainMints(w: Overlap, e: Event, t: Token)
    requires MintsAgain(w, e, t)
    ensures MintsTwice(Next(w, e).minted, t)
  {
    var i :| 0 <= i < |w.minted| && w.minted[i].t == t;
    var minted' := Next(w, e).minted;
    assert minted'[i].t == t && minted'[|w.minted|].t == t;
  }

  lemma PairsStay(minted: seq<Mint>, minted': seq<Mint>, t: Token)
    requires minted <= minted'
    ensures HasPair(minted, t) ==> HasPair(minted', t)
    ensures MintsTwice(minted, t) ==> MintsTwice(minted', t)
  {
    if HasPair(minted, t) {
      var i :| 0 <= i < |minted| && minted[i].t == t;
      assert minted'[i].t == t;
    }
    if MintsTwice(minted, t) {
      var i, j :| 0 <= i < j < |minted| && minted[i].t == t && minted[j].t == t;
      assert minted'[i].t == t && minted'[j].t == t;
    }
  }

  /** The moment at which the later of two pairs was minted. */
  lemma SecondMintMoment(owner: (Kind, string) -> Token, now: int, events: seq<Event>, t: Token) returns (n: nat)
    requires AllOwned(owner, events) && t.exp.Some? && MintsTwice(Moment(now, events, |events|).minted, t)
    ensures MintsAgainAt(now, events, n, t)
  {
    hide Moment, Next, Inv, MintsAgain, AllOwned;
    var minted := Moment(now, events, |events|).minted;
    var i, j :| 0 <= i < j < |minted| && minted[i].t == t && minted[j].t == t;
    n := MintingStep(now, events, |events|, j);
    MintedGrows(now, events, n, |events|);
    MintedGrows(now, events, n + 1, |events|);
    assert Moment(now, events, n).minted[i].t == t && Moment(now, events, n + 1).minted[j].t == t;
    NextMoment(now, events, n);
    MomentHolds(owner, now, events, n);
    SecondMintIsLate(owner, Moment(now, events, n), events[n], t);
  }

  /**
   In every run of refreshes, logouts and clean-ups: an expiring token mints a second pair if and
   only if one of its refreshes, accepted before the first pair, looks while the row is there, or,
   having looked before, inserts after the row was purged.
   */
  lemma MintsTwiceIff(owner: (Kind, string) -> Token, now: int, events: seq<Event>, t: Token)
    requires AllOwned(owner, events) && t.exp.Some?
    ensures MintsTwice(Run(Fresh(now), events).minted, t) <==> exists n: nat :: MintsAgainAt(now, events, n, t)
  {
    assert events[..|events|] == events;
    assert Moment(now, events, |events|) == Run(Fresh(now), events);
    hide Run, Moment, Next, MintsTwice, MintsAgain, AllOwned;
    if MintsTwice(Moment(now, events, |events|).minted, t) {
      var n := SecondMintMoment(owner, now, events, t);
    }
    if n: nat :| MintsAgainAt(now, events, n, t) {
      MintsAgainMints(Moment(now, events, n), events[n], t);
      NextMoment(now, events, n);
      MintedGrows(now, events, n + 1, |events|);
      PairsStay(Moment(now, events, n + 1).minted, Moment(now, events, |events|).minted, t);
    }
  }

  /** The token has minted, and no refresh of it is under way. */
  ghost predicate Settled(w: Overlap, t: Token) {
    HasPair(w.minted, t) && forall who :: who in w.steps ==> !InFlight(w.steps[who], t)
  }

  lemma StaysSettled(owner: (Kind, string) -> Token, w: Overlap, e: Event, t: Token)
    requires Inv(owner, w) && Settled(w, t) && t.exp.Some?
    ensures Settled(Next(w, e), t)
  {
    StepMints(w, e);
    var i :| 0 <= i < |w.minted| && w.minted[i].t == t;
    assert Spent(w, w.minted[i].t);
    assert Next(w, e).minted[i].t == t;
    hide RowsLast, Owns, CleanedUp, WithRow;
  }

  lemma {:induction false} SettledFrom(
    owner: (Kind, string) -> Token, now: int, events: seq<Event>, n: nat, n': nat, t: Token)
    requires n <= n' <= |events| && AllOwned(owner, events) && t.exp.Some? && Settled(Moment(now, events, n), t)
    ensures Settled(Moment(now, events, n'), t)
    decreases n' - n
  {
    hide Moment, Next, Inv, Settled, AllOwned;
    if n < n' {
      MomentHolds(owner, now, events, n);
      NextMoment(now, events, n);
      StaysSettled(owner, Moment(now, events, n), events[n], t);
      SettledFrom(owner, now, events, n + 1, n', t);
    }
  }

  /** A token mints one pair if no other refresh of it is past its second decode when it mints. */
  lemma AloneMintsOnce(owner: (Kind, string) -> Token, now: int, events: seq<Event>, n: nat, t: Token)
    requires AllOwned(owner, events) && t.exp.Some? && n < |events|
    requires !HasPair(Moment(now, events, n).minted, t) && Settled(Moment(now, events, n + 1), t)
    ensures !MintsTwice(Run(Fresh(now), events).minted, t)
  {
    MintsTwiceIff(owner, now, events, t);
    hide Run, Next, Inv, AllOwned, Moment, HasPair;
    forall m: nat ensures !MintsAgainAt(now, events, m, t) {
      if m <= n {
        MintedGrows(now, events, m, n);
        PairsStay(Moment(now, events, m).minted, Moment(now, events, n).minted, t);
      } else if m < |events| {
        SettledFrom(owner, now, events, n + 1, m, t);
      }
    }
  }

  // ------------------------------------------------------------------
  // One session alone
  // ------------------------------------------------------------------

  /** From the second decode on, nobody else in between: what revoke_token does, and the pair of a refresh. */
  lemma RevokeAlone(w: Overlap, who: string, t: Token, mints: bool)
    ensures var done, w' := Revoked(w.tables, w.now, t).0.Done?, SecondDecode(w, who, t, mints);
            Next(Next(w', Look(who)), Insert(who))
            == Overlap(Revoked(w.tables, w.now, t).1, w.now, w.steps - {who},
                       if done && mints then w.minted + [Mint(t, |w.minted|)] else w.minted)
  {
    var w' := SecondDecode(w, who, t, mints);
    if who in w'.steps {
      var w2 := Next(w', Look(who));
      assert w2.steps == w.steps[who := Absent(t, mints, |w.minted|)];
      assert w2.steps - {who} == w.steps - {who};
    } else {
      assert Next(Next(w', Look(who)), Insert(who)) == w';
    }
  }

  /** A refresh that nobody gets in between is `TokenService.RefreshAccessToken`. */
  lemma RefreshAlone(w: Overlap, who: string, t: Token)
    requires who !in w.steps
    ensures var mints := MintsPair(w.tables, w.now, t);
            Run(w, [BeginRefresh(who, t), DecodeAgain(who), Look(who), Insert(who)])
            == Overlap(if mints then Revoked(w.tables, w.now, t).1 else w.tables, w.now, w.steps,
                       if mints then w.minted + [Mint(t, |w.minted|)] else w.minted)
  {
    TraceFour(Next, w, BeginRefresh(who, t), DecodeAgain(who), Look(who), Insert(who));
    var w1 := Next(w, BeginRefresh(who, t));
    if who in w1.steps {
      RevokeAlone(w1, who, t, true);
      assert w1.steps - {who} == w.steps;
      hide Revoked, SecondDecode;
      assert Next(w1, DecodeAgain(who)) == SecondDecode(w1, who, t, true);
    }
  }

  /** And such a logout is `TokenService.RevokeToken`. */
  lemma LogoutAlone(w: Overlap, who: string, t: Token)
    requires who !in w.steps
    ensures Run(w, [BeginLogout(who, t), Look(who), Insert(who)])
         == w.(tables := Revoked(w.tables, w.now, t).1)
  {
    TraceThree(Next, w, BeginLogout(who, t), Look(who), Insert(who));
    RevokeAlone(w, who, t, false);
    assert w.steps - {who} == w.steps;
  }

  // ------------------------------------------------------------------
  // Runs that mint twice
  // ------------------------------------------------------------------

  /** Two refreshes of one token, both accepted twice. */
  function BothAccepted(t: Token): seq<Event> {
    [BeginRefresh("a", t), BeginRefresh("b", t), DecodeAgain("a"), DecodeAgain("b")]
  }

  function TwoPassed(now: int, t: Token): Overlap {
    Overlap(Tables(map[], map[], 0), now, map["a" := Passed(t, true, 0), "b" := Passed(t, true, 0)], [])
  }

  predicate Live(t: Token, now: int) {
    t.genuine && t.kind.Refresh? && t.jti != "" && !Expired(t, now)
  }

  lemma AfterBothAccepted(now: int, t: Token)
    requires Live(t, now)
    ensures Run(Fresh(now), BothAccepted(t)) == TwoPassed(now, t)
  {
    var w0 := Fresh(now);
    var w2 := w0.(steps := map["a" := Decoded(t), "b" := Decoded(t)]);
    assert Next(Next(w0, BeginRefresh("a", t)), BeginRefresh("b", t)) == w2;
    assert Next(Next(w2, DecodeAgain("a")), DecodeAgain("b")) == TwoPassed(now, t);
    TraceFour(Next, w0, BeginRefresh("a", t), BeginRefresh("b", t), DecodeAgain("a"), DecodeAgain("b"));
  }

  /** The second refresh looks after the first has inserted the row, and mints on it. */
  lemma RowThereMintsAgain(now: int, t: Token)
    requires Live(t, now)
    ensures Run(Run(Fresh(now), BothAccepted(t)), [Look("a"), Insert("a"), Look("b"), Insert("b")]).minted
            == [Mint(t, 0), Mint(t, 0)]
  {
    AfterBothAccepted(now, t);
    var w := TwoPassed(now, t);
    var w2 := Next(Next(w, Look("a")), Insert("a"));
    assert w2.minted == [Mint(t, 0)] && HasRow(w2.tables, t) && w2.steps == map["b" := Passed(t, true, 0)];
    var w3 := Next(w2, Look("b"));
    assert w3.minted == [Mint(t, 0), Mint(t, 0)];
    TraceFour(Next, w, Look("a"), Insert("a"), Look("b"), Insert("b"));
  }

  /** Both look first; the second inserts after the first one's row was purged, and mints too. */
  lemma PurgedRowMintsAgain(now: int, t: Token)
    requires Live(t, now) && t.exp == Some(now + 1)
    ensures var w := Run(Run(Fresh(now), BothAccepted(t)), [Look("a"), Look("b"), Insert("a"), Wait(2)]);
            Run(w, [Purge(0, true), Insert("b")]).minted == [Mint(t, 0), Mint(t, 0)]
  {
    AfterBothAccepted(now, t);
    var w := TwoPassed(now, t);
    var w2 := w.(steps := map["a" := Absent(t, true, 0), "b" := Absent(t, true, 0)]);
    assert Next(Next(w, Look("a")), Look("b")) == w2;
    TraceFour(Next, w, Look("a"), Look("b"), Insert("a"), Wait(2));
    var w4 := Overlap(Tables(map[], map[t.jti := now + 1], 0), now + 2, map["b" := Absent(t, true, 0)], [Mint(t, 0)]);
    assert Next(Next(w2, Insert("a")), Wait(2)) == w4;
    var w5 := Next(w4, Purge(0, true));
    assert w5.tables.refresh == map[];
    assert [Purge(0, true), Insert("b")][1..] == [Insert("b")] && [Insert("b")][1..] == [];
    assert Run(w4, [Purge(0, true), Insert("b")]) == Run(w5, [Insert("b")]) == Run(Next(w5, Insert("b")), []);
  }
}
