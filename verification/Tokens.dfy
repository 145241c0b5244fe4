/**
 Token revocation (app/core/security.py:197-246, 321-347): two blacklists keyed by token id,
 a clean-up that forgets expired rows, and refresh, which spends one token for a new pair.

 `TokenService` is the stateful code; `Verdict`, `Revoked` and `CleanedUp` say what its
 methods do to its state. `World` adds what the code does not keep, which tokens were ever
 revoked and which ever minted a pair, and runs any interleaving of the operations.
 */
module Tokens {
  import opened Wrappers
  import opened Traces

  const THROTTLE := 300
  const FALLBACK_LIFE := 600

  datatype Kind = Access | Refresh | Other

  /** A decoded JWT; `genuine` says that signature and issuer check out. */
  datatype Token = Token(jti: string, kind: Kind, subject: string, role: string, exp: Option<int>, genuine: bool)

  datatype Outcome = Accepted | Invalid | WrongKind | RevokedToken

  datatype RevokeOutcome = Done(expiresAt: int) | Rejected(why: Outcome) | NoId | UnsupportedKind

  /** The rows of the two tables (token id to expiry) and the time of the last clean-up. */
  datatype Tables = Tables(access: map<string, int>, refresh: map<string, int>, lastCleanup: int)

  predicate Expired(t: Token, now: int) {
    t.exp.Some? && t.exp.value <= now
  }

  predicate Blacklisted(s: Tables, t: Token) {
    t.jti != "" && ((t.kind.Access? && t.jti in s.access) || (t.kind.Refresh? && t.jti in s.refresh))
  }

  /** decode_access_token, its checks in the source's order. */
  function Verdict(s: Tables, now: int, t: Token, expected: Option<Kind>): Outcome {
    if !t.genuine || Expired(t, now) then Invalid
    else if expected.Some? && t.kind != expected.value then WrongKind
    else if Blacklisted(s, t) then RevokedToken
    else Accepted
  }

  function ExpiryRow(now: int, t: Token): int {
    if t.exp.Some? then t.exp.value else now + FALLBACK_LIFE
  }

  /** A row already there keeps its expiry. */
  function AddRow(rows: map<string, int>, jti: string, expiresAt: int): map<string, int> {
    if jti in rows then rows else rows[jti := expiresAt]
  }

  /** revoke_token */
  function Revoked(s: Tables, now: int, t: Token): (r: (RevokeOutcome, Tables)) {
    var v := Verdict(s, now, t, None);
    if !v.Accepted? then (Rejected(v), s)
    else if t.jti == "" then (NoId, s)
    else
      var at := ExpiryRow(now, t);
      match t.kind
      case Access => (Done(at), s.(access := AddRow(s.access, t.jti, at)))
      case Refresh => (Done(at), s.(refresh := AddRow(s.refresh, t.jti, at)))
      case Other => (UnsupportedKind, s)
  }

  function Unexpired(rows: map<string, int>, now: int): map<string, int> {
    map jti | jti in rows && rows[jti] >= now :: rows[jti]
  }

  /** cleanup_expired_revoked_tokens; `tick` is the monotonic clock of the throttle. */
  function CleanedUp(s: Tables, now: int, tick: int, force: bool): Tables {
    if !force && tick - s.lastCleanup < THROTTLE then s
    else Tables(Unexpired(s.access, now), Unexpired(s.refresh, now), tick)
  }

  /** Exactly the rows that were past their expiry are gone. */
  ghost predicate OnlyExpiredGone(before: map<string, int>, after: map<string, int>, now: int) {
    && (forall jti :: jti in after ==> jti in before && after[jti] == before[jti])
    && (forall jti :: jti in before ==> (jti !in after <==> before[jti] < now))
  }

  /** No row of the token's table ends before the token. */
  predicate Outlived(s: Tables, t: Token) {
    && t.exp.Some?
    && (t.kind.Access? && t.jti in s.access ==> s.access[t.jti] >= t.exp.value)
    && (t.kind.Refresh? && t.jti in s.refresh ==> s.refresh[t.jti] >= t.exp.value)
  }

  /** Such a token is told the same after a clean-up. */
  lemma CleanedVerdict(s: Tables, now: int, tick: int, force: bool, t: Token, expected: Option<Kind>)
    requires Outlived(s, t)
    ensures Verdict(CleanedUp(s, now, tick, force), now, t, expected) == Verdict(s, now, t, expected)
  {
  }

  class TokenService {
    var access: map<string, int>
    var refresh: map<string, int>
    var lastCleanup: int

    ghost function State(): Tables
      reads this
    {
      Tables(access, refresh, lastCleanup)
    }

    constructor ()
      ensures State() == Tables(map[], map[], 0)
    {
      access, refresh, lastCleanup := map[], map[], 0;
    }

    method DecodeAccessToken(now: int, t: Token, expected: Option<Kind>) returns (r: Outcome)
      ensures r == Verdict(State(), now, t, expected)
      ensures r.Accepted? <==> && t.genuine && !Expired(t, now) && !Blacklisted(State(), t)
                               && (expected.Some? ==> t.kind == expected.value)
      ensures !r.Accepted? ==> forall later :: later >= now ==> !Verdict(State(), later, t, expected).Accepted?
    {
      if !t.genuine || (t.exp.Some? && t.exp.value <= now) {
        return Invalid;
      }
      if expected.Some? && t.kind != expected.value {
        return WrongKind;
      }
      if t.jti != "" {
        var row := match t.kind
          case Access => t.jti in access
          case Refresh => t.jti in refresh
          case Other => false;
        if row {
          return RevokedToken;
        }
      }
      return Accepted;
    }

    method RevokeToken(now: int, t: Token) returns (r: RevokeOutcome)
      modifies this
      ensures (r, State()) == Revoked(old(State()), now, t)
      ensures r.Done? ==> forall later, expected :: !Verdict(State(), later, t, expected).Accepted?
      ensures forall u: Token, later, expected :: u.kind != t.kind || u.jti != t.jti ==>
                Verdict(State(), later, u, expected) == Verdict(old(State()), later, u, expected)
      ensures !r.Done? ==> State() == old(State())
    {
      var v := DecodeAccessToken(now, t, None);
      if !v.Accepted? {
        return Rejected(v);
      }
      if t.jti == "" {
        return NoId;
      }
      var expiresAt := if t.exp.Some? then t.exp.value else now + FALLBACK_LIFE;
      match t.kind {
        case Access =>
          if t.jti !in access {
            access := access[t.jti := expiresAt];
          }
        case Refresh =>
          if t.jti !in refresh {
            refresh := refresh[t.jti := expiresAt];
          }
        case Other =>
          return UnsupportedKind;
      }
      return Done(expiresAt);
    }

    method CleanupExpired(now: int, tick: int, force: bool)
      modifies this
      ensures State() == CleanedUp(old(State()), now, tick, force)
      ensures if force || tick - old(lastCleanup) >= THROTTLE
              then lastCleanup == tick && OnlyExpiredGone(old(access), access, now)
                   && OnlyExpiredGone(old(refresh), refresh, now)
              else State() == old(State())
      ensures forall t: Token, expected :: Outlived(old(State()), t) ==>
                Verdict(State(), now, t, expected) == Verdict(old(State()), now, t, expected)
    {
      if !force && tick - lastCleanup < THROTTLE {
        return;
      }
      ghost var before := State();
      lastCleanup := tick;
      access := map jti | jti in access && access[jti] >= now :: access[jti];
      refresh := map jti | jti in refresh && refresh[jti] >= now :: refresh[jti];
      forall t: Token, expected | Outlived(before, t)
        ensures Verdict(State(), now, t, expected) == Verdict(before, now, t, expected)
      {
        CleanedVerdict(before, now, tick, force, t, expected);
      }
    }

    /** The new pair carries the old token's subject and role; None when either check refuses. */
    method RefreshAccessToken(now: int, t: Token) returns (pair: Option<(string, string)>)
      modifies this
      ensures pair.Some? <==> MintsPair(old(State()), now, t)
      ensures pair.Some? ==> pair.value == (t.subject, t.role)
      ensures State() == if MintsPair(old(State()), now, t) then Revoked(old(State()), now, t).1 else old(State())
    {
      var v := DecodeAccessToken(now, t, Some(Refresh));
      if !v.Accepted? {
        return None;
      }
      var r := RevokeToken(now, t);
      if !r.Done? {
        return None;
      }
      return Some((t.subject, t.role));
    }
  }

  /** refresh_access_token goes through: the token is a live refresh token that can be revoked. */
  predicate MintsPair(s: Tables, now: int, t: Token) {
    Verdict(s, now, t, Some(Refresh)).Accepted? && Revoked(s, now, t).0.Done?
  }

  // ------------------------------------------------------------------
  // Runs
  // ------------------------------------------------------------------

  /** `dead` holds the tokens a revocation ever succeeded on; `minted` the tokens pairs were minted from. */
  datatype World = World(tables: Tables, now: int, dead: set<Token>, minted: seq<Token>)

  datatype Event =
    | Tick(delta: nat)
    | Decode(t: Token, expected: Option<Kind>)
    | Revoke(t: Token)
    | RefreshPair(t: Token)
    | Cleanup(tick: int, force: bool)

  function Next(w: World, e: Event): World {
    match e
    case Tick(delta) => w.(now := w.now + delta)
    case Decode(_, _) => w
    case Revoke(t) =>
      var (r, tables) := Revoked(w.tables, w.now, t);
      w.(tables := tables, dead := if r.Done? then w.dead + {t} else w.dead)
    case RefreshPair(t) =>
      if MintsPair(w.tables, w.now, t) then
        w.(tables := Revoked(w.tables, w.now, t).1, dead := w.dead + {t}, minted := w.minted + [t])
      else w
    case Cleanup(tick, force) => w.(tables := CleanedUp(w.tables, w.now, tick, force))
  }

  function Run(w: World, events: seq<Event>): World {
    Trace(Next, w, events)
  }

  /** The token is past its expiry, or a row of its table outlives it. */
  predicate StaysRefused(w: World, t: Token)
    requires t.exp.Some?
  {
    || Expired(t, w.now)
    || (t.kind.Access? && t.jti in w.tables.access && w.tables.access[t.jti] >= t.exp.value)
    || (t.kind.Refresh? && t.jti in w.tables.refresh && w.tables.refresh[t.jti] >= t.exp.value)
  }

  ghost predicate Invariant(w: World) {
    && (forall t :: t in w.dead && t.exp.Some? ==> t.jti != "" && StaysRefused(w, t))
    && (forall i :: 0 <= i < |w.minted| ==> w.minted[i] in w.dead)
    && (forall i, j :: 0 <= i < j < |w.minted| && w.minted[i].exp.Some? ==> w.minted[i] != w.minted[j])
  }

  lemma RevokedRowOutlives(w: World, t: Token)
    requires Revoked(w.tables, w.now, t).0.Done? && t.exp.Some?
    ensures t.jti != "" && StaysRefused(w.(tables := Revoked(w.tables, w.now, t).1), t)
  {
  }

  lemma RefusedForGood(w: World, e: Event, t: Token)
    requires t.exp.Some? && StaysRefused(w, t)
    ensures StaysRefused(Next(w, e), t)
  {
  }

  lemma StepKeepsInvariant(w: World, e: Event)
    requires Invariant(w)
    ensures Invariant(Next(w, e))
  {
    var w' := Next(w, e);
    forall t | t in w'.dead && t.exp.Some? ensures t.jti != "" && StaysRefused(w', t) {
      if t in w.dead {
        RefusedForGood(w, e, t);
      } else {
        RevokedRowOutlives(w, t);
      }
    }
    if e.RefreshPair? && MintsPair(w.tables, w.now, e.t) && e.t in w.dead && e.t.exp.Some? {
      assert false;
    }
  }

  lemma {:induction false} RunKeepsInvariant(w: World, events: seq<Event>)
    requires Invariant(w)
    ensures Invariant(Run(w, events))
    decreases |events|
  {
    if events != [] {
      StepKeepsInvariant(w, events[0]);
      RunKeepsInvariant(Next(w, events[0]), events[1..]);
    }
  }

  lemma {:induction false} DeadStaysDead(w: World, events: seq<Event>)
    ensures w.dead <= Run(w, events).dead
    decreases |events|
  {
    if events != [] {
      DeadStaysDead(Next(w, events[0]), events[1..]);
    }
  }

  function Fresh(now: int): World {
    World(Tables(map[], map[], 0), now, {}, [])
  }

  /**
   Once a token with an expiry has been revoked or spent on a refresh, no later interleaving of
   decoding, revoking, refreshing, cleaning up and waiting accepts it again, as any kind.
   */
  lemma RevokedStaysDead(now: int, before: seq<Event>, t: Token, after: seq<Event>, expected: Option<Kind>)
    requires t.exp.Some? && t in Run(Fresh(now), before).dead
    ensures var w := Run(Run(Fresh(now), before), after);
            !Verdict(w.tables, w.now, t, expected).Accepted?
  {
    var w := Run(Fresh(now), before);
    RunKeepsInvariant(Fresh(now), before);
    RunKeepsInvariant(w, after);
    DeadStaysDead(w, after);
  }

  /**
   The expiry is needed: a token without one is accepted again as soon as a clean-up drops its
   row, ten minutes after its revocation. The code issues no such token, but it accepts one that
   is signed with its key.
   */
  lemma RevokedWithoutExpiryRevives(w: World, t: Token)
    requires t.exp.None? && Revoked(w.tables, w.now, t).0.Done?
    ensures var w' := Run(Next(w, Revoke(t)), [Tick(FALLBACK_LIFE + 1), Cleanup(0, true)]);
            Verdict(w'.tables, w'.now, t, None).Accepted?
  {
    var w1 := Next(w, Revoke(t));
    var w2 := Next(w1, Tick(FALLBACK_LIFE + 1));
    var w3 := Next(w2, Cleanup(0, true));
    assert [Tick(FALLBACK_LIFE + 1), Cleanup(0, true)][1..] == [Cleanup(0, true)];
    assert Run(w2, [Cleanup(0, true)]) == Run(w3, []) == w3;
  }

  /**
   In every run from empty tables, each expiring refresh token mints at most one pair. Here no
   other operation comes between the statements of a refresh; TokenRaces lets them overlap.
   */
  lemma MintsAtMostOnce(now: int, events: seq<Event>, t: Token)
    requires t.exp.Some?
    ensures multiset(Run(Fresh(now), events).minted)[t] <= 1
  {
    RunKeepsInvariant(Fresh(now), events);
    CountDistinct(Run(Fresh(now), events).minted, t);
  }

  lemma {:induction false} CountDistinct(s: seq<Token>, t: Token)
    requires forall i, j :: 0 <= i < j < |s| && s[i] == t ==> s[i] != s[j]
    ensures multiset(s)[t] <= 1
  {
    if s != [] {
      assert s == [s[0]] + s[1..];
      if s[0] == t {
        assert t !in s[1..];
      } else {
        CountDistinct(s[1..], t);
      }
    }
  }

  // ------------------------------------------------------------------
  // Clean-ups
  // ------------------------------------------------------------------

  predicate Backs(d: Token, kind: Kind, jti: string, until: int) {
    d.kind == kind && d.jti == jti && (d.exp.Some? ==> until >= d.exp.value)
  }

  /** Every row was written for a revoked token and lasts as long as it. */
  ghost predicate Backed(w: World) {
    && (forall jti :: jti in w.tables.access ==> exists d :: d in w.dead && Backs(d, Access, jti, w.tables.access[jti]))
    && (forall jti :: jti in w.tables.refresh ==> exists d :: d in w.dead && Backs(d, Refresh, jti, w.tables.refresh[jti]))
  }

  lemma RevocationBacks(w: World, t: Token, dead: set<Token>)
    requires Backed(w)
    requires dead == if Revoked(w.tables, w.now, t).0.Done? then w.dead + {t} else w.dead
    ensures Backed(w.(tables := Revoked(w.tables, w.now, t).1, dead := dead))
  {
    var w' := w.(tables := Revoked(w.tables, w.now, t).1, dead := dead);
    forall jti | jti in w'.tables.access
      ensures exists d :: d in dead && Backs(d, Access, jti, w'.tables.access[jti])
    {
      if jti !in w.tables.access {
        assert Backs(t, Access, jti, w'.tables.access[jti]);
      }
    }
    forall jti | jti in w'.tables.refresh
      ensures exists d :: d in dead && Backs(d, Refresh, jti, w'.tables.refresh[jti])
    {
      if jti !in w.tables.refresh {
        assert Backs(t, Refresh, jti, w'.tables.refresh[jti]);
      }
    }
  }

  lemma StepKeepsBacked(w: World, e: Event)
    requires Backed(w)
    ensures Backed(Next(w, e))
  {
    hide Backs;
    match e
    case Revoke(t) =>
      hide Revoked;
      RevocationBacks(w, t, Next(w, e).dead);
    case RefreshPair(t) =>
      hide Revoked, Verdict;
      if MintsPair(w.tables, w.now, t) {
        RevocationBacks(w, t, w.dead + {t});
      }
    case _ =>
  }

  lemma {:induction false} RunKeepsBacked(w: World, events: seq<Event>)
    requires Backed(w)
    ensures Backed(Run(w, events))
    decreases |events|
  {
    hide Backed, Next;
    if events != [] {
      StepKeepsBacked(w, events[0]);
      RunKeepsBacked(Next(w, events[0]), events[1..]);
    }
  }

  /**
   In every run, a clean-up changes nothing that an expiring token is told, if no other token
   with its kind and id was ever revoked.
   */
  lemma CleanupIsInvisible(now: int, events: seq<Event>, tick: int, force: bool, t: Token, expected: Option<Kind>)
    requires t.exp.Some?
    requires forall d :: d in Run(Fresh(now), events).dead && d.kind == t.kind && d.jti == t.jti ==> d == t
    ensures var w := Run(Fresh(now), events);
            Verdict(CleanedUp(w.tables, w.now, tick, force), w.now, t, expected) == Verdict(w.tables, w.now, t, expected)
  {
    hide Run, Verdict;
    var w := Run(Fresh(now), events);
    RunKeepsBacked(Fresh(now), events);
    assert Outlived(w.tables, t);
    CleanedVerdict(w.tables, w.now, tick, force, t, expected);
  }

  // ------------------------------------------------------------------
  // What a token is told
  // ------------------------------------------------------------------

  /** A token that was never revoked has no row, unless another token has its kind and id. */
  lemma UnrevokedHasNoRow(now: int, events: seq<Event>, t: Token)
    requires t !in Run(Fresh(now), events).dead
    requires forall d :: d in Run(Fresh(now), events).dead && d.kind == t.kind && d.jti == t.jti ==> d == t
    ensures !Blacklisted(Run(Fresh(now), events).tables, t)
  {
    hide Run;
    RunKeepsBacked(Fresh(now), events);
  }

  /**
   In every run, an expiring token with a kind and id of its own is accepted exactly if it is
   genuine, unexpired, of the kind asked for and was never revoked or spent; a revocation takes effect
   exactly on such a token with an id, and exactly a refresh token of these mints a pair.
   */
  lemma AcceptedIff(now: int, events: seq<Event>, t: Token)
    requires t.exp.Some?
    requires forall d :: d in Run(Fresh(now), events).dead && d.kind == t.kind && d.jti == t.jti ==> d == t
    ensures var w := Run(Fresh(now), events);
            var live := t.genuine && w.now < t.exp.value && t !in w.dead;
            && (forall expected :: Verdict(w.tables, w.now, t, expected).Accepted? <==>
                  live && (expected == None || expected == Some(t.kind)))
            && Next(w, Revoke(t)).dead == w.dead + (if live && t.jti != "" && t.kind != Other then {t} else {})
            && Next(w, RefreshPair(t)).minted == w.minted + (if live && t.jti != "" && t.kind == Refresh then [t] else [])
  {
    var w := Run(Fresh(now), events);
    if t in w.dead {
      RunKeepsInvariant(Fresh(now), events);
    } else {
      UnrevokedHasNoRow(now, events, t);
    }
    hide Run;
    assert t in w.dead ==> Expired(t, w.now) || Blacklisted(w.tables, t);
  }
}
