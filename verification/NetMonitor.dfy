/**
 The outage log of the network monitor (app/services/system_service.py:1009-1029): for each
 probed key, events are written only where the connection state says so.
 */
module NetMonitor {
  datatype EventKind = Disconnect | ReconnectAttempt | ReconnectFail | ReconnectSuccess

  datatype Event = Event(key: string, kind: EventKind)

  datatype Probe = Probe(key: string, ok: bool)

  /** `_last_status.get(key, True)` */
  function LastOk(status: map<string, bool>, key: string): bool {
    if key in status then status[key] else true
  }

  function Kinds(wasOk: bool, ok: bool): seq<EventKind> {
    if wasOk && !ok then [Disconnect]
    else if !wasOk && ok then [ReconnectSuccess]
    else if !wasOk && !ok then [ReconnectAttempt, ReconnectFail]
    else []
  }

  function ForKey(key: string, kinds: seq<EventKind>): seq<Event> {
    seq(|kinds|, i requires 0 <= i < |kinds| => Event(key, kinds[i]))
  }

  /**
   The events that reach the table, of events whose writes are numbered from `from` on. A write
   that fails is swallowed.
   */
  function Kept(events: seq<Event>, from: nat, stored: nat -> bool): seq<Event> {
    if events == [] then []
    else
      var n := |events| - 1;
      Kept(events[..n], from, stored) + if stored(from + n) then [events[n]] else []
  }

  lemma {:induction false} KeptConcat(a: seq<Event>, b: seq<Event>, from: nat, stored: nat -> bool)
    ensures Kept(a + b, from, stored) == Kept(a, from, stored) + Kept(b, from + |a|, stored)
  {
    if b == [] {
      assert a + b == a;
    } else {
      assert (a + b)[..|a + b| - 1] == a + b[..|b| - 1];
      KeptConcat(a, b[..|b| - 1], from, stored);
    }
  }

  class NetworkMonitor {
    var lastStatus: map<string, bool>
    var log: seq<Event>
    var writes: nat

    constructor ()
      ensures lastStatus == map[] && log == [] && writes == 0
    {
      lastStatus, log, writes := map[], [], 0;
    }

    /** _write_event: the row is there or it is not, and the caller never learns. */
    method WriteEvent(key: string, kind: EventKind, stored: nat -> bool)
      modifies this`log, this`writes
      ensures log == old(log) + Kept([Event(key, kind)], old(writes), stored) && writes == old(writes) + 1
    {
      assert Kept([], writes, stored) == [] && [Event(key, kind)][..0] == [];
      if stored(writes) {
        log := log + [Event(key, kind)];
      }
      writes := writes + 1;
    }

    /** The status follows the probe whatever happens to the events. */
    method HandleStateTransition(key: string, currentOk: bool, stored: nat -> bool)
      modifies this
      ensures lastStatus == old(lastStatus)[key := currentOk]
      ensures var events := ForKey(key, Kinds(LastOk(old(lastStatus), key), currentOk));
              log == old(log) + Kept(events, old(writes), stored) && writes == old(writes) + |events|
    {
      var prevOk := if key in lastStatus then lastStatus[key] else true;
      ghost var events := ForKey(key, Kinds(prevOk, currentOk));
      ghost var w0 := writes;
      if prevOk && !currentOk {
        assert events == [Event(key, Disconnect)];
        WriteEvent(key, Disconnect, stored);
      } else if !prevOk && currentOk {
        assert events == [Event(key, ReconnectSuccess)];
        WriteEvent(key, ReconnectSuccess, stored);
      } else if !prevOk && !currentOk {
        assert events == [Event(key, ReconnectAttempt)] + [Event(key, ReconnectFail)];
        KeptConcat([Event(key, ReconnectAttempt)], [Event(key, ReconnectFail)], w0, stored);
        WriteEvent(key, ReconnectAttempt, stored);
        WriteEvent(key, ReconnectFail, stored);
      } else {
        assert events == [];
      }
      lastStatus := lastStatus[key := currentOk];
    }

    /** One probe after another, over any mix of keys, from an empty monitor. */
    method Monitor(probes: seq<Probe>, stored: nat -> bool)
      requires lastStatus == map[] && log == [] && writes == 0
      modifies this
      ensures log == Kept(LogOf(probes), 0, stored) && lastStatus == StatusOf(probes)
    {
      hide Kept, ForKey, LogOf, StatusOf, Kinds, LastOk;
      NoProbesYet(stored);
      assert probes[..0] == [];
      for i := 0 to |probes|
        invariant log == Kept(LogOf(probes[..i]), 0, stored) && writes == |LogOf(probes[..i])|
        invariant lastStatus == StatusOf(probes[..i])
      {
        assert probes[..i + 1] == probes[..i] + [probes[i]];
        OneMoreProbe(probes[..i], probes[i]);
        ghost var events := ForKey(probes[i].key, Kinds(LastOk(lastStatus, probes[i].key), probes[i].ok));
        KeptConcat(LogOf(probes[..i]), events, 0, stored);
        HandleStateTransition(probes[i].key, probes[i].ok, stored);
      }
      assert probes[..|probes|] == probes;
    }
  }

  function StatusOf(probes: seq<Probe>): map<string, bool> {
    if probes == [] then map[]
    else
      var last := probes[|probes| - 1];
      StatusOf(probes[..|probes| - 1])[last.key := last.ok]
  }

  /** The events that the probes make the monitor write, whether or not they are stored. */
  function LogOf(probes: seq<Probe>): seq<Event> {
    if probes == [] then []
    else
      var before, last := probes[..|probes| - 1], probes[|probes| - 1];
      LogOf(before) + ForKey(last.key, Kinds(LastOk(StatusOf(before), last.key), last.ok))
  }

  lemma NoProbesYet(stored: nat -> bool)
    ensures LogOf([]) == [] && StatusOf([]) == map[] && Kept([], 0, stored) == []
  {
  }

  lemma OneMoreProbe(before: seq<Probe>, last: Probe)
    ensures StatusOf(before + [last]) == StatusOf(before)[last.key := last.ok]
    ensures LogOf(before + [last])
         == LogOf(before) + ForKey(last.key, Kinds(LastOk(StatusOf(before), last.key), last.ok))
  {
    assert (before + [last])[..|before|] == before;
  }

  // ------------------------------------------------------------------
  // The grammar of one key's log
  // ------------------------------------------------------------------

  function Retries(n: nat): seq<EventKind> {
    if n == 0 then [] else Retries(n - 1) + [ReconnectAttempt, ReconnectFail]
  }

  /** A finished outage with n failed reconnections. */
  function Outage(n: nat): seq<EventKind> {
    [Disconnect] + Retries(n) + [ReconnectSuccess]
  }

  function Outages(ns: seq<nat>): seq<EventKind> {
    if ns == [] then [] else Outages(ns[..|ns| - 1]) + Outage(ns[|ns| - 1])
  }

  /** What a key has been through: finished outages and, while it is down, the failed retries so far. */
  datatype History = Up(past: seq<nat>) | Down(past: seq<nat>, retries: nat)

  function Spell(h: History): seq<EventKind> {
    match h
    case Up(past) => Outages(past)
    case Down(past, n) => Outages(past) + [Disconnect] + Retries(n)
  }

  function OneKeyLog(log: seq<Event>, key: string): seq<EventKind> {
    if log == [] then []
    else OneKeyLog(log[..|log| - 1], key) + if log[|log| - 1].key == key then [log[|log| - 1].kind] else []
  }

  function Advance(h: History, ok: bool): History {
    match h
    case Up(past) => if ok then h else Down(past, 0)
    case Down(past, n) => if ok then Up(past + [n]) else Down(past, n + 1)
  }

  /** The outages read off the probe outcomes alone: a run of n + 1 failures is an outage with n retries. */
  function HistoryOf(probes: seq<Probe>, key: string): History {
    if probes == [] then Up([])
    else
      var h, last := HistoryOf(probes[..|probes| - 1], key), probes[|probes| - 1];
      if last.key == key then Advance(h, last.ok) else h
  }

  lemma {:induction false} OneKeyConcat(a: seq<Event>, b: seq<Event>, key: string)
    ensures OneKeyLog(a + b, key) == OneKeyLog(a, key) + OneKeyLog(b, key)
  {
    if b == [] {
      assert a + b == a;
    } else {
      assert (a + b)[..|a + b| - 1] == a + b[..|b| - 1];
      OneKeyConcat(a, b[..|b| - 1], key);
    }
  }

  lemma {:induction false} OneKeyOfFor(key: string, kinds: seq<EventKind>, k: string)
    ensures OneKeyLog(ForKey(key, kinds), k) == if key == k then kinds else []
  {
    if kinds != [] {
      assert ForKey(key, kinds)[..|kinds| - 1] == ForKey(key, kinds[..|kinds| - 1]);
      OneKeyOfFor(key, kinds[..|kinds| - 1], k);
    }
  }

  lemma FinishedOutage(past: seq<nat>, n: nat)
    ensures Spell(Up(past + [n])) == Spell(Down(past, n)) + [ReconnectSuccess]
  {
    assert (past + [n])[..|past|] == past;
  }

  lemma OneMoreRetry(past: seq<nat>, n: nat)
    ensures Spell(Down(past, n + 1)) == Spell(Down(past, n)) + [ReconnectAttempt, ReconnectFail]
  {
    hide Outages;
  }

  lemma SpellAdvances(h: History, ok: bool)
    ensures Spell(Advance(h, ok)) == Spell(h) + Kinds(h.Up?, ok)
    ensures Advance(h, ok).Up? == ok
  {
    hide Outages;
    match h
    case Up(past) =>
    case Down(past, n) =>
      hide Spell;
      FinishedOutage(past, n);
      OneMoreRetry(past, n);
  }

  lemma {:induction false} StatusFollowsHistory(probes: seq<Probe>, key: string)
    ensures LastOk(StatusOf(probes), key) <==> HistoryOf(probes, key).Up?
  {
    if probes != [] {
      StatusFollowsHistory(probes[..|probes| - 1], key);
      SpellAdvances(HistoryOf(probes[..|probes| - 1], key), probes[|probes| - 1].ok);
    }
  }

  lemma LogStep(before: seq<Probe>, last: Probe, key: string)
    ensures OneKeyLog(LogOf(before + [last]), key)
         == OneKeyLog(LogOf(before), key)
            + if last.key == key then Kinds(LastOk(StatusOf(before), key), last.ok) else []
  {
    var kinds := Kinds(LastOk(StatusOf(before), last.key), last.ok);
    assert (before + [last])[..|before|] == before;
    OneKeyConcat(LogOf(before), ForKey(last.key, kinds), key);
    OneKeyOfFor(last.key, kinds, key);
  }

  /**
   For any interleaved probes, the events written for one key spell finished outages and at most
   one open one, and the remembered status is false exactly while an outage is open.
   */
  lemma {:induction false} WrittenFollowGrammar(probes: seq<Probe>, key: string)
    ensures OneKeyLog(LogOf(probes), key) == Spell(HistoryOf(probes, key))
    ensures LastOk(StatusOf(probes), key) <==> HistoryOf(probes, key).Up?
  {
    StatusFollowsHistory(probes, key);
    if probes != [] {
      hide OneKeyLog, LogOf, Spell, Advance, Kinds, StatusOf, LastOk;
      var before, last := probes[..|probes| - 1], probes[|probes| - 1];
      WrittenFollowGrammar(before, key);
      assert probes == before + [last];
      LogStep(before, last, key);
      SpellAdvances(HistoryOf(before, key), last.ok);
    }
  }

  /** Reading a key's log back into outages. */
  function ReadLog(kinds: seq<EventKind>): History
    decreases |kinds|
  {
    if kinds == [] then Up([])
    else
      var n := |kinds| - 1;
      match kinds[n]
      case Disconnect => Down(ReadLog(kinds[..n]).past, 0)
      case ReconnectFail =>
        var h := ReadLog(if n == 0 then [] else kinds[..n - 1]);
        if h.Down? then Down(h.past, h.retries + 1) else h
      case ReconnectSuccess =>
        var h := ReadLog(kinds[..n]);
        if h.Down? then Up(h.past + [h.retries]) else h
      case ReconnectAttempt => ReadLog(kinds[..n])
  }

  /** The log loses nothing: every history of outages can be read back from what it spells. */
  lemma {:induction false} LogTellsHistory(h: History)
    ensures ReadLog(Spell(h)) == h
    decreases |Spell(h)|
  {
    hide Outages, Retries;
    match h
    case Up(past) =>
      if past != [] {
        var n := |past| - 1;
        assert past == past[..n] + [past[n]];
        FinishedOutage(past[..n], past[n]);
        ReadsLast(Spell(Down(past[..n], past[n])), ReconnectSuccess);
        LogTellsHistory(Down(past[..n], past[n]));
      } else {
        NoOutages();
      }
    case Down(past, n) =>
      if n == 0 {
        NoRetries(past);
        ReadsLast(Spell(Up(past)), Disconnect);
        LogTellsHistory(Up(past));
      } else {
        OneMoreRetry(past, n - 1);
        LogTellsHistory(Down(past, n - 1));
      }
  }

  lemma NoOutages()
    ensures Spell(Up([])) == []
  {
  }

  lemma NoRetries(past: seq<nat>)
    ensures Spell(Down(past, 0)) == Spell(Up(past)) + [Disconnect]
  {
    hide Outages;
  }

  lemma ReadsLast(kinds: seq<EventKind>, last: EventKind)
    requires last.Disconnect? || last.ReconnectSuccess?
    ensures var h := ReadLog(kinds);
            ReadLog(kinds + [last])
            == if last.Disconnect? then Down(h.past, 0) else if h.Down? then Up(h.past + [h.retries]) else h
  {
    assert (kinds + [last])[..|kinds|] == kinds;
  }

  // ------------------------------------------------------------------
  // Events that are not stored
  // ------------------------------------------------------------------

  /** Every event of the key is stored. */
  ghost predicate AllStored(events: seq<Event>, key: string, from: nat, stored: nat -> bool) {
    forall i :: 0 <= i < |events| && events[i].key == key ==> stored(from + i)
  }

  /** The last event's part in what is written and in what is stored of a key. */
  lemma LastEvent(events: seq<Event>, key: string, from: nat, stored: nat -> bool)
    requires events != []
    ensures var n := |events| - 1;
            var one := if events[n].key == key then [events[n].kind] else [];
            && OneKeyLog(events, key) == OneKeyLog(events[..n], key) + one
            && OneKeyLog(Kept(events, from, stored), key)
               == OneKeyLog(Kept(events[..n], from, stored), key) + if stored(from + n) then one else []
  {
    var n := |events| - 1;
    OneKeyConcat(Kept(events[..n], from, stored), if stored(from + n) then [events[n]] else [], key);
  }

  lemma AllStoredLast(events: seq<Event>, key: string, from: nat, stored: nat -> bool)
    requires events != []
    ensures var n := |events| - 1;
            AllStored(events, key, from, stored) <==>
              AllStored(events[..n], key, from, stored) && (events[n].key == key ==> stored(from + n))
  {
    var n := |events| - 1;
    forall i | 0 <= i < n ensures events[..n][i] == events[i] {
    }
  }

  /** What is stored of a key is everything or less. */
  lemma {:induction false} LostIsShorter(events: seq<Event>, key: string, from: nat, stored: nat -> bool)
    ensures var whole, kept := OneKeyLog(events, key), OneKeyLog(Kept(events, from, stored), key);
            |kept| <= |whole| && if AllStored(events, key, from, stored) then kept == whole else |kept| < |whole|
  {
    if events == [] {
    } else {
      hide OneKeyLog, Kept, AllStored;
      LostIsShorter(events[..|events| - 1], key, from, stored);
      LastEvent(events, key, from, stored);
      AllStoredLast(events, key, from, stored);
    }
  }

  /**
   The status follows the probes in any case. The stored log of a key spells the key's history if
   and only if every event of the key was stored.
   */
  lemma LogFollowsGrammarIff(probes: seq<Probe>, key: string, stored: nat -> bool)
    ensures LastOk(StatusOf(probes), key) <==> HistoryOf(probes, key).Up?
    ensures OneKeyLog(Kept(LogOf(probes), 0, stored), key) == Spell(HistoryOf(probes, key))
            <==> AllStored(LogOf(probes), key, 0, stored)
  {
    hide Spell;
    WrittenFollowGrammar(probes, key);
    LostIsShorter(LogOf(probes), key, 0, stored);
  }

  /** Where every event of a key is stored, the log alone decides whether the key is up. */
  lemma LogDecidesStatus(probes: seq<Probe>, key: string, stored: nat -> bool)
    requires AllStored(LogOf(probes), key, 0, stored)
    ensures LastOk(StatusOf(probes), key) <==> ReadLog(OneKeyLog(Kept(LogOf(probes), 0, stored), key)).Up?
  {
    hide ReadLog, Spell, OneKeyLog, Kept, AllStored;
    LogFollowsGrammarIff(probes, key, stored);
    LogTellsHistory(HistoryOf(probes, key));
  }

  // ------------------------------------------------------------------
  // The outage of the database that holds the log
  // ------------------------------------------------------------------

  const PRIMARY := "db:primary"

  /** Writes made while this key is probed go to the database that is probed: they succeed when the probe does. */
  ghost predicate LogIsOnPrimary(probes: seq<Probe>, stored: nat -> bool) {
    probes == []
    || (LogIsOnPrimary(probes[..|probes| - 1], stored)
        && (probes[|probes| - 1].key == PRIMARY ==>
              forall i :: |LogOf(probes[..|probes| - 1])| <= i < |LogOf(probes)| ==>
                (stored(i) <==> probes[|probes| - 1].ok)))
  }

  function Successes(n: nat): seq<EventKind> {
    if n == 0 then [] else Successes(n - 1) + [ReconnectSuccess]
  }

  lemma {:induction false} AllKept(events: seq<Event>, from: nat, stored: nat -> bool, ok: bool)
    requires forall i: nat :: from <= i < from + |events| ==> (stored(i) <==> ok)
    ensures Kept(events, from, stored) == if ok then events else []
  {
    if events != [] {
      var n := |events| - 1;
      assert stored(from + n) <==> ok;
      AllKept(events[..n], from, stored, ok);
      assert events == events[..n] + [events[n]];
    }
  }

  lemma PrimaryWrites(before: seq<Probe>, last: Probe, stored: nat -> bool)
    requires LogIsOnPrimary(before + [last], stored)
    ensures LogIsOnPrimary(before, stored)
    ensures last.key == PRIMARY ==>
              forall i :: |LogOf(before)| <= i < |LogOf(before + [last])| ==> (stored(i) <==> last.ok)
  {
    hide LogOf;
    assert (before + [last])[..|before|] == before;
  }

  /** What one more probe adds to what is stored of that database. */
  lemma PrimaryStep(before: seq<Probe>, last: Probe, stored: nat -> bool)
    requires LogIsOnPrimary(before + [last], stored)
    ensures LogIsOnPrimary(before, stored)
    ensures OneKeyLog(Kept(LogOf(before + [last]), 0, stored), PRIMARY)
         == OneKeyLog(Kept(LogOf(before), 0, stored), PRIMARY)
            + if last.key == PRIMARY && last.ok then Kinds(LastOk(StatusOf(before), PRIMARY), true) else []
  {
    hide OneKeyLog, Kept, ForKey, StatusOf, LogOf, Kinds, LastOk, LogIsOnPrimary;
    PrimaryWrites(before, last, stored);
    OneMoreProbe(before, last);
    var kinds := Kinds(LastOk(StatusOf(before), last.key), last.ok);
    var events := ForKey(last.key, kinds);
    KeptConcat(LogOf(before), events, 0, stored);
    OneKeyConcat(Kept(LogOf(before), 0, stored), Kept(events, |LogOf(before)|, stored), PRIMARY);
    if last.key == PRIMARY {
      AllKept(events, |LogOf(before)|, stored, last.ok);
      OneKeyOfFor(last.key, kinds, PRIMARY);
      OneKeyOfNone(PRIMARY);
    } else {
      EventsAreOf(last.key, kinds);
      OthersKeep(events, |LogOf(before)|, stored, PRIMARY);
    }
  }

  lemma OneKeyOfNone(key: string)
    ensures OneKeyLog([], key) == []
  {
  }

  lemma EventsAreOf(key: string, kinds: seq<EventKind>)
    ensures forall i :: 0 <= i < |ForKey(key, kinds)| ==> ForKey(key, kinds)[i].key == key
  {
  }

  /** Of the outages of that database only the recoveries are stored. */
  lemma {:induction false} PrimaryOutagesAreLost(probes: seq<Probe>, stored: nat -> bool)
    requires LogIsOnPrimary(probes, stored)
    ensures OneKeyLog(Kept(LogOf(probes), 0, stored), PRIMARY) == Successes(|HistoryOf(probes, PRIMARY).past|)
  {
    if probes == [] {
    } else {
      hide OneKeyLog, Kept, LogOf, LogIsOnPrimary, StatusOf;
      var before, last := probes[..|probes| - 1], probes[|probes| - 1];
      assert probes == before + [last];
      PrimaryStep(before, last, stored);
      PrimaryOutagesAreLost(before, stored);
      StatusFollowsHistory(before, PRIMARY);
    }
  }

  lemma {:induction false} OthersKeep(events: seq<Event>, from: nat, stored: nat -> bool, key: string)
    requires forall i :: 0 <= i < |events| ==> events[i].key != key
    ensures OneKeyLog(Kept(events, from, stored), key) == []
  {
    if events != [] {
      var n := |events| - 1;
      OthersKeep(events[..n], from, stored, key);
      OneKeyConcat(Kept(events[..n], from, stored), if stored(from + n) then [events[n]] else [], key);
    }
  }

  lemma {:induction false} SuccessesSayNothing(n: nat)
    ensures ReadLog(Successes(n)) == Up([])
  {
    hide ReadLog;
    if n > 0 {
      SuccessesSayNothing(n - 1);
      ReadsLast(Successes(n - 1), ReconnectSuccess);
    } else {
      NothingReadsUp();
    }
  }

  lemma NothingReadsUp()
    ensures ReadLog([]) == Up([])
  {
  }

  /** No history of outages is spelled by recoveries alone. */
  lemma SuccessesAreNoHistory(n: nat, h: History)
    requires n > 0
    ensures Spell(h) != Successes(n)
  {
    hide ReadLog;
    SuccessesSayNothing(n);
    LogTellsHistory(h);
    NoOutages();
  }

  /**
   So the log of that database always reads as up, also during an outage, when the status says
   otherwise; and it spells the database's history only as long as there was no outage.
   */
  lemma PrimaryLogHidesOutages(probes: seq<Probe>, stored: nat -> bool)
    requires LogIsOnPrimary(probes, stored)
    ensures var log, h := OneKeyLog(Kept(LogOf(probes), 0, stored), PRIMARY), HistoryOf(probes, PRIMARY);
            && ReadLog(log) == Up([])
            && (h.Down? ==> !LastOk(StatusOf(probes), PRIMARY))
            && (log == Spell(h) <==> h == Up([]))
  {
    hide LogOf, Kept, OneKeyLog, LogIsOnPrimary, ReadLog;
    PrimaryOutagesAreLost(probes, stored);
    StatusFollowsHistory(probes, PRIMARY);
    var h := HistoryOf(probes, PRIMARY);
    SuccessesSayNothing(|h.past|);
    LogTellsHistory(h);
    NoOutages();
    if |h.past| > 0 {
      SuccessesAreNoHistory(|h.past|, h);
    }
  }

  /** One failed probe: the table is empty, which reads as up, and the status is false. */
  lemma FirstPrimaryOutage(stored: nat -> bool)
    requires LogIsOnPrimary([Probe(PRIMARY, false)], stored)
    ensures Kept(LogOf([Probe(PRIMARY, false)]), 0, stored) == []
    ensures !LastOk(StatusOf([Probe(PRIMARY, false)]), PRIMARY) && ReadLog([]).Up?
  {
    var probes := [Probe(PRIMARY, false)];
    assert probes[..0] == [];
    assert LogOf(probes) == [] + ForKey(PRIMARY, [Disconnect]);
    AllKept(LogOf(probes), 0, stored, false);
  }
}
