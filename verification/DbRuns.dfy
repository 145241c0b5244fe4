/**
 Interrupted database jobs (app/services/db_job_processor.py:254-374). Any number of attempts at
 one job are alive at once, as when leases lapse under slow workers; each of their queries, single
 document writes, commits and promotions is a step of its own, and an attempt may die between any two.
 The engine may refuse documents, which stops no attempt: its cursor passes them.
 */
module DbRuns {
  import opened Wrappers
  import opened Traces
  import opened CursorCodec
  import opened SearchIndex
  import opened DbScan
  import opened DbJob
  import opened JobProgress

  /** What stays fixed while the job is attempted, and the state it was first attempted in. */
  datatype Setup = Setup(
    table: Table, source: DbSource, model: Model, full: bool, store0: Store, job0: Option<string>, src0: Option<string>)
  {
    function Start(): Option<string> {
      StartCursor(full, job0, src0)
    }

    function Todo(): seq<Row> {
      Pending(table, Start())
    }

    function Items(): seq<Item> {
      RowsToItems(source, Todo())
    }

    function End(): Option<string> {
      CursorAt(table, Start(), |Todo()|)
    }
  }

  /** While it writes its chunk an attempt has an answer of the engine for some of the rows. */
  datatype Phase = Fetching | Writing(rows: seq<Row>, newCursor: Option<string>, answers: map<nat, bool>) | Finishing

  /** A worker inside process_db_job; each may have found another chunk size configured. */
  datatype Attempt = Attempt(chunk: nat, cursor: Option<string>, handled: nat, phase: Phase)

  /** The places in the listing of the documents that were accepted, and of those that were refused, by any attempt. */
  datatype Seen = Seen(taken: set<int>, refused: set<int>)

  datatype World = World(
    store: Store, seen: Seen, jobCursor: Option<string>, srcCursor: Option<string>, counters: Counters,
    attempts: map<nat, Attempt>)

  datatype Event =
    | Claim(who: nat, chunk: nat)
    | Fetch(who: nat)
    | WriteRow(who: nat, i: nat, accepted: bool)
    | Commit(who: nat)
    | Promote(who: nat)
    | Crash(who: nat)

  /** A query; an unreadable cursor fails the attempt. */
  function Fetched(s: Setup, a: Attempt): Option<Attempt> {
    if a.handled >= HARD_MAX_ROWS then Some(a.(phase := Finishing))
    else
      match FetchNextChunk(s.table, a.cursor, a.chunk)
      case FetchError => None
      case Rows(rows, newCursor) =>
        Some(a.(phase := if rows == [] then Finishing else Writing(rows, newCursor, map[])))
  }

  predicate AllWritten(p: Phase)
    requires p.Writing?
  {
    forall i: nat :: i < |p.rows| ==> i in p.answers
  }

  function Committed(a: Attempt): Attempt
    requires a.phase.Writing?
  {
    var n := |a.phase.rows|;
    Attempt(a.chunk, OrElse(a.phase.newCursor, a.cursor), a.handled + n, if n < a.chunk then Finishing else Fetching)
  }

  /** The rows of a chunk with a document that was accepted, or was not. */
  function Answered(s: Setup, rows: seq<Row>, answers: map<nat, bool>, yes: bool): (r: seq<bool>)
    ensures |r| == |rows|
  {
    seq(|rows|, i requires 0 <= i < |rows| =>
      DocOf(RowToItem(s.source, rows[i]), s.model).Some? && (i in answers && answers[i]) == yes)
  }

  function Tally(s: Setup, rows: seq<Row>, answers: map<nat, bool>): BulkResult {
    BulkResult(CountTaken(Answered(s, rows, answers, true)), |rows| - |Prepared(RowsToItems(s.source, rows), s.model)|,
               CountTaken(Answered(s, rows, answers, false)))
  }

  /** The engine answers for the document at this place of the listing; a blank row has none. */
  function Noted(s: Setup, seen: Seen, item: Item, place: int, accepted: bool): Seen {
    if DocOf(item, s.model).None? then seen
    else if accepted then seen.(taken := seen.taken + {place})
    else seen.(refused := seen.refused + {place})
  }

  /** How many of the job's rows lie at or before a cursor. */
  function Position(s: Setup, c: Option<string>): int {
    |s.Todo()| - |Pending(s.table, c)|
  }

  function RowWritten(s: Setup, w: World, who: nat, i: nat, accepted: bool): World
    requires who in w.attempts && w.attempts[who].phase.Writing? && i < |w.attempts[who].phase.rows|
  {
    var a := w.attempts[who];
    var item := RowToItem(s.source, a.phase.rows[i]);
    w.(store := if accepted then PutItem(w.store, item, s.model) else w.store,
       seen := Noted(s, w.seen, item, Position(s, a.cursor) + i, accepted),
       attempts := w.attempts[who := a.(phase := a.phase.(answers := a.phase.answers[i := accepted]))])
  }

  /** One step; an event that is not possible in `w` changes nothing. */
  function Next(s: Setup, w: World, e: Event): World {
    match e
    case Claim(who, chunk) =>
      if who in w.attempts || chunk == 0 then w
      else
        var a := Attempt(chunk, StartCursor(s.full, w.jobCursor, w.srcCursor), 0, Fetching);
        w.(attempts := w.attempts[who := a])
    case Fetch(who) =>
      if who in w.attempts && w.attempts[who].phase.Fetching? then
        match Fetched(s, w.attempts[who])
        case None => w.(attempts := w.attempts - {who})
        case Some(a) => w.(attempts := w.attempts[who := a])
      else w
    case WriteRow(who, i, accepted) =>
      if who in w.attempts && w.attempts[who].phase.Writing? && i < |w.attempts[who].phase.rows| then
        RowWritten(s, w, who, i, accepted)
      else w
    case Commit(who) =>
      if who in w.attempts && w.attempts[who].phase.Writing? && AllWritten(w.attempts[who].phase) then
        var a := w.attempts[who];
        w.(jobCursor := if a.phase.newCursor.Some? then a.phase.newCursor else w.jobCursor,
           counters := Added(w.counters, Tally(s, a.phase.rows, a.phase.answers)),
           attempts := w.attempts[who := Committed(a)])
      else w
    case Promote(who) =>
      if CanPromote(w, who) then
        w.(srcCursor := OrElse(w.attempts[who].cursor, w.srcCursor), attempts := w.attempts - {who})
      else w
    case Crash(who) => w.(attempts := w.attempts - {who})
  }

  predicate CanPromote(w: World, who: nat) {
    who in w.attempts && w.attempts[who].phase.Finishing?
  }

  function Step(s: Setup): (World, Event) -> World {
    (w: World, e: Event) => Next(s, w, e)
  }

  function Run(s: Setup, w: World, events: seq<Event>): World {
    Trace(Step(s), w, events)
  }

  function Initial(s: Setup, c: Counters): World {
    World(s.store0, Seen({}, {}), s.job0, s.src0, c, map[])
  }

  // ------------------------------------------------------------------
  // The steps and the bulk call
  // ------------------------------------------------------------------

  function Writes(who: nat, answers: seq<bool>): seq<Event> {
    if answers == [] then []
    else
      var n := |answers| - 1;
      Writes(who, answers[..n]) + [WriteRow(who, n, answers[n])]
  }

  /** The writes of a chunk one after the other, each with its answer. */
  lemma {:induction false} WritesOneByOne(s: Setup, w: World, who: nat, answers: seq<bool>)
    requires who in w.attempts && w.attempts[who].phase.Writing? && |answers| <= |w.attempts[who].phase.rows|
    ensures var w', a, n := Run(s, w, Writes(who, answers)), w.attempts[who], |answers|;
            && w'.store == PutAccepted(w.store, RowsToItems(s.source, a.phase.rows[..n]), answers, s.model)
            && who in w'.attempts && w'.attempts[who].phase.Writing? && w'.attempts[who].phase.rows == a.phase.rows
            && w'.attempts[who].phase.newCursor == a.phase.newCursor && w'.attempts[who].cursor == a.cursor
            && (forall i: nat :: i < n ==>
                  i in w'.attempts[who].phase.answers && w'.attempts[who].phase.answers[i] == answers[i])
            && w'.attempts == w.attempts[who := a.(phase := w'.attempts[who].phase)]
            && w'.jobCursor == w.jobCursor && w'.srcCursor == w.srcCursor && w'.counters == w.counters
  {
    hide PutItem, RowToItem, Trace, Noted, Position;
    var rows := w.attempts[who].phase.rows;
    if answers == [] {
      RunNothing(s, w);
      assert RowsToItems(s.source, rows[..0]) == [];
    } else {
      var n := |answers| - 1;
      WritesOneByOne(s, w, who, answers[..n]);
      TraceConcat(Step(s), w, Writes(who, answers[..n]), [WriteRow(who, n, answers[n])]);
      TraceOne(Step(s), Run(s, w, Writes(who, answers[..n])), WriteRow(who, n, answers[n]));
      var items := RowsToItems(s.source, rows[..n + 1]);
      assert items[..n] == RowsToItems(s.source, rows[..n]);
    }
  }

  /** Undisturbed, they leave what `IndexBulk` leaves for the chunk, whatever the engine refuses. */
  lemma WritesAreOneBulkCall(s: Setup, w: World, who: nat, h: Health)
    requires who in w.attempts && w.attempts[who].phase.Writing?
    ensures var items := RowsToItems(s.source, w.attempts[who].phase.rows);
            var w', actions := Run(s, w, Writes(who, AcceptedOf(items, s.model, h))), Prepared(items, s.model);
            && w'.store == Apply(w.store, actions, h, |actions|)
            && who in w'.attempts && w'.attempts[who].phase.Writing? && AllWritten(w'.attempts[who].phase)
            && w'.attempts[who].phase.rows == w.attempts[who].phase.rows
            && Tally(s, w.attempts[who].phase.rows, w'.attempts[who].phase.answers)
               == BulkResult(CountWritten(h, |actions|), |items| - |actions|, |actions| - CountWritten(h, |actions|))
  {
    hide Prepared, Apply, PutAccepted, CountWritten, Run, RowToItem, Tally;
    var rows := w.attempts[who].phase.rows;
    var items := RowsToItems(s.source, rows);
    assert rows[..|rows|] == rows;
    WritesOneByOne(s, w, who, AcceptedOf(items, s.model, h));
    AcceptedIsApply(w.store, items, s.model, h);
    var w' := Run(s, w, Writes(who, AcceptedOf(items, s.model, h)));
    TallyIsBulkResult(s, rows, w'.attempts[who].phase.answers, h);
  }

  /**
   One round of an attempt that is left alone is one round of `DbJobProcessor.RunRounds`: the rows after its
   cursor are indexed as in one bulk call, whose counts are committed with the cursor of the last
   row, and the attempt goes on exactly if the chunk was full.
   */
  lemma OneRound(s: Setup, w: World, who: nat, rows: seq<Row>, newCursor: Option<string>, h: Health)
    requires who in w.attempts && w.attempts[who].phase.Fetching? && w.attempts[who].handled < 1_000_000
    requires FetchNextChunk(s.table, w.attempts[who].cursor, w.attempts[who].chunk) == Rows(rows, newCursor) && rows != []
    ensures var items := RowsToItems(s.source, rows);
            var actions, a := Prepared(items, s.model), w.attempts[who];
            var round := [Fetch(who)] + Writes(who, AcceptedOf(items, s.model, h)) + [Commit(who)];
            var w' := Run(s, w, round);
            && w'.store == Apply(w.store, actions, h, |actions|) && w'.srcCursor == w.srcCursor
            && w'.jobCursor == Some(CursorText(rows[|rows| - 1]))
            && w'.counters == Counters(w.counters.processed + |rows|, w.counters.indexed + CountWritten(h, |actions|),
                                       w.counters.skipped + |rows| - |actions|,
                                       w.counters.failed + |actions| - CountWritten(h, |actions|))
            && w'.attempts == w.attempts[who := Attempt(a.chunk, OrElse(newCursor, a.cursor), a.handled + |rows|,
                                                        if |rows| == a.chunk then Fetching else Finishing)]
  {
    hide Prepared, Apply, PutAccepted, CountWritten, RowToItem, Tally, Pending, CursorText, Coerce, OrElse, AcceptedOf;
    FetchIsPrefix(s.table, w.attempts[who].cursor, w.attempts[who].chunk);
    var items := RowsToItems(s.source, rows);
    var writes := Writes(who, AcceptedOf(items, s.model, h));
    var w1 := Next(s, w, Fetch(who));
    var w2 := Run(s, w1, writes);
    assert rows[..|rows|] == rows;
    WritesOneByOne(s, w1, who, AcceptedOf(items, s.model, h));
    WritesAreOneBulkCall(s, w1, who, h);
    TraceConcat(Step(s), w, [Fetch(who)] + writes, [Commit(who)]);
    TraceConcat(Step(s), w, [Fetch(who)], writes);
    TraceOne(Step(s), w, Fetch(who));
    TraceOne(Step(s), w2, Commit(who));
  }

  /** What a commit adds to the counters is what `IndexBulk` returns for the chunk. */
  lemma TallyIsBulkResult(s: Setup, rows: seq<Row>, answers: map<nat, bool>, h: Health)
    requires var taken := AcceptedOf(RowsToItems(s.source, rows), s.model, h);
             forall i: nat :: i < |rows| ==> i in answers && answers[i] == taken[i]
    ensures var items := RowsToItems(s.source, rows);
            var n := |Prepared(items, s.model)|;
            Tally(s, rows, answers) == BulkResult(CountWritten(h, n), |items| - n, n - CountWritten(h, n))
  {
    hide Prepared, CountWritten, CountTaken, AcceptedOf, DocOf, RowToItem;
    var items := RowsToItems(s.source, rows);
    AcceptedIsApply(s.store0, items, s.model, h);
    AcceptedHaveDocs(items, s.model, h);
    assert Answered(s, rows, answers, true) == AcceptedOf(items, s.model, h);
    AnswersAddUp(s, rows, answers);
  }

  lemma AnswersAddUp(s: Setup, rows: seq<Row>, answers: map<nat, bool>)
    ensures CountTaken(Answered(s, rows, answers, true)) + CountTaken(Answered(s, rows, answers, false))
         == |Prepared(RowsToItems(s.source, rows), s.model)|
  {
    hide DocOf, RowToItem, CountTaken, Prepared, PutAccepted;
    var items := RowsToItems(s.source, rows);
    var docs := seq(|items|, i requires 0 <= i < |items| => DocOf(items[i], s.model).Some?);
    AllAcceptedIsPutAll(s.store0, items, docs, s.model);
    CountsAddUp(docs, Answered(s, rows, answers, true), Answered(s, rows, answers, false));
  }

  lemma {:induction false} CountsAddUp(all: seq<bool>, a: seq<bool>, b: seq<bool>)
    requires |a| == |b| == |all| && forall i :: 0 <= i < |all| ==> (all[i] <==> a[i] || b[i]) && !(a[i] && b[i])
    ensures CountTaken(all) == CountTaken(a) + CountTaken(b)
  {
    if all != [] {
      var n := |all| - 1;
      CountsAddUp(all[..n], a[..n], b[..n]);
    }
  }

  // ------------------------------------------------------------------
  // Items with ids of their own
  // ------------------------------------------------------------------

  function PkText(source: DbSource, r: Row): Option<string> {
    var pk := Get(r.cells, if source.pkColumn != [] then source.pkColumn else "id");
    if pk.Null? then None else Some(TextOf(pk))
  }

  /** Primary keys are present and no two look alike. */
  ghost predicate UniquePks(source: DbSource, rows: seq<Row>) {
    && (forall i :: 0 <= i < |rows| ==> PkText(source, rows[i]).Some?)
    && (forall i, j :: 0 <= i < j < |rows| ==> PkText(source, rows[i]) != PkText(source, rows[j]))
  }

  ghost predicate UniqueIds(items: seq<Item>) {
    && (forall i :: 0 <= i < |items| ==> Filled(items[i].docId))
    && (forall i, j :: 0 <= i < j < |items| ==> items[i].docId != items[j].docId)
  }

  /** As for a table keyed by distinct numbers in the key column, `id` if the source names none. */
  lemma NumbersAreUnique(source: DbSource, rows: seq<Row>, pks: seq<int>)
    requires |pks| == |rows| && forall i, j :: 0 <= i < j < |pks| ==> pks[i] != pks[j]
    requires forall i :: 0 <= i < |rows| ==>
               Get(rows[i].cells, if source.pkColumn == "" then "id" else source.pkColumn) == Whole(pks[i])
    ensures UniquePks(source, rows)
  {
    forall i | 0 <= i < |rows| ensures PkText(source, rows[i]) == Some(IntText(pks[i])) {
    }
    forall i, j | 0 <= i < j < |rows| ensures IntText(pks[i]) != IntText(pks[j]) {
      ReadsInt(pks[i]);
      ReadsInt(pks[j]);
    }
  }

  lemma PksGiveIds(source: DbSource, rows: seq<Row>)
    requires UniquePks(source, rows)
    ensures UniqueIds(RowsToItems(source, rows))
  {
    var items := RowsToItems(source, rows);
    forall i | 0 <= i < |items|
      ensures items[i].docId == Some(source.name + ":" + PkText(source, rows[i]).value)
    {
      assert items[i] == RowToItem(source, rows[i]);
    }
    forall i, j | 0 <= i < j < |items| ensures items[i].docId != items[j].docId {
      SameTail(source.name + ":" + PkText(source, rows[j]).value, |source.name| + 1, PkText(source, rows[i]).value);
      assert (source.name + ":" + PkText(source, rows[j]).value)[..|source.name| + 1] == source.name + ":";
    }
  }

  function KeyOf(item: Item): DocKey
    requires Filled(item.docId)
  {
    Named(item.docId.value)
  }

  /** What the index holds for an item once it has been indexed over `base`. */
  function Target(base: Store, item: Item, model: Model): Option<Doc>
    requires Filled(item.docId)
  {
    match DocOf(item, model)
    case Some(doc) => Some(doc)
    case None => Lookup(base, KeyOf(item))
  }

  /** The store is `base` with exactly these of the items indexed. */
  ghost predicate Holds(base: Store, store: Store, items: seq<Item>, model: Model, taken: set<int>)
    requires UniqueIds(items)
  {
    && store.generated == base.generated
    && (forall key | (forall i :: 0 <= i < |items| ==> KeyOf(items[i]) != key) :: Lookup(store, key) == Lookup(base, key))
    && (forall i :: 0 <= i < |items| ==>
          Lookup(store, KeyOf(items[i]))
          == if i in taken then Target(base, items[i], model) else Lookup(base, KeyOf(items[i])))
  }

  lemma WriteIndexes(base: Store, store: Store, items: seq<Item>, model: Model, taken: set<int>, j: nat)
    requires UniqueIds(items) && Holds(base, store, items, model, taken) && j < |items|
    ensures Holds(base, PutItem(store, items[j], model), items, model, taken + {j})
    ensures DocOf(items[j], model).None? ==> Holds(base, PutItem(store, items[j], model), items, model, taken)
  {
    hide DocOf;
    var store' := PutItem(store, items[j], model);
    forall key | key != KeyOf(items[j]) ensures Lookup(store', key) == Lookup(store, key) {
    }
    forall i | 0 <= i < |items| && i != j ensures KeyOf(items[i]) != KeyOf(items[j]) {
    }
  }

  function PlacesOf(taken: seq<bool>): set<int> {
    set i | 0 <= i < |taken| && taken[i]
  }

  /** Indexing items in one go leaves such a store: exactly the accepted ones are indexed over the base. */
  lemma {:induction false} AcceptedAreIndexed(base: Store, items: seq<Item>, taken: seq<bool>, model: Model)
    requires UniqueIds(items) && |taken| == |items|
    ensures Holds(base, PutAccepted(base, items, taken, model), items, model, PlacesOf(taken))
  {
    hide DocOf;
    if items != [] {
      var n := |items| - 1;
      AcceptedAreIndexed(base, items[..n], taken[..n], model);
      var store := PutAccepted(base, items[..n], taken[..n], model);
      assert Holds(base, store, items, model, PlacesOf(taken[..n])) by {
        forall key | forall i :: 0 <= i < |items| ==> KeyOf(items[i]) != key
          ensures Lookup(store, key) == Lookup(base, key)
        {
          assert forall i :: 0 <= i < n ==> KeyOf(items[..n][i]) != key;
        }
        forall i | 0 <= i < n ensures items[..n][i] == items[i] {
        }
        assert n !in PlacesOf(taken[..n]);
      }
      assert PlacesOf(taken) == PlacesOf(taken[..n]) + if taken[n] then {n} else {};
      WriteIndexes(base, store, items, model, PlacesOf(taken[..n]), n);
    }
  }

  lemma HoldsIsUnique(base: Store, a: Store, b: Store, items: seq<Item>, model: Model, taken: set<int>)
    requires UniqueIds(items) && Holds(base, a, items, model, taken) && Holds(base, b, items, model, taken)
    ensures a == b
  {
    hide DocOf;
    forall key ensures Lookup(a, key) == Lookup(b, key) {
      if i :| 0 <= i < |items| && KeyOf(items[i]) == key {
        assert Lookup(a, KeyOf(items[i])) == Lookup(b, KeyOf(items[i]));
      }
    }
    assert a.docs == b.docs by {
      forall key ensures key in a.docs <==> key in b.docs {
        assert Lookup(a, key) == Lookup(b, key);
      }
      forall key | key in a.docs ensures a.docs[key] == b.docs[key] {
        assert Lookup(a, key) == Lookup(b, key);
      }
    }
  }

  // ------------------------------------------------------------------
  // The invariant
  // ------------------------------------------------------------------

  ghost predicate Sound(s: Setup) {
    Listing(s.table, s.Start()) && UniquePks(s.source, s.Todo()) && |s.Todo()| <= HARD_MAX_ROWS
  }

  /** What a job is about: in full mode all rows of the table, else those after the cursor it was enqueued with. */
  lemma TodoIs(s: Setup) returns (k: nat)
    requires Orderly(s.table) && Readable(s.table, s.full, s.job0, s.src0)
    ensures k <= |s.table.rows| && s.Todo() == s.table.rows[k..] && StartsAt(s.table, s.full, s.job0, s.src0, k)
    ensures s.full ==> s.Todo() == s.table.rows
  {
    k := StartOfJob(s.table, s.full, s.job0, s.src0);
  }

  /** The row's document is in the index or was refused, or the row is blank. */
  ghost predicate Settled(s: Setup, seen: Seen, i: nat)
    requires i < |s.Todo()|
  {
    i in seen.taken || i in seen.refused || DocOf(s.Items()[i], s.model).None?
  }

  /** Every row of the job at or before the cursor is settled. */
  ghost predicate Covered(s: Setup, seen: Seen, c: Option<string>) {
    && 0 <= Position(s, c) && StandsAt(s.table, s.Start(), c, Position(s, c))
    && (forall i: nat :: i < Position(s, c) ==> Settled(s, seen, i))
  }

  ghost predicate WritingWell(s: Setup, seen: Seen, a: Attempt)
    requires a.phase.Writing? && 0 <= Position(s, a.cursor)
  {
    var k, m, n := Position(s, a.cursor), |a.phase.rows|, |s.Todo()|;
    && m > 0 && k + m <= n && a.phase.rows == s.Todo()[k..k + m] && (m < a.chunk ==> k + m == n)
    && StandsAt(s.table, s.Start(), a.phase.newCursor, k + m) && Filled(a.phase.newCursor)
    && (forall i: nat :: i in a.phase.answers && i < m ==> Settled(s, seen, k + i))
  }

  ghost predicate AttemptWell(s: Setup, seen: Seen, a: Attempt) {
    && a.chunk > 0 && Covered(s, seen, a.cursor) && a.handled <= Position(s, a.cursor)
    && (a.phase.Writing? ==> WritingWell(s, seen, a))
    && (a.phase.Finishing? ==> Position(s, a.cursor) == |s.Todo()|)
  }

  /** The index is the old one with the accepted documents. */
  ghost predicate Holding(s: Setup, w: World) {
    UniqueIds(s.Items()) && Holds(s.store0, w.store, s.Items(), s.model, w.seen.taken)
  }

  /** The engine is only asked about documents of the job's rows. */
  ghost predicate OnlyDocuments(s: Setup, seen: Seen) {
    forall i :: i in seen.taken || i in seen.refused ==> 0 <= i < |s.Items()| && DocOf(s.Items()[i], s.model).Some?
  }

  ghost predicate Inv(s: Setup, w: World) {
    && Holding(s, w) && OnlyDocuments(s, w.seen)
    && Covered(s, w.seen, StartCursor(s.full, w.jobCursor, w.srcCursor))
    && (w.srcCursor == s.src0 || w.srcCursor == OrElse(s.End(), s.src0))
    && (forall who :: who in w.attempts ==> AttemptWell(s, w.seen, w.attempts[who]))
  }

  /** The job has reached the end of its listing and told the source. */
  ghost predicate Completed(s: Setup, w: World) {
    (forall i: nat :: i < |s.Todo()| ==> Settled(s, w.seen, i)) && w.srcCursor == OrElse(s.End(), s.src0)
  }

  /** Answers stay. */
  ghost predicate Grows(s: Setup, a: Seen, b: Seen) {
    forall i: nat :: i < |s.Todo()| && Settled(s, a, i) ==> Settled(s, b, i)
  }

  lemma GrowthKeepsAttempt(s: Setup, a: Seen, b: Seen, t: Attempt)
    requires AttemptWell(s, a, t) && Grows(s, a, b)
    ensures AttemptWell(s, b, t)
  {
    hide Settled, Pending, StandsAt, Filled;
  }

  lemma CursorIsCovered(s: Setup, seen: Seen, c: Option<string>, k: nat)
    requires StandsAt(s.table, s.Start(), c, k)
    requires forall i: nat :: i < k ==> Settled(s, seen, i)
    ensures Covered(s, seen, c) && Position(s, c) == k
  {
    hide Settled;
  }

  lemma StartHolds(s: Setup, c: Counters)
    requires Sound(s)
    ensures Inv(s, Initial(s, c))
  {
    hide Pending, Settled, UniqueIds, UniquePks;
    PksGiveIds(s.source, s.Todo());
    CursorStands(s.table, s.Start(), 0);
    CursorIsCovered(s, Seen({}, {}), s.Start(), 0);
  }

  lemma FetchKeeps(s: Setup, seen: Seen, a: Attempt)
    requires Sound(s) && AttemptWell(s, seen, a) && a.phase.Fetching?
    ensures Fetched(s, a).Some? && AttemptWell(s, seen, Fetched(s, a).value)
  {
    hide Settled, FetchNextChunk, UniquePks, CursorAt, Filled, Pending;
    if a.handled < HARD_MAX_ROWS {
      FetchAdvances(s.table, s.Start(), a.cursor, Position(s, a.cursor), a.chunk);
    }
  }

  lemma CommitKeeps(s: Setup, seen: Seen, a: Attempt)
    requires AttemptWell(s, seen, a) && a.phase.Writing? && AllWritten(a.phase)
    ensures AttemptWell(s, seen, Committed(a)) && Committed(a).cursor == a.phase.newCursor
    ensures Position(s, a.phase.newCursor) == Position(s, a.cursor) + |a.phase.rows| > Position(s, a.cursor)
  {
    hide Settled, StandsAt;
    var k, m := Position(s, a.cursor), |a.phase.rows|;
    forall i: nat | i < k + m ensures Settled(s, seen, i) {
      assert i < k || (i - k in a.phase.answers && Settled(s, seen, k + (i - k)));
    }
    CursorIsCovered(s, seen, a.phase.newCursor, k + m);
  }

  lemma WriteGrows(s: Setup, store: Store, seen: Seen, j: nat, accepted: bool)
    requires UniqueIds(s.Items()) && Holds(s.store0, store, s.Items(), s.model, seen.taken) && j < |s.Todo()|
    ensures var store' := if accepted then PutItem(store, s.Items()[j], s.model) else store;
            var seen' := Noted(s, seen, s.Items()[j], j, accepted);
            && Holds(s.store0, store', s.Items(), s.model, seen'.taken) && Grows(s, seen, seen') && Settled(s, seen', j)
            && (OnlyDocuments(s, seen) ==> OnlyDocuments(s, seen'))
  {
    hide Holds, PutItem, Pending, DocOf;
    WriteIndexes(s.store0, store, s.Items(), s.model, seen.taken, j);
  }

  lemma WriteKeeps(s: Setup, seen: Seen, seen': Seen, a: Attempt, i: nat, accepted: bool)
    requires Grows(s, seen, seen') && AttemptWell(s, seen, a) && a.phase.Writing? && i < |a.phase.rows|
    requires Settled(s, seen', Position(s, a.cursor) + i)
    ensures AttemptWell(s, seen', a.(phase := a.phase.(answers := a.phase.answers[i := accepted])))
  {
    hide StandsAt, Settled, Pending, Grows, Filled;
    GrowthKeepsAttempt(s, seen, seen', a);
  }

  lemma RowStepKeeps(s: Setup, w: World, who: nat, i: nat, accepted: bool)
    requires Holding(s, w) && who in w.attempts && w.attempts[who].phase.Writing? && i < |w.attempts[who].phase.rows|
    requires forall other :: other in w.attempts ==> AttemptWell(s, w.seen, w.attempts[other])
    ensures var w' := RowWritten(s, w, who, i, accepted);
            && Holds(s.store0, w'.store, s.Items(), s.model, w'.seen.taken) && Grows(s, w.seen, w'.seen)
            && (OnlyDocuments(s, w.seen) ==> OnlyDocuments(s, w'.seen))
            && (forall other :: other in w'.attempts ==> AttemptWell(s, w'.seen, w'.attempts[other]))
  {
    hide AttemptWell, Holds, UniqueIds, Settled, Pending, PutItem, Noted, OnlyDocuments;
    var w', a := RowWritten(s, w, who, i, accepted), w.attempts[who];
    RowIsItem(s, w.seen, a, i);
    WriteGrows(s, w.store, w.seen, Position(s, a.cursor) + i, accepted);
    WriteKeeps(s, w.seen, w'.seen, a, i, accepted);
    forall other | other in w.attempts ensures AttemptWell(s, w'.seen, w.attempts[other]) {
      GrowthKeepsAttempt(s, w.seen, w'.seen, w.attempts[other]);
    }
  }

  lemma AttemptStepKeeps(s: Setup, w: World, e: Event)
    requires Sound(s) && Inv(s, w)
    ensures var w' := Next(s, w, e);
            && Holds(s.store0, w'.store, s.Items(), s.model, w'.seen.taken) && Grows(s, w.seen, w'.seen)
            && OnlyDocuments(s, w'.seen)
            && (forall who :: who in w'.attempts ==> AttemptWell(s, w'.seen, w'.attempts[who]))
  {
    hide AttemptWell, Holds, Sound, UniqueIds, Settled, Covered, OrElse, Pending, PutItem, Fetched,
         AllWritten, Committed, Tally, RowWritten, OnlyDocuments;
    var w' := Next(s, w, e);
    match e
    case Claim(who, chunk) => FreshAttempt(s, w.seen, StartCursor(s.full, w.jobCursor, w.srcCursor), chunk);
    case Fetch(who) =>
      if who in w.attempts && w.attempts[who].phase.Fetching? {
        FetchKeeps(s, w.seen, w.attempts[who]);
      }
    case WriteRow(who, i, accepted) =>
      if who in w.attempts && w.attempts[who].phase.Writing? && i < |w.attempts[who].phase.rows| {
        RowStepKeeps(s, w, who, i, accepted);
      }
    case Commit(who) =>
      if who in w.attempts && w.attempts[who].phase.Writing? && AllWritten(w.attempts[who].phase) {
        CommitKeeps(s, w.seen, w.attempts[who]);
      }
    case Promote(who) =>
    case Crash(who) =>
  }

  lemma FreshAttempt(s: Setup, seen: Seen, c: Option<string>, chunk: nat)
    requires Covered(s, seen, c)
    ensures chunk > 0 ==> AttemptWell(s, seen, Attempt(chunk, c, 0, Fetching))
  {
  }

  lemma RowIsItem(s: Setup, seen: Seen, a: Attempt, i: nat)
    requires AttemptWell(s, seen, a) && a.phase.Writing? && i < |a.phase.rows|
    ensures 0 <= Position(s, a.cursor) && Position(s, a.cursor) + i < |s.Todo()|
    ensures RowToItem(s.source, a.phase.rows[i]) == s.Items()[Position(s, a.cursor) + i]
  {
    hide StandsAt, Settled, RowToItem, Pending;
    assert a.phase.rows[i] == s.Todo()[Position(s, a.cursor) + i];
  }

  lemma CommitCursor(s: Setup, seen: Seen, a: Attempt)
    requires AttemptWell(s, seen, a) && a.phase.Writing? && AllWritten(a.phase)
    ensures Covered(s, seen, a.phase.newCursor) && Filled(a.phase.newCursor)
  {
    hide Covered, StandsAt;
    CommitKeeps(s, seen, a);
  }

  lemma PromotedCursor(s: Setup, seen: Seen, a: Attempt)
    requires AttemptWell(s, seen, a) && a.phase.Finishing?
    ensures Covered(s, seen, a.cursor) && a.cursor == s.End()
    ensures forall i: nat :: i < |s.Todo()| ==> Settled(s, seen, i)
  {
    hide Settled;
  }

  lemma GrowthKeepsCovered(s: Setup, a: Seen, b: Seen, c: Option<string>)
    requires Covered(s, a, c) && Grows(s, a, b)
    ensures Covered(s, b, c)
  {
    hide Settled, Pending, StandsAt;
  }

  lemma StepKeepsInv(s: Setup, w: World, e: Event)
    requires Sound(s) && Inv(s, w)
    ensures Inv(s, Next(s, w, e))
  {
    hide AttemptWell, Covered, Holds, Sound, UniqueIds, PutItem, Fetched, AllWritten, Committed, Tally, Pending, CursorAt,
         OnlyDocuments;
    AttemptStepKeeps(s, w, e);
    GrowthKeepsCovered(s, w.seen, Next(s, w, e).seen, StartCursor(s.full, w.jobCursor, w.srcCursor));
    match e
    case Commit(who) =>
      if who in w.attempts && w.attempts[who].phase.Writing? && AllWritten(w.attempts[who].phase) {
        CommitCursor(s, w.seen, w.attempts[who]);
      }
    case Promote(who) =>
      if CanPromote(w, who) {
        PromotedCursor(s, w.seen, w.attempts[who]);
      }
    case _ =>
  }

  lemma StepKeepsCompleted(s: Setup, w: World, e: Event)
    requires Sound(s) && Inv(s, w)
    requires Completed(s, w) || (e.Promote? && CanPromote(w, e.who))
    ensures Completed(s, Next(s, w, e))
  {
    hide AttemptWell, Covered, Holds, Sound, UniqueIds, PutItem, Fetched, AllWritten, Committed, Tally, Pending, CursorAt,
         Settled, OnlyDocuments;
    AttemptStepKeeps(s, w, e);
    if e.Promote? && CanPromote(w, e.who) {
      PromotedCursor(s, w.seen, w.attempts[e.who]);
    }
  }

  lemma {:induction false} RunKeepsInv(s: Setup, w: World, events: seq<Event>)
    requires Sound(s) && Inv(s, w)
    ensures Inv(s, Run(s, w, events))
    decreases |events|
  {
    hide Inv, Sound, Next;
    if events != [] {
      StepKeepsInv(s, w, events[0]);
      RunKeepsInv(s, Next(s, w, events[0]), events[1..]);
    }
  }

  lemma {:induction false} RunKeepsCompleted(s: Setup, w: World, events: seq<Event>)
    requires Sound(s) && Inv(s, w) && Completed(s, w)
    ensures Completed(s, Run(s, w, events))
    decreases |events|
  {
    hide Inv, Sound, Next, Completed;
    if events != [] {
      StepKeepsInv(s, w, events[0]);
      StepKeepsCompleted(s, w, events[0]);
      RunKeepsCompleted(s, Next(s, w, events[0]), events[1..]);
    }
  }

  // ------------------------------------------------------------------
  // Main results
  // ------------------------------------------------------------------

  /**
   At every moment of every run, whatever died or ran late: the index holds the accepted documents
   over what was there before, and the cursor that the next attempt would start from leaves no row
   behind that is neither among these, nor refused, nor blank.
   */
  lemma NoRowLeftBehind(s: Setup, c: Counters, events: seq<Event>)
    requires Sound(s)
    ensures var w := Run(s, Initial(s, c), events);
            Holding(s, w) && OnlyDocuments(s, w.seen) && Covered(s, w.seen, StartCursor(s.full, w.jobCursor, w.srcCursor))
  {
    hide Covered, Sound, Holds, UniqueIds, AttemptWell, OnlyDocuments;
    StartHolds(s, c);
    RunKeepsInv(s, Initial(s, c), events);
  }

  /**
   So a row at or before that cursor whose document was not there before is missing exactly if it
   was refused and never accepted, and a blank row leaves what was there.
   */
  lemma MissingRowsIff(s: Setup, c: Counters, events: seq<Event>, i: nat)
    requires Sound(s)
    requires var w := Run(s, Initial(s, c), events);
             i < Position(s, StartCursor(s.full, w.jobCursor, w.srcCursor))
    ensures i < |s.Items()| && Filled(s.Items()[i].docId)
    ensures var w, key, doc := Run(s, Initial(s, c), events), KeyOf(s.Items()[i]), DocOf(s.Items()[i], s.model);
            && (doc.Some? && Lookup(s.store0, key) != doc ==>
                  (Lookup(w.store, key) != doc <==> i in w.seen.refused && i !in w.seen.taken))
            && (doc.None? ==> Lookup(w.store, key) == Lookup(s.store0, key) && i !in w.seen.taken && i !in w.seen.refused)
  {
    hide Sound, Pending, DocOf, Run;
    NoRowLeftBehind(s, c, events);
    assert Settled(s, Run(s, Initial(s, c), events).seen, i);
  }

  /** Which of the job's documents have been accepted so far. */
  function TakenRows(s: Setup, w: World): (taken: seq<bool>)
    ensures |taken| == |s.Items()|
  {
    seq(|s.Items()|, i => i in w.seen.taken)
  }

  /**
   Once some attempt has finished, every row is settled and index and source's cursor are those of
   one uninterrupted run with the same documents accepted (what `ProcessDbJob` leaves), of all of
   them if none was refused: the attempts before it, beside it and after it, however they were cut
   off and however they were chunked, make no difference.
   */
  lemma InterruptionsMakeNoDifference(s: Setup, c: Counters, before: seq<Event>, who: nat, after: seq<Event>)
    requires Sound(s) && CanPromote(Run(s, Initial(s, c), before), who)
    ensures var w := Run(s, Next(s, Run(s, Initial(s, c), before), Promote(who)), after);
            && w.store == PutAccepted(s.store0, s.Items(), TakenRows(s, w), s.model)
            && (forall i: nat :: i < |s.Todo()| ==> Settled(s, w.seen, i))
            && (w.seen.refused == {} ==> w.store == PutAll(s.store0, s.Items(), s.model))
            && w.srcCursor == OrElse(s.End(), s.src0)
  {
    hide Inv, Sound, Run, Settled;
    StartHolds(s, c);
    RunKeepsInv(s, Initial(s, c), before);
    var w1 := Run(s, Initial(s, c), before);
    var w2 := Next(s, w1, Promote(who));
    StepKeepsInv(s, w1, Promote(who));
    StepKeepsCompleted(s, w1, Promote(who));
    RunKeepsInv(s, w2, after);
    RunKeepsCompleted(s, w2, after);
    CompletedIsOneShot(s, Run(s, w2, after));
  }

  lemma CompletedIsOneShot(s: Setup, w: World)
    requires Inv(s, w) && Completed(s, w)
    ensures w.store == PutAccepted(s.store0, s.Items(), TakenRows(s, w), s.model)
    ensures w.seen.refused == {} ==> w.store == PutAll(s.store0, s.Items(), s.model)
  {
    hide Covered, Sound, AttemptWell, Pending, DocOf, PutAll, OnlyDocuments;
    StoreIsAccepted(s, w, TakenRows(s, w));
    if w.seen.refused == {} {
      var docs := seq(|s.Items()|, i requires 0 <= i < |s.Items()| => DocOf(s.Items()[i], s.model).Some?);
      forall i | 0 <= i < |s.Items()| && docs[i] ensures i in w.seen.taken {
        assert Settled(s, w.seen, i);
      }
      StoreIsAccepted(s, w, docs);
      AllAcceptedIsPutAll(s.store0, s.Items(), docs, s.model);
    }
  }

  /** Blank rows do not count. */
  lemma StoreIsAccepted(s: Setup, w: World, taken: seq<bool>)
    requires Holding(s, w) && |taken| == |s.Items()|
    requires forall i :: 0 <= i < |taken| && DocOf(s.Items()[i], s.model).Some? ==> (taken[i] <==> i in w.seen.taken)
    ensures w.store == PutAccepted(s.store0, s.Items(), taken, s.model)
  {
    hide Pending, DocOf, PutAccepted;
    AcceptedAreIndexed(s.store0, s.Items(), taken, s.model);
    var store := PutAccepted(s.store0, s.Items(), taken, s.model);
    forall i | 0 <= i < |s.Items()|
      ensures Lookup(store, KeyOf(s.Items()[i])) == Lookup(w.store, KeyOf(s.Items()[i]))
    {
    }
    assert Holds(s.store0, store, s.Items(), s.model, w.seen.taken);
    HoldsIsUnique(s.store0, w.store, store, s.Items(), s.model, w.seen.taken);
  }

  /** Replays are counted again, but every commit keeps the four counters in step. */
  lemma {:induction false} CountersBalance(s: Setup, w: World, events: seq<Event>)
    ensures Balanced(w.counters, Run(s, w, events).counters)
    decreases |events|
  {
    if events != [] {
      CountersBalance(s, Next(s, w, events[0]), events[1..]);
    }
  }

  // ------------------------------------------------------------------
  // Recovery
  // ------------------------------------------------------------------

  lemma RunFirst(s: Setup, w: World, e: Event, rest: seq<Event>)
    ensures Run(s, w, [e] + rest) == Run(s, Next(s, w, e), rest)
  {
    assert ([e] + rest)[1..] == rest;
  }

  /** A live attempt that is left alone gets to its end: `j` rows of its chunk are written already. */
  lemma {:induction false} AttemptCanFinish(s: Setup, w: World, who: nat, j: nat) returns (events: seq<Event>)
    requires Sound(s) && Inv(s, w) && who in w.attempts
    requires var p := w.attempts[who].phase;
             if p.Writing? then j <= |p.rows| && forall i: nat :: i < j ==> i in p.answers else j == 0
    ensures CanPromote(Run(s, w, events), who)
    decreases |s.Todo()| - Position(s, w.attempts[who].cursor),
              if w.attempts[who].phase.Fetching? then 1 else 0,
              if w.attempts[who].phase.Writing? then |w.attempts[who].phase.rows| - j else 0
  {
    hide Sound, Inv, Pending, PutItem, Settled, StandsAt, Run, Tally, FetchNextChunk;
    var a := w.attempts[who];
    if a.phase.Finishing? {
      events := [];
      RunNothing(s, w);
    } else {
      var e := if a.phase.Fetching? then Fetch(who) else if j < |a.phase.rows| then WriteRow(who, j, true) else Commit(who);
      var w' := Next(s, w, e);
      StepKeepsInv(s, w, e);
      AttemptMoves(s, w, who);
      var rest := AttemptCanFinish(s, w', who, if e.WriteRow? then j + 1 else 0);
      events := [e] + rest;
      RunFirst(s, w, e, rest);
    }
  }

  lemma RunNothing(s: Setup, w: World)
    ensures Run(s, w, []) == w
  {
  }

  /** A query succeeds, and a commit moves the cursor on. */
  lemma AttemptMoves(s: Setup, w: World, who: nat)
    requires Sound(s) && Inv(s, w) && who in w.attempts
    ensures var a := w.attempts[who];
            && (a.phase.Fetching? ==> Fetched(s, a).Some? && Fetched(s, a).value.cursor == a.cursor)
            && (a.phase.Writing? && AllWritten(a.phase) ==>
                  |s.Todo()| - Position(s, Committed(a).cursor) < |s.Todo()| - Position(s, a.cursor))
  {
    hide Settled, Holds, UniqueIds, Sound, Pending, FetchNextChunk, StandsAt, AllWritten, AttemptWell;
    var a := w.attempts[who];
    if a.phase.Fetching? {
      FetchKeeps(s, w.seen, a);
    } else if a.phase.Writing? && AllWritten(a.phase) {
      CommitKeeps(s, w.seen, a);
    }
  }

  /** However badly the attempts so far went, one more attempt can finish the job. */
  lemma JobCanBeFinished(s: Setup, c: Counters, before: seq<Event>, who: nat, chunk: nat) returns (events: seq<Event>)
    requires Sound(s) && chunk > 0 && who !in Run(s, Initial(s, c), before).attempts
    ensures CanPromote(Run(s, Run(s, Initial(s, c), before), [Claim(who, chunk)] + events), who)
  {
    hide Sound, Inv, Pending, Run;
    StartHolds(s, c);
    RunKeepsInv(s, Initial(s, c), before);
    var w := Run(s, Initial(s, c), before);
    StepKeepsInv(s, w, Claim(who, chunk));
    events := AttemptCanFinish(s, Next(s, w, Claim(who, chunk)), who, 0);
    RunFirst(s, w, Claim(who, chunk), events);
  }
}
