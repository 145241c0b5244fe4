/**
 The incremental query over an external table (app/services/db_engine_cache.py:125-199) and
 the turning of its rows into index items (app/services/db_job_processor.py:46-62).
 */
module DbScan {
  import opened Wrappers
  import opened Text
  import opened CursorCodec
  import opened SearchIndex

  /** A column value; `Other` is any other value with its str() and its truth. */
  datatype Scalar = Null | Words(s: string) | Whole(n: int) | Other(text: string, truthy: bool)

  datatype Cell = Cell(column: string, value: Scalar)

  /** `cursor` is the value of the cursor column, None for NULL. */
  datatype Row = Row(cells: seq<Cell>, cursor: Option<CursorValue>)

  /**
   The result of the wrapped query without its WHERE clause: the rows in the order the
   database sorts them. `rank` is that order, as numbers; databases differ in where they put NULL.
   */
  datatype Table = Table(rows: seq<Row>, cursorType: CursorType, rank: CursorValue -> int)

  function RankOf(t: Table, r: Row): int {
    if r.cursor.Some? then t.rank(r.cursor.value) else 0
  }

  predicate NoNulls(rows: seq<Row>) {
    forall i :: 0 <= i < |rows| ==> rows[i].cursor.Some?
  }

  predicate SortedRows(t: Table, rows: seq<Row>) {
    NoNulls(rows) && forall i, j :: 0 <= i < j < |rows| ==> RankOf(t, rows[i]) <= RankOf(t, rows[j])
  }

  predicate DistinctRows(t: Table, rows: seq<Row>) {
    NoNulls(rows) && forall i, j :: 0 <= i < j < |rows| ==> RankOf(t, rows[i]) < RankOf(t, rows[j])
  }

  /** Every cursor is a value of its column's type that can be stored and read back. */
  predicate Storable(t: Table, rows: seq<Row>) {
    forall i :: 0 <= i < |rows| ==> StorableRow(t, rows[i])
  }

  predicate StorableRow(t: Table, r: Row) {
    r.cursor.Some? && Fits(t.cursorType, r.cursor.value) && r.cursor.value != Label("")
  }

  /** NULL is beyond nothing. */
  predicate Past(t: Table, r: Row, bound: int) {
    r.cursor.Some? && RankOf(t, r) > bound
  }

  /** WHERE cursor_column > :cursor */
  function Beyond(t: Table, rows: seq<Row>, bound: int): seq<Row> {
    if rows == [] then []
    else (if Past(t, rows[0], bound) then [rows[0]] else []) + Beyond(t, rows[1..], bound)
  }

  /** The rows still to come after a stored cursor; none if the cursor cannot be read. */
  function Pending(t: Table, cursor: Option<string>): seq<Row> {
    match Coerce(t.cursorType, cursor)
    case Absent => t.rows
    case Value(v) => Beyond(t, t.rows, t.rank(v))
    case BadValue => []
  }

  datatype Fetched = Rows(rows: seq<Row>, newCursor: Option<string>) | FetchError

  function CursorText(r: Row): string {
    Stringify(r.cursor)
  }

  /** ORDER BY cursor_column ASC LIMIT :chunk; without LIMIT (Oracle) the same rows are cut by fetchmany. */
  function FetchNextChunk(t: Table, cursor: Option<string>, chunk: nat): Fetched {
    if Coerce(t.cursorType, cursor).BadValue? then FetchError
    else
      var all := Pending(t, cursor);
      var rows := if |all| > chunk then all[..chunk] else all;
      if rows == [] then Rows([], cursor) else Rows(rows, Some(CursorText(rows[|rows| - 1])))
  }

  // ------------------------------------------------------------------
  // Rows as items
  // ------------------------------------------------------------------

  datatype DbSource = DbSource(name: string, titleColumn: string, pkColumn: string, chunkSize: nat)

  function TextOf(v: Scalar): string {
    match v
    case Null => "None"
    case Words(s) => s
    case Whole(n) => IntText(n)
    case Other(s, _) => s
  }

  predicate Truthy(v: Scalar) {
    match v
    case Null => false
    case Words(s) => s != []
    case Whole(n) => n != 0
    case Other(_, truthy) => truthy
  }

  /** row.get(column) */
  function Get(cells: seq<Cell>, column: string): Scalar {
    if cells == [] then Null
    else if cells[0].column == column then cells[0].value
    else Get(cells[1..], column)
  }

  /** " ".join of the values that are not None */
  function JoinValues(cells: seq<Cell>): string {
    if cells == [] then []
    else
      var rest := JoinValues(cells[1..]);
      if cells[0].value.Null? then rest
      else if forall c :: c in cells[1..] ==> c.value.Null? then TextOf(cells[0].value)
      else TextOf(cells[0].value) + " " + rest
  }

  /** _row_to_index_item */
  function RowToItem(source: DbSource, r: Row): Item {
    var titleColumn := if source.titleColumn != [] then source.titleColumn else "title";
    var pkColumn := if source.pkColumn != [] then source.pkColumn else "id";
    var pk := Get(r.cells, pkColumn);
    var named := Get(r.cells, titleColumn);
    var title := if Truthy(named) then TextOf(named) else source.name + "-" + TextOf(pk);
    Item(source.name + "_" + title + ".txt", title + "\n" + JoinValues(r.cells), "txt",
         if pk.Null? then None else Some(source.name + ":" + TextOf(pk)), "db:" + source.name, "")
  }

  predicate FirstOf(cells: seq<Cell>, column: string, k: nat) {
    k < |cells| && cells[k].column == column && forall j :: 0 <= j < k ==> cells[j].column != column
  }

  /** The first cell of a column counts; without one, or with a NULL in it, there is nothing. */
  lemma {:induction false} GetIsFirst(cells: seq<Cell>, column: string)
    ensures forall k: nat :: FirstOf(cells, column, k) ==> Get(cells, column) == cells[k].value
    ensures (forall k :: 0 <= k < |cells| ==> cells[k].column != column) ==> Get(cells, column) == Null
  {
    if cells != [] {
      GetIsFirst(cells[1..], column);
      forall k: nat | FirstOf(cells, column, k) ensures Get(cells, column) == cells[k].value {
        if k > 0 {
          assert cells[0].column != column && cells[1..][k - 1] == cells[k];
          forall j | 0 <= j < k - 1 ensures cells[1..][j].column != column {
            assert cells[1..][j] == cells[j + 1];
          }
          assert FirstOf(cells[1..], column, k - 1);
        }
      }
      if forall k :: 0 <= k < |cells| ==> cells[k].column != column {
        assert forall k :: 0 <= k < |cells[1..]| ==> cells[1..][k] == cells[k + 1];
      }
    }
  }

  /** How a value reads, by its kind. */
  ghost predicate Reads(v: Scalar, text: string) {
    || (v == Null && text == "None") || v == Words(text) || (exists truthy :: v == Other(text, truthy))
    || (v.Whole? && ReadInt(text) == Some(v.n))
  }

  lemma TextOfReads(v: Scalar)
    ensures Reads(v, TextOf(v))
  {
    if v.Whole? {
      ReadsInt(v.n);
    }
  }

  /** The empty text, the number 0, NULL and what Python takes for false do not make a title. */
  ghost predicate MakesTitle(v: Scalar) {
    v != Null && v != Words("") && v != Whole(0) && !(v.Other? && !v.truthy)
  }

  ghost predicate Occurs(part: string, text: string) {
    exists i: nat :: OccursAt(text, part, i)
  }

  lemma OccursWithin(part: string, before: string, text: string, after: string)
    requires Occurs(part, text)
    ensures Occurs(part, before + text + after)
  {
    var i: nat :| OccursAt(text, part, i);
    var whole, j := before + text + after, |before| + i;
    assert whole[j..j + |part|] == text[i..i + |part|];
    assert OccursAt(whole, part, j);
  }

  lemma OccursWhole(part: string)
    ensures Occurs(part, part)
  {
    assert OccursAt(part, part, 0);
  }

  lemma {:induction false} ValueIsJoined(cells: seq<Cell>, k: nat)
    requires k < |cells| && !cells[k].value.Null?
    ensures Occurs(TextOf(cells[k].value), JoinValues(cells))
  {
    hide TextOf, Occurs;
    var first, rest := TextOf(cells[0].value), JoinValues(cells[1..]);
    if k == 0 {
      OccursWhole(first);
      OccursWithin(first, [], first, " " + rest);
      assert [] + first + (" " + rest) == first + " " + rest;
    } else {
      var part := TextOf(cells[k].value);
      assert cells[1..][k - 1] == cells[k];
      ValueIsJoined(cells[1..], k - 1);
      OccursWithin(part, first + " ", rest, []);
      assert first + " " + rest + [] == first + " " + rest;
    }
  }

  ghost predicate AllNull(cells: seq<Cell>) {
    forall i :: 0 <= i < |cells| ==> cells[i].value.Null?
  }

  /** The values stand in the order of the columns with one blank between them. */
  lemma {:induction false} ValuesInOrder(a: seq<Cell>, b: seq<Cell>)
    ensures JoinValues(a + b)
         == if AllNull(a) then JoinValues(b) else if AllNull(b) then JoinValues(a) else JoinValues(a) + " " + JoinValues(b)
    ensures AllNull(a) ==> JoinValues(a) == ""
    ensures |a| == 1 && !AllNull(a) ==> Reads(a[0].value, JoinValues(a))
  {
    hide TextOf, Reads, JoinValues, AllNull;
    if a == [] {
      assert a + b == b;
      NothingJoined();
    } else {
      var rest := a[1..];
      assert (a + b)[0] == a[0] && (a + b)[1..] == rest + b;
      ValuesInOrder(rest, b);
      JoinStep(a);
      JoinStep(a + b);
      AllNullConcat(rest, b);
      AllNullConcat([a[0]], rest);
      assert [a[0]] + rest == a;
      OneIsNull(a[0]);
      if |a| == 1 {
        NothingJoined();
      }
      var first, x, y := TextOf(a[0].value), JoinValues(rest), JoinValues(b);
      assert first + " " + (x + " " + y) == first + " " + x + " " + y;
    }
  }

  lemma NothingJoined()
    ensures JoinValues([]) == "" && AllNull([])
  {
  }

  lemma OneIsNull(c: Cell)
    ensures AllNull([c]) <==> c.value.Null?
  {
    assert [c][0] == c;
  }

  lemma AllNullConcat(a: seq<Cell>, b: seq<Cell>)
    ensures AllNull(a + b) <==> AllNull(a) && AllNull(b)
  {
    if AllNull(a + b) {
      assert forall i :: 0 <= i < |a| ==> a[i] == (a + b)[i];
      forall i | 0 <= i < |b| ensures b[i].value.Null? {
        assert b[i] == (a + b)[|a| + i];
      }
    }
  }

  lemma JoinStep(cells: seq<Cell>)
    requires cells != []
    ensures JoinValues(cells)
         == if cells[0].value.Null? then JoinValues(cells[1..])
            else if AllNull(cells[1..]) then TextOf(cells[0].value)
            else TextOf(cells[0].value) + " " + JoinValues(cells[1..])
    ensures Reads(cells[0].value, TextOf(cells[0].value))
  {
    TextOfReads(cells[0].value);
    NullsAreNull(cells[1..]);
    hide TextOf, Reads;
  }

  lemma NullsAreNull(cells: seq<Cell>)
    ensures AllNull(cells) <==> forall c :: c in cells ==> c.value.Null?
  {
  }

  /**
   Nothing of a row is lost on the way to the index: the item's text opens with a title, which is
   the title column's value or, where that makes none, the source's name and the key, and goes on
   with the values that are not NULL. The document id is there exactly when the key is not NULL.
   */
  lemma RowIsSearchable(source: DbSource, r: Row) returns (title: string, key: string)
    ensures var named := Get(r.cells, if source.titleColumn == "" then "title" else source.titleColumn);
            var pk := Get(r.cells, if source.pkColumn == "" then "id" else source.pkColumn);
            var item := RowToItem(source, r);
            && Reads(pk, key) && (if MakesTitle(named) then Reads(named, title) else title == source.name + "-" + key)
            && item.text == title + "\n" + JoinValues(r.cells)
            && (forall k :: 0 <= k < |r.cells| && !r.cells[k].value.Null? ==> Shows(r.cells[k].value, item.text))
            && item.filename == source.name + "_" + title + ".txt" && item.ext == "txt"
            && item.docId == (if pk == Null then None else Some(source.name + ":" + key))
            && item.sourceLabel == "db:" + source.name && item.contentHash == ""
  {
    hide TextOf, JoinValues, Occurs, Reads;
    var item := RowToItem(source, r);
    var named := Get(r.cells, if source.titleColumn == "" then "title" else source.titleColumn);
    key := TextOf(Get(r.cells, if source.pkColumn == "" then "id" else source.pkColumn));
    title := if Truthy(named) then TextOf(named) else source.name + "-" + key;
    TextOfReads(named);
    TextOfReads(Get(r.cells, if source.pkColumn == "" then "id" else source.pkColumn));
    forall k | 0 <= k < |r.cells| && !r.cells[k].value.Null? ensures Shows(r.cells[k].value, item.text) {
      var part := TextOf(r.cells[k].value);
      ValueIsJoined(r.cells, k);
      OccursWithin(part, title + "\n", JoinValues(r.cells), []);
      assert title + "\n" + JoinValues(r.cells) + [] == item.text;
      TextOfReads(r.cells[k].value);
      assert Reads(r.cells[k].value, part) && Occurs(part, item.text);
    }
  }

  /** The value can be found in the text, as it reads. */
  ghost predicate Shows(v: Scalar, text: string) {
    exists part :: Reads(v, part) && Occurs(part, text)
  }

  function RowsToItems(source: DbSource, rows: seq<Row>): (items: seq<Item>)
    ensures |items| == |rows|
    ensures forall i :: 0 <= i < |rows| ==> items[i] == RowToItem(source, rows[i])
  {
    seq(|rows|, i requires 0 <= i < |rows| => RowToItem(source, rows[i]))
  }

  lemma RowsToItemsConcat(source: DbSource, a: seq<Row>, b: seq<Row>)
    ensures RowsToItems(source, a + b) == RowsToItems(source, a) + RowsToItems(source, b)
  {
  }

  // ------------------------------------------------------------------
  // Where the next query starts
  // ------------------------------------------------------------------

  lemma {:induction false} BeyondLowRows(t: Table, rows: seq<Row>, bound: int)
    requires forall i :: 0 <= i < |rows| ==> !Past(t, rows[i], bound)
    ensures Beyond(t, rows, bound) == []
  {
    if rows != [] {
      BeyondLowRows(t, rows[1..], bound);
    }
  }

  lemma {:induction false} BeyondHighRows(t: Table, rows: seq<Row>, bound: int)
    requires forall i :: 0 <= i < |rows| ==> Past(t, rows[i], bound)
    ensures Beyond(t, rows, bound) == rows
  {
    if rows != [] {
      BeyondHighRows(t, rows[1..], bound);
    }
  }

  lemma {:induction false} BeyondConcat(t: Table, a: seq<Row>, b: seq<Row>, bound: int)
    ensures Beyond(t, a + b, bound) == Beyond(t, a, bound) + Beyond(t, b, bound)
  {
    hide Past;
    if a == [] {
      assert a + b == b;
    } else {
      assert (a + b)[1..] == a[1..] + b;
      BeyondConcat(t, a[1..], b, bound);
    }
  }

  /** What lies beyond a bound is a suffix of the listing: the rows from some place on. */
  lemma {:induction false} BeyondIsSuffix(t: Table, rows: seq<Row>, bound: int) returns (k: nat)
    requires SortedRows(t, rows)
    ensures k <= |rows| && Beyond(t, rows, bound) == rows[k..]
    ensures forall i :: 0 <= i < k ==> RankOf(t, rows[i]) <= bound
    ensures forall i :: k <= i < |rows| ==> RankOf(t, rows[i]) > bound
  {
    hide RankOf;
    if rows == [] {
      k := 0;
    } else if RankOf(t, rows[0]) > bound {
      k := 0;
      forall i | 0 <= i < |rows| ensures RankOf(t, rows[i]) > bound {
        assert i == 0 || RankOf(t, rows[0]) <= RankOf(t, rows[i]);
      }
      BeyondHighRows(t, rows, bound);
    } else {
      k := BeyondIsSuffix(t, rows[1..], bound);
      assert rows[k + 1..] == rows[1..][k..];
      forall i | 0 <= i < |rows|
        ensures (i < k + 1 ==> RankOf(t, rows[i]) <= bound) && (i >= k + 1 ==> RankOf(t, rows[i]) > bound)
      {
        if i > 0 {
          assert rows[i] == rows[1..][i - 1];
        }
      }
      k := k + 1;
    }
  }

  lemma RowRoundTrip(t: Table, r: Row)
    requires StorableRow(t, r)
    ensures Coerce(t.cursorType, Some(CursorText(r))) == Value(r.cursor.value)
  {
    hide Coerce, Stringify, Fits;
    CursorRoundTrip(t.cursorType, r.cursor.value);
  }

  lemma BeyondOneOfThem(t: Table, rows: seq<Row>, i: nat)
    requires SortedRows(t, rows) && i < |rows|
    ensures Beyond(t, rows, RankOf(t, rows[i])) == Beyond(t, rows[i + 1..], RankOf(t, rows[i]))
  {
    hide RankOf, Beyond;
    var low, high := rows[..i + 1], rows[i + 1..];
    assert rows == low + high;
    BeyondConcat(t, low, high, RankOf(t, rows[i]));
    BeyondLowRows(t, low, RankOf(t, rows[i]));
  }

  /** A row's stored cursor asks for the rows of a higher rank. */
  lemma PendingAfter(t: Table, r: Row)
    requires StorableRow(t, r)
    ensures Coerce(t.cursorType, Some(CursorText(r))) == Value(r.cursor.value)
    ensures Pending(t, Some(CursorText(r))) == Beyond(t, t.rows, RankOf(t, r))
  {
    hide Coerce, CursorText, Beyond, Fits;
    RowRoundTrip(t, r);
  }

  lemma TailOfTail<T>(s: seq<T>, k: nat, m: nat)
    requires k <= |s| && 0 < m <= |s[k..]|
    ensures s[k..][m - 1] == s[k + m - 1] && s[k..][m..] == s[k + m..]
  {
  }

  lemma PendingIsSuffix(t: Table, cursor: Option<string>) returns (k: nat)
    requires SortedRows(t, t.rows)
    ensures k <= |t.rows| && Pending(t, cursor) == t.rows[k..]
  {
    match Coerce(t.cursorType, cursor)
    case Absent => k := 0;
    case Value(v) => k := BeyondIsSuffix(t, t.rows, t.rank(v));
    case BadValue => k := |t.rows|;
  }

  /**
   After the first m pending rows, the stored cursor leaves the later pending rows of a higher
   rank: all of them, unless a tie straddles the cut.
   */
  lemma CursorCutsPending(t: Table, cursor: Option<string>, m: nat)
    requires SortedRows(t, t.rows) && Storable(t, t.rows)
    requires 0 < m <= |Pending(t, cursor)|
    ensures var todo := Pending(t, cursor);
            var next := Some(CursorText(todo[m - 1]));
            todo[m - 1].cursor.Some? && Coerce(t.cursorType, next) == Value(todo[m - 1].cursor.value)
            && Pending(t, next) == Beyond(t, todo[m..], RankOf(t, todo[m - 1]))
  {
    hide RankOf, Coerce, CursorText, Beyond, Pending, SortedRows;
    var k := PendingIsSuffix(t, cursor);
    TailOfTail(t.rows, k, m);
    PendingAfter(t, t.rows[k + m - 1]);
    BeyondOneOfThem(t, t.rows, k + m - 1);
  }

  lemma DistinctPending(t: Table, cursor: Option<string>, m: nat)
    requires DistinctRows(t, t.rows) && Storable(t, t.rows)
    requires 0 < m <= |Pending(t, cursor)|
    ensures Pending(t, Some(CursorText(Pending(t, cursor)[m - 1]))) == Pending(t, cursor)[m..]
  {
    hide RankOf, Coerce, CursorText, Beyond, Pending;
    var todo := Pending(t, cursor);
    var k := PendingIsSuffix(t, cursor);
    CursorCutsPending(t, cursor, m);
    forall i | 0 <= i < |todo[m..]| ensures RankOf(t, todo[m..][i]) > RankOf(t, todo[m - 1]) {
      assert todo[m - 1] == t.rows[k + m - 1] && todo[m..][i] == t.rows[k + m + i];
    }
    BeyondHighRows(t, todo[m..], RankOf(t, todo[m - 1]));
  }

  lemma PendingShrinks(t: Table, cursor: Option<string>, m: nat)
    requires SortedRows(t, t.rows) && Storable(t, t.rows)
    requires 0 < m <= |Pending(t, cursor)|
    ensures |Pending(t, Some(CursorText(Pending(t, cursor)[m - 1])))| < |Pending(t, cursor)|
  {
    hide RankOf, Coerce, CursorText, Beyond, Pending;
    var todo := Pending(t, cursor);
    CursorCutsPending(t, cursor, m);
    BeyondShorter(t, todo[m..], RankOf(t, todo[m - 1]));
  }

  lemma {:induction false} BeyondShorter(t: Table, rows: seq<Row>, bound: int)
    ensures |Beyond(t, rows, bound)| <= |rows|
    ensures (exists i :: 0 <= i < |rows| && !Past(t, rows[i], bound)) ==> |Beyond(t, rows, bound)| < |rows|
  {
    hide Past;
    if rows != [] {
      BeyondShorter(t, rows[1..], bound);
      if i :| 0 <= i < |rows| && !Past(t, rows[i], bound) {
        assert i == 0 || rows[i] == rows[1..][i - 1];
      }
    }
  }

  // ------------------------------------------------------------------
  // Chunk after chunk
  // ------------------------------------------------------------------

  /** A round that returns rows leaves fewer of them pending. */
  lemma RoundShrinks(t: Table, cursor: Option<string>, chunk: nat)
    requires SortedRows(t, t.rows) && Storable(t, t.rows)
    ensures var f := FetchNextChunk(t, cursor, chunk);
            f.Rows? && f.rows != [] ==> |Pending(t, f.newCursor)| < |Pending(t, cursor)|
  {
    hide RankOf, Coerce, CursorText, Beyond, Pending, Fits;
    var f := FetchNextChunk(t, cursor, chunk);
    if f.Rows? && f.rows != [] {
      PendingShrinks(t, cursor, |f.rows|);
    }
  }

  /** All the rows that repeated fetching visits, in the order it visits them. */
  function ScanAll(t: Table, cursor: Option<string>, chunk: nat): seq<Row>
    requires SortedRows(t, t.rows) && Storable(t, t.rows) && chunk > 0
    decreases |Pending(t, cursor)|
  {
    RoundShrinks(t, cursor, chunk);
    match FetchNextChunk(t, cursor, chunk)
    case FetchError => []
    case Rows(rows, newCursor) => if rows == [] then [] else rows + ScanAll(t, newCursor, chunk)
  }

  /** Cutting the rows into chunks separates no two rows with the same cursor value. */
  predicate CleanCuts(t: Table, rows: seq<Row>, chunk: nat)
    requires chunk > 0
  {
    |rows| <= chunk || (RankOf(t, rows[chunk - 1]) < RankOf(t, rows[chunk]) && CleanCuts(t, rows[chunk..], chunk))
  }

  lemma FetchIsPrefix(t: Table, cursor: Option<string>, chunk: nat)
    requires !Coerce(t.cursorType, cursor).BadValue?
    ensures var f, all := FetchNextChunk(t, cursor, chunk), Pending(t, cursor);
            var m := if |all| > chunk then chunk else |all|;
            f.Rows? && f.rows == all[..m]
            && f.newCursor == if m == 0 then cursor else Some(CursorText(all[m - 1]))
  {
  }

  lemma {:induction false} ScanIsShort(t: Table, cursor: Option<string>, chunk: nat)
    requires SortedRows(t, t.rows) && Storable(t, t.rows) && chunk > 0
    requires !Coerce(t.cursorType, cursor).BadValue?
    ensures |ScanAll(t, cursor, chunk)| <= |Pending(t, cursor)|
    decreases |Pending(t, cursor)|
  {
    hide RankOf, Coerce, CursorText, Beyond, Pending, FetchNextChunk;
    var todo := Pending(t, cursor);
    FetchIsPrefix(t, cursor, chunk);
    var f := FetchNextChunk(t, cursor, chunk);
    var m := |f.rows|;
    if m > 0 {
      PendingShrinks(t, cursor, m);
      CursorCutsPending(t, cursor, m);
      BeyondShorter(t, todo[m..], RankOf(t, todo[m - 1]));
      ScanIsShort(t, f.newCursor, chunk);
    }
  }

  /** Chunk after chunk gives the listing of a single query exactly when no cut separates equal cursor values. */
  lemma {:induction false} ScanIsOneShotIff(t: Table, cursor: Option<string>, chunk: nat)
    requires SortedRows(t, t.rows) && Storable(t, t.rows) && chunk > 0
    requires !Coerce(t.cursorType, cursor).BadValue?
    ensures ScanAll(t, cursor, chunk) == Pending(t, cursor) <==> CleanCuts(t, Pending(t, cursor), chunk)
    decreases |Pending(t, cursor)|
  {
    hide RankOf, Coerce, CursorText, Beyond, Pending, FetchNextChunk;
    var todo := Pending(t, cursor);
    FetchIsPrefix(t, cursor, chunk);
    var f := FetchNextChunk(t, cursor, chunk);
    var m := |f.rows|;
    if m > 0 {
      PendingShrinks(t, cursor, m);
      CursorCutsPending(t, cursor, m);
      var rest := ScanAll(t, f.newCursor, chunk);
      assert ScanAll(t, cursor, chunk) == todo[..m] + rest;
      SameTail(todo, m, rest);
      ScanIsShort(t, f.newCursor, chunk);
      if m < |todo| {
        BeyondNext(t, cursor, m);
        if RankOf(t, todo[m - 1]) < RankOf(t, todo[m]) {
          ScanIsOneShotIff(t, f.newCursor, chunk);
        }
      } else {
        BeyondLowRows(t, todo[m..], RankOf(t, todo[m - 1]));
      }
    }
  }

  lemma SameTail<T>(s: seq<T>, m: nat, rest: seq<T>)
    requires m <= |s|
    ensures s[..m] + rest == s <==> rest == s[m..]
  {
    if s[..m] + rest == s {
      assert rest == (s[..m] + rest)[m..];
    }
  }

  /** The next query returns everything that was not returned yet, unless the row after the cut ties. */
  lemma BeyondNext(t: Table, cursor: Option<string>, m: nat)
    requires SortedRows(t, t.rows) && 0 < m < |Pending(t, cursor)|
    ensures var todo := Pending(t, cursor);
            var next := Beyond(t, todo[m..], RankOf(t, todo[m - 1]));
            if RankOf(t, todo[m - 1]) < RankOf(t, todo[m]) then next == todo[m..] else |next| < |todo| - m
  {
    hide RankOf, Beyond, Pending, Coerce;
    var todo := Pending(t, cursor);
    var k := PendingIsSuffix(t, cursor);
    var rest := todo[m..];
    forall i | 0 <= i < |rest| ensures RankOf(t, todo[m]) <= RankOf(t, rest[i]) {
      assert todo[m] == t.rows[k + m] && rest[i] == t.rows[k + m + i];
    }
    if RankOf(t, todo[m - 1]) < RankOf(t, todo[m]) {
      BeyondHighRows(t, rest, RankOf(t, todo[m - 1]));
    } else {
      assert rest[0] == todo[m];
      BeyondShorter(t, rest, RankOf(t, todo[m - 1]));
    }
  }

  lemma {:induction false} DistinctCuts(t: Table, rows: seq<Row>, chunk: nat)
    requires DistinctRows(t, rows) && chunk > 0
    ensures CleanCuts(t, rows, chunk)
  {
    if |rows| > chunk {
      DistinctCuts(t, rows[chunk..], chunk);
    }
  }

  /**
   With distinct cursor values, every row past the start cursor is visited once, in order, for
   every chunk size.
   */
  lemma ScanIsOneShot(t: Table, cursor: Option<string>, chunk: nat)
    requires DistinctRows(t, t.rows) && Storable(t, t.rows) && chunk > 0
    requires !Coerce(t.cursorType, cursor).BadValue?
    ensures ScanAll(t, cursor, chunk) == Pending(t, cursor)
  {
    var k := PendingIsSuffix(t, cursor);
    DistinctCuts(t, t.rows[k..], chunk);
    ScanIsOneShotIff(t, cursor, chunk);
  }

  /** The cursor that repeated fetching ends with. */
  function ScanEnd(t: Table, cursor: Option<string>, chunk: nat): Option<string>
    requires SortedRows(t, t.rows) && Storable(t, t.rows) && chunk > 0
    decreases |Pending(t, cursor)|
  {
    RoundShrinks(t, cursor, chunk);
    match FetchNextChunk(t, cursor, chunk)
    case FetchError => cursor
    case Rows(rows, newCursor) => if rows == [] then cursor else ScanEnd(t, newCursor, chunk)
  }

  /** With distinct cursor values the scan ends at the highest one, whatever the chunk size. */
  lemma {:induction false} ScanEndsAtMaximum(t: Table, cursor: Option<string>, chunk: nat)
    requires DistinctRows(t, t.rows) && Storable(t, t.rows) && chunk > 0
    requires !Coerce(t.cursorType, cursor).BadValue?
    ensures Pending(t, cursor) != [] ==> t.rows != [] && ScanEnd(t, cursor, chunk) == Some(CursorText(t.rows[|t.rows| - 1]))
    ensures Pending(t, cursor) == [] ==> ScanEnd(t, cursor, chunk) == cursor
    decreases |Pending(t, cursor)|
  {
    hide RankOf, Coerce, CursorText, Beyond, Pending, FetchNextChunk, Fits;
    var todo := Pending(t, cursor);
    FetchIsPrefix(t, cursor, chunk);
    var f := FetchNextChunk(t, cursor, chunk);
    var m := |f.rows|;
    if m > 0 {
      PendingShrinks(t, cursor, m);
      CursorCutsPending(t, cursor, m);
      DistinctPending(t, cursor, m);
      ScanEndsAtMaximum(t, f.newCursor, chunk);
      var k := PendingIsSuffix(t, cursor);
      assert todo[|todo| - 1] == t.rows[|t.rows| - 1];
    }
  }

  /** Two rows with one cursor value, read one at a time: the second is never seen. */
  lemma TieIsDropped() returns (t: Table)
    ensures SortedRows(t, t.rows) && Storable(t, t.rows) && |t.rows| == 2
    ensures ScanAll(t, None, 1) == t.rows[..1]
  {
    var r := Row([], Some(Number(7)));
    t := Table([r, r], IntCursor, (v: CursorValue) => if v.Number? then v.n else 0);
    FetchIsPrefix(t, None, 1);
    PendingShrinks(t, None, 1);
    CursorCutsPending(t, None, 1);
    BeyondLowRows(t, t.rows[1..], 7);
    var next := Some(CursorText(r));
    assert Pending(t, next) == [];
    FetchIsPrefix(t, next, 1);
    assert ScanAll(t, next, 1) == [];
    assert FetchNextChunk(t, None, 1) == Rows(t.rows[..1], next);
  }
}
