/**
 Rows without a cursor value (app/services/db_engine_cache.py:107-117, 194-199,
 app/services/db_job_processor.py:283-374). A chunk that ends in NULL, or in an empty text, stores
 no new cursor, and the next query asks for the same rows again.
 */
module DbStall {
  import opened Wrappers
  import opened CursorCodec
  import opened JobProgress
  import opened DbScan
  import opened DbJob

  predicate Readable(t: Table, rows: seq<Row>) {
    forall i :: 0 <= i < |rows| && rows[i].cursor.Some? ==> Fits(t.cursorType, rows[i].cursor.value)
  }

  predicate EndsWithoutCursor(rows: seq<Row>)
    requires rows != []
  {
    var r := rows[|rows| - 1];
    r.cursor.None? || r.cursor.value == Label("")
  }

  lemma {:induction false} BeyondHigher(t: Table, rows: seq<Row>, low: int, high: int)
    requires low <= high
    ensures |Beyond(t, rows, high)| <= |Beyond(t, rows, low)| <= |rows|
    ensures forall r :: r in rows && Past(t, r, low) && !Past(t, r, high) ==>
              |Beyond(t, rows, high)| < |Beyond(t, rows, low)|
    ensures forall r :: r in rows && !Past(t, r, high) ==> |Beyond(t, rows, high)| < |rows|
  {
    if rows != [] {
      BeyondHigher(t, rows[1..], low, high);
      assert forall r :: r in rows ==> r == rows[0] || r in rows[1..];
    }
  }

  lemma {:induction false} BeyondArePast(t: Table, rows: seq<Row>, bound: int)
    ensures forall r :: r in Beyond(t, rows, bound) ==> r in rows && Past(t, r, bound)
  {
    if rows != [] {
      BeyondArePast(t, rows[1..], bound);
    }
  }

  lemma PendingAreRows(t: Table, c: Option<string>)
    ensures forall r :: r in Pending(t, c) ==> r in t.rows
    ensures forall v :: Coerce(t.cursorType, c) == Value(v) ==> forall r :: r in Pending(t, c) ==> Past(t, r, t.rank(v))
  {
    hide Coerce;
    match Coerce(t.cursorType, c)
    case Value(v) => BeyondArePast(t, t.rows, t.rank(v));
    case _ =>
  }

  /** A pending row's own cursor leaves fewer rows pending. */
  lemma CursorAdvances(t: Table, c: Option<string>, r: Row)
    requires r in Pending(t, c) && StorableRow(t, r)
    ensures |Pending(t, Some(CursorText(r)))| < |Pending(t, c)|
  {
    hide Coerce, CursorText, Fits;
    PendingAfter(t, r);
    PendingAreRows(t, c);
    match Coerce(t.cursorType, c)
    case Absent => BeyondHigher(t, t.rows, RankOf(t, r), RankOf(t, r));
    case Value(v) => BeyondHigher(t, t.rows, t.rank(v), RankOf(t, r));
    case BadValue =>
  }

  lemma NoCursorText(t: Table, r: Row)
    requires r.cursor.Some? ==> Fits(t.cursorType, r.cursor.value)
    ensures CursorText(r) == "" <==> r.cursor.None? || r.cursor.value == Label("")
  {
    hide IntText, IsoFormat, Coerce;
    if StorableRow(t, r) {
      RowRoundTrip(t, r);
      EmptyIsAbsent(t.cursorType);
    }
  }

  lemma EmptyIsAbsent(kind: CursorType)
    ensures Coerce(kind, Some("")) == Absent
  {
  }

  /**
   Any table, sorted or not, with or without NULLs: a round that returned rows leaves fewer rows
   pending if its last row has a cursor value, and asks for the same rows again if it has none.
   */
  lemma RoundAdvancesIff(t: Table, c: Option<string>, chunk: nat)
    requires Readable(t, t.rows) && FetchNextChunk(t, c, chunk).Rows? && FetchNextChunk(t, c, chunk).rows != []
    ensures var next := NextCursor(t, c, chunk);
            && (|Pending(t, next)| < |Pending(t, c)| <==> !EndsWithoutCursor(FetchNextChunk(t, c, chunk).rows))
            && (next == c <==> EndsWithoutCursor(FetchNextChunk(t, c, chunk).rows))
  {
    hide Coerce, Pending, CursorText, Fits;
    FetchIsPrefix(t, c, chunk);
    var rows := FetchNextChunk(t, c, chunk).rows;
    var r := rows[|rows| - 1];
    assert r in Pending(t, c);
    PendingAreRows(t, c);
    NoCursorText(t, r);
    if !EndsWithoutCursor(rows) {
      CursorAdvances(t, c, r);
    }
  }

  function Repeated(rows: seq<Row>, n: nat): seq<Row> {
    if n == 0 then [] else rows + Repeated(rows, n - 1)
  }

  /** A full chunk that ends without a cursor is sent again and again, up to the cap. */
  lemma {:induction false} StalledJobRepeats(t: Table, c: Option<string>, chunk: nat, total: nat) returns (n: nat)
    requires Readable(t, t.rows) && FetchNextChunk(t, c, chunk).Rows? && |FetchNextChunk(t, c, chunk).rows| == chunk > 0
    requires EndsWithoutCursor(FetchNextChunk(t, c, chunk).rows)
    ensures RowsSent(t, c, chunk, total) == Repeated(FetchNextChunk(t, c, chunk).rows, n)
    ensures total + |RowsSent(t, c, chunk, total)| >= HARD_MAX_ROWS
    decreases HARD_MAX_ROWS - total
  {
    n := 0;
    if total < HARD_MAX_ROWS {
      RoundAdvancesIff(t, c, chunk);
      hide FetchNextChunk, NextCursor, Readable, EndsWithoutCursor;
      n := StalledJobRepeats(t, c, chunk, total + chunk);
      n := n + 1;
    }
  }

  /**
   Rows without a cursor value, asked for in chunks of the source's size, 500 if it has none: they are all
   sent once if they do not fill a chunk, and else the job sends the first chunk over and over, a
   million rows and more.
   */
  lemma NullRowsStallIff(t: Table, source: DbSource)
    requires t.rows != [] && forall i :: 0 <= i < |t.rows| ==> t.rows[i].cursor.None?
    ensures var sent := RowsSent(t, None, ChunkSize(source), 0);
            if (if source.chunkSize == 0 then 500 else source.chunkSize) <= |t.rows| then |sent| >= 1_000_000
            else sent == t.rows
  {
    var chunk := ChunkSize(source);
    FetchIsPrefix(t, None, chunk);
    hide FetchNextChunk;
    if chunk <= |t.rows| {
      var n := StalledJobRepeats(t, None, chunk, 0);
    }
  }
}
