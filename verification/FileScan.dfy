/**
 File indexing, its decisions (app/services/smb_job_processor.py:306-326, 426-512): for each file of a
 walk, whether it is skipped, only its state row refreshed, or indexed; and what a walk's
 decisions add up to in the state table and in the index.
 */
module FileScan {
  import opened Wrappers
  import opened Text
  import opened SearchIndex

  type Bytes = seq<bv8>

  const MICROS_PER_SECOND := 1_000_000

  /** A row of file_index_states. Times are microseconds UTC. */
  datatype FileState = FileState(hash: string, size: nat, mtime: Option<int>, docId: Option<string>)

  /** What the walk yields for a file. */
  datatype FileEntry = FileEntry(relPath: string, fullPath: string, size: nat, mtime: Option<int>)

  /**
   A source and its files: `read` fails with None, `extract` (of a file name and content, giving
   text and extension) likewise. `maxSize` 0 means no limit; `strict` says that the database of
   the state table enforces the width of its columns, as PostgreSQL does.
   */
  datatype Source = Source(
    connType: string, name: string, maxSize: nat, strict: bool, read: string -> Option<Bytes>, hash: Bytes -> string,
    extract: (string, Bytes) -> Option<(string, string)>, model: Model)

  type States = map<string, FileState>

  /**
   What a row to be written carries for the NOT NULL column indexed_at. A file whose hash is
   unchanged asks its loaded state for it, which was loaded without (lines 91-98 and 472).
   */
  datatype Stamp = Now | Missing

  /** A row waiting to be written. */
  datatype StateRow = StateRow(path: string, state: FileState, indexedAt: Stamp)

  const PATH_WIDTH := 600
  const HASH_WIDTH := 64
  const DOC_ID_WIDTH := 64

  /** The widths of file_index_states (app/core/database.py:230-238). */
  predicate FitsColumns(r: StateRow) {
    && |r.path| <= PATH_WIDTH && |r.state.hash| <= HASH_WIDTH
    && (r.state.docId.Some? ==> |r.state.docId.value| <= DOC_ID_WIDTH)
  }

  predicate Storable(strict: bool, r: StateRow) {
    r.indexedAt.Now? && (strict ==> FitsColumns(r))
  }

  /** What is done about a file. */
  datatype Verdict =
    | MetaSame
    | Oversized
    | ReadFails
    | HashSame(state: FileState)
    | Blank
    | ExtractFails
    | Changed(item: Item, state: FileState)

  function StateOf(states: States, path: string): Option<FileState> {
    if path in states then Some(states[path]) else None
  }

  /** _is_meta_unchanged: same size and modification times less than a second apart. */
  predicate MetaUnchanged(state: Option<FileState>, e: FileEntry) {
    && state.Some? && state.value.size == e.size && state.value.mtime.Some? && e.mtime.Some?
    && var apart := state.value.mtime.value - e.mtime.value;
       (if apart < 0 then -apart else apart) < MICROS_PER_SECOND
  }

  /** Size or time tell the file from its row: no row, another size, a time missing, or times a second or more apart. */
  predicate Differs(state: Option<FileState>, e: FileEntry) {
    || state.None? || state.value.size != e.size || state.value.mtime.None? || e.mtime.None?
    || state.value.mtime.value - e.mtime.value >= 1_000_000 || e.mtime.value - state.value.mtime.value >= 1_000_000
  }

  function AfterLast(s: string, c: char): string {
    if s == [] || s[|s| - 1] == c then []
    else AfterLast(s[..|s| - 1], c) + [s[|s| - 1]]
  }

  function FileName(path: string): string {
    AfterLast(AfterLast(path, '\\'), '/')
  }

  function DocIdOf(src: Source, path: string): string {
    src.connType + ":" + src.name + ":" + path
  }

  function ItemOf(src: Source, path: string, content: Bytes, extracted: (string, string)): Item {
    Item(FileName(path), extracted.0, extracted.1, Some(DocIdOf(src, path)), src.connType + ":" + src.name,
         src.hash(content))
  }

  /** The chain of tests on one file, in the source's order; only white space is what `not text.strip()` finds. */
  function Classify(src: Source, state: Option<FileState>, e: FileEntry): Verdict {
    if MetaUnchanged(state, e) then MetaSame
    else if src.maxSize > 0 && e.size > src.maxSize then Oversized
    else
      match src.read(e.fullPath)
      case None => ReadFails
      case Some(content) =>
        if state.Some? && state.value.hash == src.hash(content) then
          HashSame(FileState(src.hash(content), |content|, e.mtime, state.value.docId))
        else
          match src.extract(FileName(e.relPath), content)
          case None => ExtractFails
          case Some(extracted) =>
            if AllSpace(extracted.0) then Blank
            else
              Changed(ItemOf(src, e.relPath, content, extracted),
                      FileState(src.hash(content), |content|, e.mtime, Some(DocIdOf(src, e.relPath))))
  }

  // ------------------------------------------------------------------
  // A whole walk
  // ------------------------------------------------------------------

  /** The row of a file after a verdict on it. */
  function StateAfter(state: Option<FileState>, v: Verdict): Option<FileState> {
    match v
    case HashSame(s) => Some(s)
    case Changed(_, s) => Some(s)
    case _ => state
  }

  function VerdictOf(src: Source, states: States, e: FileEntry): Verdict {
    Classify(src, StateOf(states, e.relPath), e)
  }

  /**
   A file passes for unchanged exactly if its row has its size and both times are there and less
   than a second apart, whichever is the later.
   */
  lemma MetaSameIff(src: Source, states: States, e: FileEntry)
    ensures VerdictOf(src, states, e).MetaSame? <==>
              && e.relPath in states && states[e.relPath].size == e.size
              && states[e.relPath].mtime.Some? && e.mtime.Some?
              && -1_000_000 < states[e.relPath].mtime.value - e.mtime.value < 1_000_000
  {
    hide ItemOf, FileName, DocIdOf, AllSpace;
  }

  /** The rows a walk wants to write. */
  function RowsOf(src: Source, states: States, es: seq<FileEntry>): seq<StateRow> {
    if es == [] then []
    else
      var n := |es| - 1;
      var before := RowsOf(src, states, es[..n]);
      match VerdictOf(src, states, es[n])
      case HashSame(s) => before + [StateRow(es[n].relPath, s, Missing)]
      case Changed(_, s) => before + [StateRow(es[n].relPath, s, Now)]
      case _ => before
  }

  /** The table after writing rows into it one after the other. */
  function Upserted(states: States, rows: seq<StateRow>): States {
    if rows == [] then states
    else
      var n := |rows| - 1;
      Upserted(states, rows[..n])[rows[n].path := rows[n].state]
  }

  /** The table with all rows of a walk written, decided from the rows before it. */
  function FinalStates(src: Source, states: States, es: seq<FileEntry>): States {
    Upserted(states, RowsOf(src, states, es))
  }

  /** What the walk sends to the index. */
  function ItemsToIndex(src: Source, states: States, es: seq<FileEntry>): seq<Item> {
    if es == [] then []
    else
      var n := |es| - 1;
      var before := ItemsToIndex(src, states, es[..n]);
      match VerdictOf(src, states, es[n])
      case Changed(item, _) => before + [item]
      case _ => before
  }

  /** The document that a walk sends for a file. */
  function FileDoc(src: Source, states: States, e: FileEntry): Option<Doc> {
    match VerdictOf(src, states, e)
    case Changed(item, _) => DocOf(item, src.model)
    case _ => None
  }

  /** The index after the documents of a walk have been sent and those with `taken` accepted. */
  function PutTaken(src: Source, states: States, store: Store, es: seq<FileEntry>, taken: seq<bool>): Store
    requires |taken| == |es|
  {
    if es == [] then store
    else
      var n := |es| - 1;
      var before := PutTaken(src, states, store, es[..n], taken[..n]);
      match VerdictOf(src, states, es[n])
      case Changed(item, _) => if taken[n] then PutItem(before, item, src.model) else before
      case _ => before
  }

  /** The row that a walk wants to write for the file, if it wants one, can be written. */
  predicate Recordable(src: Source, states: States, e: FileEntry) {
    match VerdictOf(src, states, e)
    case HashSame(_) => false
    case Changed(_, s) => Storable(src.strict, StateRow(e.relPath, s, Now))
    case _ => true
  }

  ghost predicate AllRecordable(src: Source, states: States, es: seq<FileEntry>) {
    forall i :: 0 <= i < |es| ==> Recordable(src, states, es[i])
  }

  lemma UpsertedSnoc(states: States, rows: seq<StateRow>, r: StateRow)
    ensures Upserted(states, rows + [r]) == Upserted(states, rows)[r.path := r.state]
  {
    assert (rows + [r])[..|rows|] == rows;
  }

  lemma NothingUpserted(states: States)
    ensures Upserted(states, []) == states
  {
  }

  lemma {:induction false} UpsertedConcat(states: States, a: seq<StateRow>, b: seq<StateRow>)
    ensures Upserted(states, a + b) == Upserted(Upserted(states, a), b)
  {
    if b == [] {
      assert a + b == a;
    } else {
      var n := |b| - 1;
      assert (a + b)[..|a| + n] == a + b[..n] && (a + b)[|a| + n] == b[n];
      UpsertedConcat(states, a, b[..n]);
    }
  }

  lemma {:induction false} RowsOfConcat(src: Source, states: States, a: seq<FileEntry>, b: seq<FileEntry>)
    ensures RowsOf(src, states, a + b) == RowsOf(src, states, a) + RowsOf(src, states, b)
  {
    hide VerdictOf;
    if b == [] {
      assert a + b == a;
    } else {
      var n := |b| - 1;
      assert (a + b)[..|a| + n] == a + b[..n] && (a + b)[|a| + n] == b[n];
      RowsOfConcat(src, states, a, b[..n]);
    }
  }

  lemma {:induction false} TakenConcat(
    src: Source, states: States, store: Store, a: seq<FileEntry>, t: seq<bool>, b: seq<FileEntry>, u: seq<bool>)
    requires |t| == |a| && |u| == |b|
    ensures PutTaken(src, states, store, a + b, t + u)
         == PutTaken(src, states, PutTaken(src, states, store, a, t), b, u)
  {
    hide VerdictOf, PutItem;
    if b == [] {
      assert a + b == a && t + u == t;
    } else {
      var n := |b| - 1;
      assert (a + b)[..|a| + n] == a + b[..n] && (a + b)[|a| + n] == b[n];
      assert (t + u)[..|a| + n] == t + u[..n] && (t + u)[|a| + n] == u[n];
      TakenConcat(src, states, store, a, t, b[..n], u[..n]);
    }
  }

  function AllTaken(n: nat): seq<bool> {
    seq(n, i => true)
  }

  /** With every document accepted the index is that of the items indexed one after the other. */
  lemma {:induction false} AllTakenIsPutAll(src: Source, states: States, store: Store, es: seq<FileEntry>)
    ensures PutTaken(src, states, store, es, AllTaken(|es|)) == PutAll(store, ItemsToIndex(src, states, es), src.model)
  {
    hide VerdictOf, PutItem;
    if es != [] {
      var n := |es| - 1;
      assert AllTaken(|es|)[..n] == AllTaken(n);
      AllTakenIsPutAll(src, states, store, es[..n]);
      if VerdictOf(src, states, es[n]).Changed? {
        var items := ItemsToIndex(src, states, es[..n]);
        assert (items + [VerdictOf(src, states, es[n]).item])[..|items|] == items;
      }
    }
  }

  /** Which documents of a walk the engine accepts in one bulk indexing. */
  function TakenOf(src: Source, states: States, es: seq<FileEntry>, h: Health): (taken: seq<bool>)
    ensures |taken| == |es|
  {
    if es == [] then []
    else
      var n := |es| - 1;
      TakenOf(src, states, es[..n], h)
      + [FileDoc(src, states, es[n]).Some? && Written(h, |Prepared(ItemsToIndex(src, states, es[..n]), src.model)|)]
  }

  lemma {:induction false} TakenIsApply(src: Source, states: States, store: Store, es: seq<FileEntry>, h: Health)
    ensures var actions := Prepared(ItemsToIndex(src, states, es), src.model);
            Apply(store, actions, h, |actions|) == PutTaken(src, states, store, es, TakenOf(src, states, es, h))
  {
    hide Written, DocOf, Classify, Put, Prepared, Apply;
    if es == [] {
      NothingApplied(store, src.model, h);
    } else {
      var n := |es| - 1;
      TakenIsApply(src, states, store, es[..n], h);
      var items, taken := ItemsToIndex(src, states, es[..n]), TakenOf(src, states, es[..n], h);
      assert TakenOf(src, states, es, h)[..n] == taken;
      if VerdictOf(src, states, es[n]).Changed? {
        OneMoreApplied(store, items, VerdictOf(src, states, es[n]).item, src.model, h);
      }
    }
  }

  ghost predicate DistinctPaths(es: seq<FileEntry>) {
    forall i, j :: 0 <= i < j < |es| ==> es[i].relPath != es[j].relPath
  }

  lemma FinalStatesLast(src: Source, states: States, es: seq<FileEntry>)
    requires es != []
    ensures var n := |es| - 1;
            var before := FinalStates(src, states, es[..n]);
            FinalStates(src, states, es)
            == match VerdictOf(src, states, es[n])
               case HashSame(s) => before[es[n].relPath := s]
               case Changed(_, s) => before[es[n].relPath := s]
               case _ => before
  {
    hide VerdictOf;
    var n := |es| - 1;
    var rows := RowsOf(src, states, es[..n]);
    match VerdictOf(src, states, es[n])
    case HashSame(s) => UpsertedSnoc(states, rows, StateRow(es[n].relPath, s, Missing));
    case Changed(_, s) => UpsertedSnoc(states, rows, StateRow(es[n].relPath, s, Now));
    case _ =>
  }

  lemma NoFinalStates(src: Source, states: States)
    ensures FinalStates(src, states, []) == states
  {
  }

  /** Written or not, a walk never takes a row away. */
  lemma {:induction false} RowsStay(states: States, rows: seq<StateRow>)
    ensures states.Keys <= Upserted(states, rows).Keys
  {
    if rows != [] {
      RowsStay(states, rows[..|rows| - 1]);
    }
  }

  lemma {:induction false} FinalStateOf(src: Source, states: States, es: seq<FileEntry>, path: string)
    requires DistinctPaths(es)
    ensures (forall i :: 0 <= i < |es| ==> es[i].relPath != path) ==>
              StateOf(FinalStates(src, states, es), path) == StateOf(states, path)
    ensures forall i :: 0 <= i < |es| && es[i].relPath == path ==>
              StateOf(FinalStates(src, states, es), path) == StateAfter(StateOf(states, path), VerdictOf(src, states, es[i]))
  {
    hide Classify, FinalStates;
    if es == [] {
      NoFinalStates(src, states);
    } else {
      FinalStatesLast(src, states, es);
      var n := |es| - 1;
      FinalStateOf(src, states, es[..n], path);
      forall i | 0 <= i < n ensures es[..n][i] == es[i] {
      }
    }
  }

  // ------------------------------------------------------------------
  // A second walk
  // ------------------------------------------------------------------

  /** A file already dealt with is not indexed again, and its row does not change again. */
  lemma ClassifyAgain(src: Source, state: Option<FileState>, e: FileEntry)
    ensures var after := StateAfter(state, Classify(src, state, e));
            var v := Classify(src, after, e);
            !v.Changed? && (v.HashSame? ==> after == Some(v.state))
  {
    hide MetaUnchanged, FileName, ItemOf, DocIdOf;
    var v := Classify(src, state, e);
    if v.HashSame? || v.Changed? {
      assert StateAfter(state, v).value.hash == src.hash(src.read(e.fullPath).value);
    }
  }

  /**
   A second walk over unchanged files, after one that got the rows of the first k files into the
   table, sends exactly what the first one had to send for the files from k on.
   */
  lemma {:induction false} SecondWalkResends(src: Source, states: States, es: seq<FileEntry>, k: nat, n: nat)
    requires DistinctPaths(es) && k <= n <= |es|
    ensures ItemsToIndex(src, FinalStates(src, states, es[..k]), es[..n]) == ItemsToIndex(src, states, es[k..n])
    decreases n
  {
    hide VerdictOf, FinalStates, DistinctPaths;
    if n > k {
      SecondWalkResends(src, states, es, k, n - 1);
      assert es[..n][..n - 1] == es[..n - 1] && es[k..n][..n - 1 - k] == es[k..n - 1];
      LaterVerdict(src, states, es, k, n - 1);
    } else {
      SettledSendNothing(src, states, es, k, k);
      assert es[k..k] == [];
    }
  }

  lemma LaterVerdict(src: Source, states: States, es: seq<FileEntry>, k: nat, i: nat)
    requires DistinctPaths(es) && k <= i < |es|
    ensures VerdictOf(src, FinalStates(src, states, es[..k]), es[i]) == VerdictOf(src, states, es[i])
  {
    FinalStateOf(src, states, es[..k], es[i].relPath);
  }

  lemma SettledVerdict(src: Source, states: States, es: seq<FileEntry>, k: nat, i: nat)
    requires DistinctPaths(es) && i < k <= |es|
    ensures !VerdictOf(src, FinalStates(src, states, es[..k]), es[i]).Changed?
  {
    hide Classify, FinalStates;
    assert es[..k][i] == es[i];
    FinalStateOf(src, states, es[..k], es[i].relPath);
    ClassifyAgain(src, StateOf(states, es[i].relPath), es[i]);
  }

  lemma {:induction false} SettledSendNothing(src: Source, states: States, es: seq<FileEntry>, k: nat, n: nat)
    requires DistinctPaths(es) && n <= k <= |es|
    ensures ItemsToIndex(src, FinalStates(src, states, es[..k]), es[..n]) == []
    decreases n
  {
    hide VerdictOf, FinalStates;
    if n > 0 {
      SettledSendNothing(src, states, es, k, n - 1);
      assert es[..n][..n - 1] == es[..n - 1];
      SettledVerdict(src, states, es, k, n - 1);
    }
  }

  /** After a walk that got all its rows written, a second one sends nothing. */
  lemma SecondWalkWritesNothing(src: Source, states: States, es: seq<FileEntry>)
    requires DistinctPaths(es)
    ensures ItemsToIndex(src, FinalStates(src, states, es), es) == []
  {
    assert es[..|es|] == es;
    SettledSendNothing(src, states, es, |es|, |es|);
  }
}
