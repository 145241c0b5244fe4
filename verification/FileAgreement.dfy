/**
 State rows and index agree (app/services/smb_job_processor.py:415-560): what a walk leaves in the
 state table is true of what it leaves in the index.
 */
module FileAgreement {
  import opened Wrappers
  import opened Text
  import opened Sanitizer
  import opened SearchIndex
  import opened FileScan
  import IndexedText

  /** The document of a file with this content; None when it has no text that can be indexed. */
  function DocFor(src: Source, path: string, content: Bytes): Option<Doc> {
    match src.extract(FileName(path), content)
    case None => None
    case Some(extracted) => DocOf(ItemOf(src, path, content, extracted), src.model)
  }

  ghost predicate Injective(src: Source) {
    forall a, b :: src.hash(a) == src.hash(b) ==> a == b
  }

  /** Whatever content a row's hash stands for, its document is the one in the index. */
  ghost predicate Agree(src: Source, states: States, store: Store) {
    forall path, content ::
      path in states && src.hash(content) == states[path].hash && DocFor(src, path, content).Some? ==>
        Lookup(store, Named(DocIdOf(src, path))) == DocFor(src, path, content)
  }

  lemma IdsDiffer(src: Source, p: string, q: string)
    requires p != q
    ensures DocIdOf(src, p) != DocIdOf(src, q)
  {
    var head := src.connType + ":" + src.name + ":";
    assert DocIdOf(src, p)[|head|..] == p && DocIdOf(src, q)[|head|..] == q;
  }

  lemma ChangedHasContent(src: Source, state: Option<FileState>, e: FileEntry) returns (content: Bytes, x: (string, string))
    requires Classify(src, state, e).Changed?
    ensures src.read(e.fullPath) == Some(content) && src.extract(FileName(e.relPath), content) == Some(x)
    ensures Classify(src, state, e).item == ItemOf(src, e.relPath, content, x)
    ensures Classify(src, state, e).state.hash == src.hash(content)
    ensures state.Some? ==> state.value.hash != src.hash(content)
  {
    hide FileName, DocIdOf, ItemOf, MetaUnchanged;
    content := src.read(e.fullPath).value;
    x := src.extract(FileName(e.relPath), content).value;
  }

  lemma HashSameKeepsHash(src: Source, state: Option<FileState>, e: FileEntry)
    requires Classify(src, state, e).HashSame?
    ensures state.Some? && Classify(src, state, e).state.hash == state.value.hash
  {
    hide FileName, DocIdOf, ItemOf, MetaUnchanged;
  }

  /** What a walk sends for a file is the document of the file's content, and its row gets that content's hash. */
  lemma SentIsCurrent(src: Source, states: States, e: FileEntry) returns (content: Bytes)
    requires VerdictOf(src, states, e).Changed?
    ensures src.read(e.fullPath) == Some(content)
    ensures FileDoc(src, states, e) == DocFor(src, e.relPath, content)
    ensures VerdictOf(src, states, e).state.hash == src.hash(content)
    ensures e.relPath in states ==> states[e.relPath].hash != src.hash(content)
  {
    hide Classify, DocOf;
    var c, x := ChangedHasContent(src, StateOf(states, e.relPath), e);
    content := c;
  }

  // ------------------------------------------------------------------
  // What the index holds after a walk
  // ------------------------------------------------------------------

  function KeyFor(src: Source, path: string): DocKey {
    Named(DocIdOf(src, path))
  }

  lemma PutChanged(src: Source, states: States, store: Store, e: FileEntry, path: string)
    requires VerdictOf(src, states, e).Changed?
    ensures var after := PutItem(store, VerdictOf(src, states, e).item, src.model);
            Lookup(after, KeyFor(src, path))
            == if path == e.relPath && FileDoc(src, states, e).Some? then FileDoc(src, states, e)
               else Lookup(store, KeyFor(src, path))
  {
    hide DocOf, Classify;
    var content, x := ChangedHasContent(src, StateOf(states, e.relPath), e);
    if path != e.relPath {
      IdsDiffer(src, path, e.relPath);
    }
  }

  /** A file's document is there if it was sent and accepted; every other key is as it was. */
  lemma {:induction false} TakenLookup(
    src: Source, states: States, store: Store, es: seq<FileEntry>, taken: seq<bool>, path: string)
    requires DistinctPaths(es) && |taken| == |es|
    ensures var after := Lookup(PutTaken(src, states, store, es, taken), KeyFor(src, path));
            && ((forall i :: 0 <= i < |es| ==> es[i].relPath != path) ==> after == Lookup(store, KeyFor(src, path)))
            && (forall i :: 0 <= i < |es| && es[i].relPath == path ==>
                  after == if taken[i] && FileDoc(src, states, es[i]).Some? then FileDoc(src, states, es[i])
                           else Lookup(store, KeyFor(src, path)))
  {
    hide Classify, PutItem, DocOf, KeyFor;
    if es != [] {
      var n := |es| - 1;
      TakenLookup(src, states, store, es[..n], taken[..n], path);
      forall i | 0 <= i < n ensures es[..n][i] == es[i] && taken[..n][i] == taken[i] {
      }
      if VerdictOf(src, states, es[n]).Changed? {
        PutChanged(src, states, PutTaken(src, states, store, es[..n], taken[..n]), es[n], path);
      }
    }
  }

  // ------------------------------------------------------------------
  // Exactly when rows and index agree
  // ------------------------------------------------------------------

  /** Every file whose row was written has its document: accepted now, or there before. */
  ghost predicate WrittenRowsHaveDocs(
    src: Source, states: States, store: Store, es: seq<FileEntry>, saved: nat, taken: seq<bool>)
    requires saved <= |es|
  {
    forall i :: 0 <= i < saved && FileDoc(src, states, es[i]).Some? ==>
      (i < |taken| && taken[i]) || Lookup(store, KeyFor(src, es[i].relPath)) == FileDoc(src, states, es[i])
  }

  /** No document went in over one that a row not yet rewritten stands for. */
  ghost predicate UnwrittenRowsStand(src: Source, states: States, es: seq<FileEntry>, saved: nat, taken: seq<bool>)
    requires |taken| <= |es|
  {
    forall i, content ::
      saved <= i < |taken| && taken[i] && FileDoc(src, states, es[i]).Some? && es[i].relPath in states
      && src.hash(content) == states[es[i].relPath].hash && DocFor(src, es[i].relPath, content).Some? ==>
        DocFor(src, es[i].relPath, content) == FileDoc(src, states, es[i])
  }

  ghost predicate AgreeAt(src: Source, states: States, store: Store, path: string) {
    forall content ::
      path in states && src.hash(content) == states[path].hash && DocFor(src, path, content).Some? ==>
        Lookup(store, KeyFor(src, path)) == DocFor(src, path, content)
  }

  lemma AgreeIsEverywhere(src: Source, states: States, store: Store)
    ensures Agree(src, states, store) <==> forall path :: AgreeAt(src, states, store, path)
  {
    if Agree(src, states, store) {
      forall path ensures AgreeAt(src, states, store, path) {
      }
    } else {
      var path, content :| path in states && src.hash(content) == states[path].hash && DocFor(src, path, content).Some?
                           && Lookup(store, Named(DocIdOf(src, path))) != DocFor(src, path, content);
      assert !AgreeAt(src, states, store, path);
    }
  }

  /** What happens to one path that agreed before. */
  lemma AgreeAtAfter(
    src: Source, states: States, store: Store, es: seq<FileEntry>, saved: nat, taken: seq<bool>, i: nat)
    requires saved <= |es| && |taken| <= |es| && i < |es|
    requires AgreeAt(src, states, store, es[i].relPath) && Injective(src) && DistinctPaths(es)
    ensures var path, doc := es[i].relPath, FileDoc(src, states, es[i]);
            AgreeAt(src, FinalStates(src, states, es[..saved]), PutTaken(src, states, store, es[..|taken|], taken), path)
            <==>
            && (i < saved && doc.Some? ==> (i < |taken| && taken[i]) || Lookup(store, KeyFor(src, path)) == doc)
            && (saved <= i < |taken| && taken[i] && doc.Some? && path in states ==>
                  forall content :: src.hash(content) == states[path].hash && DocFor(src, path, content).Some? ==>
                    DocFor(src, path, content) == doc)
  {
    hide Classify, FinalStates, PutTaken, KeyFor, DocFor;
    var path := es[i].relPath;
    PrefixDistinct(es, saved);
    PrefixDistinct(es, |taken|);
    PlaceOf(es, saved, i);
    PlaceOf(es, |taken|, i);
    FinalStateOf(src, states, es[..saved], path);
    TakenLookup(src, states, store, es[..|taken|], taken, path);
    var v := VerdictOf(src, states, es[i]);
    if v.Changed? {
      var content := SentIsCurrent(src, states, es[i]);
      if i < saved {
        if FileDoc(src, states, es[i]).Some? {
          assert DocFor(src, path, content).Some?;
        }
      }
    } else if v.HashSame? {
      HashSameKeepsHash(src, StateOf(states, path), es[i]);
    }
  }

  lemma PrefixDistinct(es: seq<FileEntry>, n: nat)
    requires DistinctPaths(es) && n <= |es|
    ensures DistinctPaths(es[..n])
  {
  }

  lemma PlaceOf(es: seq<FileEntry>, n: nat, i: nat)
    requires DistinctPaths(es) && n <= |es| && i < |es|
    ensures i < n ==> es[..n][i] == es[i]
    ensures i >= n ==> forall j :: 0 <= j < n ==> es[..n][j].relPath != es[i].relPath
  {
  }

  /**
   The rows of the first `saved` files are in the table, the documents of the first |taken| have
   been sent and some accepted. Rows and index then agree if and only if every written row has
   its document and no unwritten one had it replaced.
   */
  lemma AgreesIff(src: Source, states: States, store: Store, es: seq<FileEntry>, saved: nat, taken: seq<bool>)
    requires Agree(src, states, store) && Injective(src) && DistinctPaths(es) && saved <= |es| && |taken| <= |es|
    ensures Agree(src, FinalStates(src, states, es[..saved]), PutTaken(src, states, store, es[..|taken|], taken))
            <==>
            && WrittenRowsHaveDocs(src, states, store, es, saved, taken)
            && UnwrittenRowsStand(src, states, es, saved, taken)
  {
    hide AgreeAt, Agree, FinalStates, PutTaken, FileDoc, DocFor, Injective;
    var states', store' := FinalStates(src, states, es[..saved]), PutTaken(src, states, store, es[..|taken|], taken);
    AgreeIsEverywhere(src, states, store);
    AgreeIsEverywhere(src, states', store');
    forall i: nat | i < |es| {
      AgreeAtAfter(src, states, store, es, saved, taken, i);
    }
    forall path | forall i :: 0 <= i < |es| ==> es[i].relPath != path ensures AgreeAt(src, states', store', path) {
      ElsewhereAgrees(src, states, store, es, saved, taken, path);
    }
    if WrittenRowsHaveDocs(src, states, store, es, saved, taken) && UnwrittenRowsStand(src, states, es, saved, taken) {
      forall path ensures AgreeAt(src, states', store', path) {
        if i: nat :| i < |es| && es[i].relPath == path {
        }
      }
    }
  }

  lemma ElsewhereAgrees(
    src: Source, states: States, store: Store, es: seq<FileEntry>, saved: nat, taken: seq<bool>, path: string)
    requires AgreeAt(src, states, store, path) && DistinctPaths(es) && saved <= |es| && |taken| <= |es|
    requires forall i :: 0 <= i < |es| ==> es[i].relPath != path
    ensures AgreeAt(src, FinalStates(src, states, es[..saved]), PutTaken(src, states, store, es[..|taken|], taken), path)
  {
    hide FinalStates, PutTaken, DocFor, KeyFor;
    PrefixDistinct(es, saved);
    PrefixDistinct(es, |taken|);
    FinalStateOf(src, states, es[..saved], path);
    TakenLookup(src, states, store, es[..|taken|], taken, path);
  }

  /** A walk whose rows are all written and documents all accepted keeps the agreement, whatever the files are. */
  lemma WalkKeepsAgreement(src: Source, states: States, store: Store, es: seq<FileEntry>)
    requires Agree(src, states, store) && Injective(src) && DistinctPaths(es)
    ensures Agree(src, FinalStates(src, states, es), PutAll(store, ItemsToIndex(src, states, es), src.model))
  {
    hide Agree, FinalStates, PutTaken, FileDoc, DocFor, Injective, PutAll;
    assert es[..|es|] == es;
    AgreesIff(src, states, store, es, |es|, AllTaken(|es|));
    AllTakenIsPutAll(src, states, store, es);
  }

  /**
   A job that stops after the documents of the first `flushed` files and the rows of the first
   `saved`, saved <= flushed: rows and index agree if and only if none of the files between had
   a row that stands for another document. Those files are sent again by the next job.
   */
  lemma StoppedJobAgreesIff(src: Source, states: States, store: Store, es: seq<FileEntry>, saved: nat, flushed: nat)
    requires Agree(src, states, store) && Injective(src) && DistinctPaths(es) && saved <= flushed <= |es|
    ensures Agree(src, FinalStates(src, states, es[..saved]),
                  PutAll(store, ItemsToIndex(src, states, es[..flushed]), src.model))
            <==> UnwrittenRowsStand(src, states, es, saved, AllTaken(flushed))
  {
    hide Agree, FinalStates, PutTaken, FileDoc, DocFor, Injective, PutAll;
    AgreesIff(src, states, store, es, saved, AllTaken(flushed));
    AllTakenIsPutAll(src, states, store, es[..flushed]);
    assert WrittenRowsHaveDocs(src, states, store, es, saved, AllTaken(flushed));
  }

  // ------------------------------------------------------------------
  // Documents the engine refuses
  // ------------------------------------------------------------------

  function ActionsOf(src: Source, states: States, es: seq<FileEntry>): seq<Action> {
    Prepared(ItemsToIndex(src, states, es), src.model)
  }

  /** The action of a file that has a document. */
  lemma {:induction false} ActionOfFile(src: Source, states: States, es: seq<FileEntry>, h: Health, i: nat)
    requires i < |es| && FileDoc(src, states, es[i]).Some?
    ensures var n, actions := |ActionsOf(src, states, es[..i])|, ActionsOf(src, states, es);
            && n < |actions| && actions[n] == Action(Some(DocIdOf(src, es[i].relPath)), FileDoc(src, states, es[i]).value)
            && (TakenOf(src, states, es, h)[i] <==> Written(h, n))
  {
    hide Written, DocOf, Classify, Prepared;
    var last := |es| - 1;
    var e := es[last];
    assert es[..last][..i] == es[..i];
    if VerdictOf(src, states, e).Changed? {
      ActionSnoc(ItemsToIndex(src, states, es[..last]), VerdictOf(src, states, e).item, src.model);
      var content, x := ChangedHasContent(src, StateOf(states, e.relPath), e);
    }
    if i < last {
      assert es[..last][i] == es[i];
      ActionOfFile(src, states, es[..last], h, i);
    }
  }

  lemma ActionSnoc(items: seq<Item>, item: Item, model: Model)
    ensures Prepared(items + [item], model)
         == Prepared(items, model)
            + match DocOf(item, model)
              case None => []
              case Some(doc) => [Action(item.docId, doc)]
  {
    hide DocOf;
    assert (items + [item])[..|items|] == items;
  }

  /** Every action is some file's. */
  lemma {:induction false} FileOfAction(src: Source, states: States, es: seq<FileEntry>, n: nat) returns (i: nat)
    requires n < |ActionsOf(src, states, es)|
    ensures i < |es| && FileDoc(src, states, es[i]).Some? && n == |ActionsOf(src, states, es[..i])|
  {
    hide DocOf, Classify, Prepared;
    if es == [] {
      assert false;
    } else {
      var last := |es| - 1;
      if VerdictOf(src, states, es[last]).Changed? {
        ActionSnoc(ItemsToIndex(src, states, es[..last]), VerdictOf(src, states, es[last]).item, src.model);
      }
      if n < |ActionsOf(src, states, es[..last])| {
        i := FileOfAction(src, states, es[..last], n);
        assert es[..last][..i] == es[..i] && es[..last][i] == es[i];
      } else {
        i := last;
      }
    }
  }

  /**
   All rows of a walk are written, and the engine accepts what it accepts: rows and index agree
   if and only if every document it refused stood in the index already.
   */
  lemma RefusalsAgreeIff(src: Source, states: States, store: Store, es: seq<FileEntry>, h: Health)
    requires Agree(src, states, store) && Injective(src) && DistinctPaths(es)
    ensures var actions := ActionsOf(src, states, es);
            Agree(src, FinalStates(src, states, es), Apply(store, actions, h, |actions|))
            <==>
            forall n: nat :: n < |actions| ==>
              Written(h, n) || (actions[n].id.Some? && Lookup(store, Named(actions[n].id.value)) == Some(actions[n].doc))
  {
    hide Agree, FinalStates, PutTaken, FileDoc, DocFor, Injective, Apply, Written, ActionsOf, TakenOf;
    var actions, taken := ActionsOf(src, states, es), TakenOf(src, states, es, h);
    assert es[..|es|] == es;
    AgreesIff(src, states, store, es, |es|, taken);
    ApplyIsTaken(src, states, store, es, h);
    forall i: nat | i < |es| && FileDoc(src, states, es[i]).Some? {
      ActionOfFile(src, states, es, h, i);
    }
    if forall n: nat :: n < |actions| ==>
         Written(h, n) || (actions[n].id.Some? && Lookup(store, Named(actions[n].id.value)) == Some(actions[n].doc)) {
      forall i | 0 <= i < |es| && FileDoc(src, states, es[i]).Some?
        ensures taken[i] || Lookup(store, KeyFor(src, es[i].relPath)) == FileDoc(src, states, es[i])
      {
        var n := |ActionsOf(src, states, es[..i])|;
        assert n < |actions|;
      }
    }
    if WrittenRowsHaveDocs(src, states, store, es, |es|, taken) {
      forall n: nat | n < |actions|
        ensures Written(h, n) || (actions[n].id.Some? && Lookup(store, Named(actions[n].id.value)) == Some(actions[n].doc))
      {
        var i := FileOfAction(src, states, es, n);
        ActionOfFile(src, states, es, h, i);
      }
    }
  }

  lemma ApplyIsTaken(src: Source, states: States, store: Store, es: seq<FileEntry>, h: Health)
    ensures var actions := ActionsOf(src, states, es);
            Apply(store, actions, h, |actions|) == PutTaken(src, states, store, es, TakenOf(src, states, es, h))
  {
    hide Apply, Prepared, TakenOf, PutTaken;
    TakenIsApply(src, states, store, es, h);
  }

  // ------------------------------------------------------------------
  // Every file is dealt with
  // ------------------------------------------------------------------

  predicate InCap(src: Source, e: FileEntry) {
    src.maxSize == 0 || e.size <= src.maxSize
  }

  /** A file whose row still has its size and time still has the content whose hash the row has. */
  predicate FaithfulMeta(src: Source, state: Option<FileState>, e: FileEntry, content: Bytes) {
    Differs(state, e) || state.value.hash == src.hash(content)
  }

  lemma RawBlankHasNoDoc(src: Source, path: string, content: Bytes)
    requires src.extract(FileName(path), content).Some? && AllSpace(src.extract(FileName(path), content).value.0)
    ensures DocFor(src, path, content).None?
  {
    hide SanitizeText, FileName, DocIdOf;
    var x := src.extract(FileName(path), content).value;
    BlankBecomesEmpty(x.0);
    DocIsFull(ItemOf(src, path, content, x), src.model);
  }

  /**
   A readable file in size with indexable text has a current row after the rows of the first
   `saved` files were written exactly when its old row was faithful, or, past those files, when it
   was current already.
   */
  lemma RowIsCurrentIff(src: Source, states: States, es: seq<FileEntry>, saved: nat, i: nat, content: Bytes)
    requires DistinctPaths(es) && saved <= |es| && i < |es| && InCap(src, es[i])
    requires src.read(es[i].fullPath) == Some(content) && DocFor(src, es[i].relPath, content).Some?
    ensures var before, row := StateOf(states, es[i].relPath), StateOf(FinalStates(src, states, es[..saved]), es[i].relPath);
            RowIsFor(row, src.hash(content))
            <==> if i < saved then FaithfulMeta(src, before, es[i], content) else RowIsFor(before, src.hash(content))
  {
    hide FinalStates, Classify, DocFor;
    var e := es[i];
    PrefixDistinct(es, saved);
    PlaceOf(es, saved, i);
    FinalStateOf(src, states, es[..saved], e.relPath);
    VerdictIsCurrentIff(src, StateOf(states, e.relPath), e, content);
  }

  predicate RowIsFor(row: Option<FileState>, hash: string) {
    row.Some? && row.value.hash == hash
  }

  lemma VerdictIsCurrentIff(src: Source, state: Option<FileState>, e: FileEntry, content: Bytes)
    requires InCap(src, e) && src.read(e.fullPath) == Some(content) && DocFor(src, e.relPath, content).Some?
    ensures var row := StateAfter(state, Classify(src, state, e));
            row.Some? && row.value.hash == src.hash(content) <==> FaithfulMeta(src, state, e, content)
  {
    hide FileName, DocIdOf, ItemOf, DocFor;
    DocForExtracts(src, e.relPath, content);
    if AllSpace(src.extract(FileName(e.relPath), content).value.0) {
      RawBlankHasNoDoc(src, e.relPath, content);
    }
  }

  lemma DocForExtracts(src: Source, path: string, content: Bytes)
    requires DocFor(src, path, content).Some?
    ensures src.extract(FileName(path), content).Some?
  {
  }

  /** The file, as it can be read now, has its document in the index. */
  ghost predicate IndexedNow(src: Source, store: Store, e: FileEntry) {
    forall content :: src.read(e.fullPath) == Some(content) && DocFor(src, e.relPath, content).Some? ==>
      Lookup(store, KeyFor(src, e.relPath)) == DocFor(src, e.relPath, content)
  }

  /** If the file's row is for its present content, the file has its document. */
  ghost predicate RowIsTrue(src: Source, states: States, store: Store, e: FileEntry) {
    forall content ::
      src.read(e.fullPath) == Some(content) && DocFor(src, e.relPath, content).Some?
      && RowIsFor(StateOf(states, e.relPath), src.hash(content)) ==>
        Lookup(store, KeyFor(src, e.relPath)) == DocFor(src, e.relPath, content)
  }

  ghost predicate MetaIsFaithful(src: Source, states: States, e: FileEntry) {
    forall content :: src.read(e.fullPath) == Some(content) ==>
      FaithfulMeta(src, StateOf(states, e.relPath), e, content)
  }

  lemma AgreementIsTrue(src: Source, states: States, store: Store, e: FileEntry)
    requires Agree(src, states, store)
    ensures RowIsTrue(src, states, store, e)
  {
    hide DocFor;
  }

  /** What a verdict says about a readable file in size with text. */
  lemma VerdictOnIndexable(src: Source, states: States, e: FileEntry, content: Bytes)
    requires InCap(src, e) && src.read(e.fullPath) == Some(content) && DocFor(src, e.relPath, content).Some?
    requires FaithfulMeta(src, StateOf(states, e.relPath), e, content)
    ensures RowIsFor(StateOf(states, e.relPath), src.hash(content)) || VerdictOf(src, states, e).Changed?
  {
    hide FileName, DocIdOf, ItemOf, DocFor;
    DocForExtracts(src, e.relPath, content);
    if AllSpace(src.extract(FileName(e.relPath), content).value.0) {
      RawBlankHasNoDoc(src, e.relPath, content);
    }
  }

  /** A file whose document a walk was able to send is indexed as it is now. */
  lemma FileIsIndexed(src: Source, states: States, store: Store, es: seq<FileEntry>, taken: seq<bool>, i: nat)
    requires DistinctPaths(es) && |taken| == |es| && i < |es| && taken[i] && InCap(src, es[i])
    requires RowIsTrue(src, states, store, es[i]) && MetaIsFaithful(src, states, es[i])
    ensures IndexedNow(src, PutTaken(src, states, store, es, taken), es[i])
  {
    hide Classify, PutTaken, DocFor, KeyFor, FaithfulMeta;
    var e := es[i];
    TakenLookup(src, states, store, es, taken, e.relPath);
    forall content | src.read(e.fullPath) == Some(content) && DocFor(src, e.relPath, content).Some?
      ensures Lookup(PutTaken(src, states, store, es, taken), KeyFor(src, e.relPath)) == DocFor(src, e.relPath, content)
    {
      VerdictOnIndexable(src, states, e, content);
      if VerdictOf(src, states, e).Changed? {
        var c := SentIsCurrent(src, states, e);
      }
    }
  }

  /**
   From agreeing rows with faithful metadata: when the documents of the first `flushed` files are
   in, every one of these that is readable, in size and has text is indexed as it is now; and
   those whose rows are written too are recorded with their present hash.
   */
  lemma EveryFileIsIndexed(
    src: Source, states: States, store: Store, es: seq<FileEntry>, saved: nat, flushed: nat, i: nat, content: Bytes)
    requires Agree(src, states, store) && DistinctPaths(es) && saved <= flushed <= |es|
    requires i < flushed && InCap(src, es[i]) && src.read(es[i].fullPath) == Some(content)
    requires DocFor(src, es[i].relPath, content).Some?
    requires FaithfulMeta(src, StateOf(states, es[i].relPath), es[i], content)
    ensures Lookup(PutAll(store, ItemsToIndex(src, states, es[..flushed]), src.model), KeyFor(src, es[i].relPath))
         == DocFor(src, es[i].relPath, content)
    ensures i < saved ==> RowIsFor(StateOf(FinalStates(src, states, es[..saved]), es[i].relPath), src.hash(content))
  {
    hide DocFor, FinalStates, ItemsToIndex, FaithfulMeta, PutAll, PutTaken, KeyFor, Agree;
    RowIsCurrentIff(src, states, es, saved, i, content);
    AgreementIsTrue(src, states, store, es[i]);
    PrefixDistinct(es, flushed);
    assert es[..flushed][i] == es[i];
    AllTakenIsPutAll(src, states, store, es[..flushed]);
    FileIsIndexed(src, states, store, es[..flushed], AllTaken(flushed), i);
  }

  /**
   So, whatever the row says: a readable file in size with text whose size or time differs from its
   row is indexed as it is now, and recorded with its present hash once its row is written.
   */
  lemma EditedFileIsIndexed(
    src: Source, states: States, store: Store, es: seq<FileEntry>, saved: nat, flushed: nat, i: nat, content: Bytes)
    requires Agree(src, states, store) && DistinctPaths(es) && saved <= flushed <= |es|
    requires i < flushed && Differs(StateOf(states, es[i].relPath), es[i]) && (src.maxSize == 0 || es[i].size <= src.maxSize)
    requires src.read(es[i].fullPath) == Some(content) && DocFor(src, es[i].relPath, content).Some?
    ensures Lookup(PutAll(store, ItemsToIndex(src, states, es[..flushed]), src.model), KeyFor(src, es[i].relPath))
         == DocFor(src, es[i].relPath, content)
    ensures i < saved ==> RowIsFor(StateOf(FinalStates(src, states, es[..saved]), es[i].relPath), src.hash(content))
  {
    hide DocFor, FinalStates, ItemsToIndex, PutAll, KeyFor, Agree, DistinctPaths;
    assert InCap(src, es[i]) && FaithfulMeta(src, StateOf(states, es[i].relPath), es[i], content);
    EveryFileIsIndexed(src, states, store, es, saved, flushed, i, content);
  }

  predicate IsSeparator(c: char) {
    c == '/' || c == '\\'
  }

  /** What follows the last separator of a path, of either kind. */
  ghost predicate IsNameOf(path: string, name: string) {
    && |name| <= |path| && path[|path| - |name|..] == name && (forall c :: c in name ==> !IsSeparator(c))
    && (|name| < |path| ==> IsSeparator(path[|path| - |name| - 1]))
  }

  lemma {:induction false} AfterLastFacts(s: string, c: char)
    ensures var r := AfterLast(s, c);
            && |r| <= |s| && s[|s| - |r|..] == r && c !in r && (|r| < |s| ==> s[|s| - |r| - 1] == c)
  {
    if s != [] && s[|s| - 1] != c {
      var t := s[..|s| - 1];
      AfterLastFacts(t, c);
      var r := AfterLast(t, c);
      assert s[|t| - |r|..] == t[|t| - |r|..] + [s[|s| - 1]];
    }
  }

  lemma FileNameIs(path: string)
    ensures IsNameOf(path, FileName(path))
  {
    AfterLastFacts(path, '\\');
    AfterLastFacts(AfterLast(path, '\\'), '/');
    hide AfterLast;
    var tail := AfterLast(path, '\\');
    var name := AfterLast(tail, '/');
    assert path[|path| - |name|..] == tail[|tail| - |name|..];
    if |name| < |path| && |name| < |tail| {
      assert path[|path| - |name| - 1] == tail[|tail| - |name| - 1];
    }
    forall c | c in name ensures !IsSeparator(c) {
      var i :| 0 <= i < |name| && name[i] == c;
      assert tail[|tail| - |name| + i] == c;
    }
  }

  /**
   The document of a file, under the id that names source and path: its extracted text, the name
   after the last separator of its path, the extension, the source and the file's digest, sanitised.
   */
  lemma DocumentOfFile(src: Source, path: string, content: Bytes) returns (name: string, text: string, ext: string)
    requires DocFor(src, path, content).Some?
    ensures src.extract(name, content) == Some((text, ext)) && IsNameOf(path, name)
    ensures KeyFor(src, path) == Named(src.connType + ":" + src.name + ":" + path)
    ensures var d := DocFor(src, path, content).value;
            && d.allText == SanitizeText(text) && d.originFile == SanitizeText(name) && d.fileExt == SanitizeText(ext)
            && d.sourceLabel == SanitizeText(src.connType + ":" + src.name)
            && (src.hash(content) != "" ==> d.contentHash == SanitizeText(src.hash(content)))
  {
    FileNameIs(path);
    name := FileName(path);
    var x := src.extract(name, content).value;
    text, ext := x.0, x.1;
    hide SanitizeText, FileName;
    IndexedText.DocumentHoldsItem(ItemOf(src, path, content, x), src.model);
  }

  /** The hash in that document is the file's. */
  lemma DocHasHash(src: Source, path: string, content: Bytes)
    requires DocFor(src, path, content).Some? && src.hash(content) != [] && Clean(src.hash(content))
    ensures DocFor(src, path, content).value.contentHash == src.hash(content)
  {
    FixedPointsAreClean(src.hash(content));
    DocForExtracts(src, path, content);
    HashIsKept(ItemOf(src, path, content, src.extract(FileName(path), content).value), src.model);
  }

  lemma HashIsKept(item: Item, model: Model)
    requires DocOf(item, model).Some? && item.contentHash != []
    ensures DocOf(item, model).value.contentHash == SanitizeText(item.contentHash)
  {
    hide SanitizeText;
    DocIsFull(item, model);
  }

  /**
   If the file's row, where there is one, was made for some content with a document, then the
   file is indexed as it is now after the walk exactly when its metadata was faithful.
   */
  lemma IndexIsCurrentIff(
    src: Source, states: States, store: Store, es: seq<FileEntry>, flushed: nat, i: nat, content: Bytes)
    requires Agree(src, states, store) && DistinctPaths(es) && flushed <= |es|
    requires i < flushed && InCap(src, es[i]) && src.read(es[i].fullPath) == Some(content)
    requires DocFor(src, es[i].relPath, content).Some?
    requires forall c :: src.hash(c) != [] && Clean(src.hash(c))
    requires es[i].relPath in states ==>
               exists c :: src.hash(c) == states[es[i].relPath].hash && DocFor(src, es[i].relPath, c).Some?
    ensures Lookup(PutAll(store, ItemsToIndex(src, states, es[..flushed]), src.model), KeyFor(src, es[i].relPath))
              == DocFor(src, es[i].relPath, content)
            <==> FaithfulMeta(src, StateOf(states, es[i].relPath), es[i], content)
  {
    hide DocFor, ItemsToIndex, FinalStates, PutAll, PutTaken, KeyFor, Clean;
    var e := es[i];
    if FaithfulMeta(src, StateOf(states, e.relPath), e, content) {
      EveryFileIsIndexed(src, states, store, es, 0, flushed, i, content);
    } else {
      var c :| src.hash(c) == states[e.relPath].hash && DocFor(src, e.relPath, c).Some?;
      AgreeIsEverywhere(src, states, store);
      assert AgreeAt(src, states, store, e.relPath);
      DocHasHash(src, e.relPath, c);
      DocHasHash(src, e.relPath, content);
      PrefixDistinct(es, flushed);
      assert es[..flushed][i] == e;
      AllTakenIsPutAll(src, states, store, es[..flushed]);
      TakenLookup(src, states, store, es[..flushed], AllTaken(flushed), e.relPath);
      assert VerdictOf(src, states, e).MetaSame?;
    }
  }

  // ------------------------------------------------------------------
  // One refused document
  // ------------------------------------------------------------------

  const ONE_FILE := FileEntry("a.txt", "/docs/a.txt", 1, None)
  const ONE_CONTENT: Bytes := [97]

  /** A source with one file, of the letter a, on a strict database. */
  function OneFileSource(model: Model, digest: Bytes -> string): Source {
    Source("local", "docs", 0, true, path => if path == ONE_FILE.fullPath then Some(ONE_CONTENT) else None, digest,
           (name: string, b: Bytes) => if b == ONE_CONTENT then Some(("a", "txt")) else None, model)
  }

  lemma PlainTextIsStripped()
    ensures Strip("a") == "a"
  {
    assert !IsSpace("a"[0]);
    assert LStrip("a") == "a";
  }

  lemma PlainTextIsClean()
    ensures Clean("a") && SanitizeText("a") == "a" && Strip("a") == "a"
  {
    hide SanitizeText, Strip;
    PlainTextIsStripped();
    FixedPointsAreClean("a");
  }

  lemma OneFileHasDoc(model: Model, digest: Bytes -> string)
    ensures var src := OneFileSource(model, digest);
            && VerdictOf(src, map[], ONE_FILE).Changed? && DocFor(src, "a.txt", ONE_CONTENT).Some?
            && FileDoc(src, map[], ONE_FILE) == DocFor(src, "a.txt", ONE_CONTENT)
            && (|digest(ONE_CONTENT)| == HASH_WIDTH ==> Recordable(src, map[], ONE_FILE))
  {
    hide SanitizeText, Strip, FileName;
    var src := OneFileSource(model, digest);
    PlainTextIsClean();
    SentenceHasDoc(ItemOf(src, "a.txt", ONE_CONTENT, ("a", "txt")), model);
    assert Classify(src, None, ONE_FILE).Changed?;
  }

  lemma SentenceHasDoc(item: Item, model: Model)
    requires SanitizeText(item.text) == "a" && Strip("a") == "a"
    ensures DocOf(item, model).Some?
  {
    hide SanitizeText, Strip;
    DocIsFull(item, model);
  }

  lemma OneItem(src: Source, e: FileEntry)
    requires VerdictOf(src, map[], e).Changed?
    ensures ItemsToIndex(src, map[], [e]) == [VerdictOf(src, map[], e).item]
  {
    hide Classify;
    assert [e][..0] == [];
  }

  lemma OneAction(src: Source, e: FileEntry, h: Health)
    requires VerdictOf(src, map[], e).Changed? && FileDoc(src, map[], e).Some? && h.itemFails(0)
    ensures |ActionsOf(src, map[], [e])| == 1
    ensures Apply(Store(map[], 0), ActionsOf(src, map[], [e]), h, 1) == Store(map[], 0)
  {
    hide Classify, DocOf, Put;
    OneItem(src, e);
    ActionSnoc([], VerdictOf(src, map[], e).item, src.model);
    assert [] + [VerdictOf(src, map[], e).item] == [VerdictOf(src, map[], e).item];
  }

  /**
   The engine refuses the one document of a new file. The file's row is written all the same, so
   rows and index disagree, the document is missing and the next walk does not send it again.
   */
  lemma RefusedFileIsLost(src: Source, e: FileEntry, h: Health)
    requires VerdictOf(src, map[], e).Changed? && FileDoc(src, map[], e).Some? && h.itemFails(0)
    ensures var actions, states, none := ActionsOf(src, map[], [e]), FinalStates(src, map[], [e]), Store(map[], 0);
            && Agree(src, map[], none) && |actions| == 1 && Apply(none, actions, h, 1) == none
            && e.relPath in states && !Agree(src, states, none) && ItemsToIndex(src, states, [e]) == []
  {
    hide Classify, FinalStates, DocFor, DocOf, Apply, ActionsOf, ItemsToIndex;
    OneAction(src, e, h);
    SecondWalkWritesNothing(src, map[], [e]);
    FinalStateOf(src, map[], [e], e.relPath);
    assert [e][0].relPath == e.relPath;
    var content := SentIsCurrent(src, map[], e);
    assert Lookup(Store(map[], 0), Named(DocIdOf(src, e.relPath))) == None;
    assert src.hash(content) == FinalStates(src, map[], [e])[e.relPath].hash;
  }

  /** Such an input: one file of one letter, with any digest that has the width of its column. */
  lemma FailedDocumentsAreNotRetried(model: Model, digest: Bytes -> string, h: Health)
    requires h.itemFails(0) && |digest(ONE_CONTENT)| == HASH_WIDTH
    ensures var src, none := OneFileSource(model, digest), Store(map[], 0);
            var actions, states := ActionsOf(src, map[], [ONE_FILE]), FinalStates(src, map[], [ONE_FILE]);
            && DocFor(src, "a.txt", ONE_CONTENT).Some? && Recordable(src, map[], ONE_FILE)
            && |actions| == 1 && Apply(none, actions, h, 1) == none
            && Agree(src, map[], none) && !Agree(src, states, none)
            && ItemsToIndex(src, states, [ONE_FILE]) == []
  {
    hide Classify, FinalStates, DocFor, DocOf, Apply, ActionsOf, ItemsToIndex, Agree, Recordable;
    OneFileHasDoc(model, digest);
    RefusedFileIsLost(OneFileSource(model, digest), ONE_FILE, h);
  }
}
