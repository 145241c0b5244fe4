/**
 Bulk indexing (app/services/indexing_service.py:233-397): items become documents, blank ones
 are set aside, the rest get vectors in batches and are written in bulk calls.

 The OpenSearch index is a map from document id to document. The write time that the source
 stamps on a document is not part of it. The digest and the embedding model are parameters.
 */
module SearchIndex {
  import opened Wrappers
  import opened Text
  import opened Sanitizer
  import opened Chosung

  const EMBED_BATCH_SIZE := 32
  const BULK_CHUNK_SIZE := 500
  const EMBED_PREFIX := 2000

  type Vector = seq<real>

  /** One input of index_bulk; `contentHash` is "" when the caller has none. */
  datatype Item = Item(
    filename: string, text: string, ext: string, docId: Option<string>, sourceLabel: string, contentHash: string)

  datatype Doc = Doc(
    originFile: string, allText: string, category: string, chosungText: string, chosungNgram: string,
    contentHash: string, title: string, fileExt: string, sourceLabel: string, vector: Vector)

  /** Ids given by callers, and ids the engine makes up for items without one. */
  datatype DocKey = Named(id: string) | Generated(n: nat)

  datatype Store = Store(docs: map<DocKey, Doc>, generated: nat)

  datatype Action = Action(id: Option<string>, doc: Doc)

  function Mentions(text: string, word: string): bool {
    Find(text, word).Some?
  }

  /** map_category, app/common/utils.py:52-58 */
  function MapCategory(filename: string): string {
    if Mentions(filename, "계획") || Mentions(filename, "기획") then "PLAN"
    else if Mentions(filename, "보고") || Mentions(filename, "결과") then "REPORT"
    else if Mentions(filename, "규정") || Mentions(filename, "지침")
            || Mentions(filename, "가이드") || Mentions(filename, "법규") then "RULE"
    else "OTHERS"
  }

  /** The document of an item, vector still missing; None when nothing of the text survives sanitising. */
  function BuildDoc(item: Item, digest: string -> string): Option<Doc> {
    var name, body := SanitizeText(item.filename), SanitizeText(item.text);
    if Strip(body) == [] then None
    else
      var hash := if item.contentHash != [] then item.contentHash else digest(body);
      var chosung := Initials(body);
      Some(Doc(SanitizeText(name), SanitizeText(body), SanitizeText(MapCategory(name)),
               SanitizeText(chosung), SanitizeText(DropBlanks(chosung)), SanitizeText(hash),
               SanitizeText(name), SanitizeText(item.ext), SanitizeText(SanitizeText(item.sourceLabel)), []))
  }

  function Prefix(text: string): string {
    if |text| > EMBED_PREFIX then text[..EMBED_PREFIX] else text
  }

  /** The document as it is stored. */
  function FullDoc(item: Item, digest: string -> string, embed: string -> Vector): Option<Doc> {
    match BuildDoc(item, digest)
    case None => None
    case Some(doc) => Some(doc.(vector := embed(Prefix(doc.allText))))
  }

  /** A digest, an embedding model, and the documents they make of items. */
  datatype Maker = Maker(digest: string -> string, embed: string -> Vector, docOf: Item -> Option<Doc>)

  ghost predicate MakesFullDocs(m: Maker) {
    forall item {:trigger FullDoc(item, m.digest, m.embed)} :: m.docOf(item) == FullDoc(item, m.digest, m.embed)
  }

  type Model = m: Maker | MakesFullDocs(m)
    ghost witness Maker(s => s, s => [], (item: Item) => FullDoc(item, (s: string) => s, (s: string) => []))

  function DocOf(item: Item, model: Model): Option<Doc> {
    model.docOf(item)
  }

  lemma DocIsFull(item: Item, model: Model)
    ensures DocOf(item, model) == FullDoc(item, model.digest, model.embed)
  {
  }

  /** Writing under an id replaces what was there; writing without one adds a document. */
  function Put(s: Store, e: Action): Store {
    match e.id
    case Some(id) => if id != [] then s.(docs := s.docs[Named(id) := e.doc]) else PutNew(s, e.doc)
    case None => PutNew(s, e.doc)
  }

  function PutNew(s: Store, doc: Doc): Store {
    Store(s.docs[Generated(s.generated) := doc], s.generated + 1)
  }

  function Lookup(s: Store, key: DocKey): Option<Doc> {
    if key in s.docs then Some(s.docs[key]) else None
  }

  /** What indexing one item does; nothing if it is blank. */
  function PutItem(s: Store, item: Item, model: Model): Store {
    match DocOf(item, model)
    case None => s
    case Some(doc) => Put(s, Action(item.docId, doc))
  }

  /** What goes right: whether the model answers, which bulk calls raise, which items come back with an error. */
  datatype Health = Health(embeds: bool, callRaises: nat -> bool, itemFails: nat -> bool)

  predicate Written(h: Health, i: nat) {
    h.embeds && !h.callRaises(i / BULK_CHUNK_SIZE) && !h.itemFails(i)
  }

  ghost predicate Healthy(h: Health) {
    h.embeds && (forall i :: !h.callRaises(i)) && (forall i :: !h.itemFails(i))
  }

  function CountWritten(h: Health, n: nat): (c: nat)
    ensures c <= n
  {
    if n == 0 then 0 else CountWritten(h, n - 1) + if Written(h, n - 1) then 1 else 0
  }

  /** The store after the engine has answered for the first n prepared actions. */
  function Apply(s: Store, actions: seq<Action>, h: Health, n: nat): Store
    requires n <= |actions|
  {
    if n == 0 then s
    else
      var t := Apply(s, actions, h, n - 1);
      if Written(h, n - 1) then Put(t, actions[n - 1]) else t
  }

  function Prepared(items: seq<Item>, model: Model): (r: seq<Action>)
    ensures |r| <= |items|
  {
    if items == [] then []
    else
      var n := |items| - 1;
      Prepared(items[..n], model)
      + match DocOf(items[n], model)
        case None => []
        case Some(doc) => [Action(items[n].docId, doc)]
  }

  /** The store when every item that has a document is written, item after item. */
  function PutAll(s: Store, items: seq<Item>, model: Model): Store {
    if items == [] then s
    else
      var n := |items| - 1;
      PutItem(PutAll(s, items[..n], model), items[n], model)
  }

  /** The store when exactly the items that are taken are written. */
  function PutAccepted(s: Store, items: seq<Item>, taken: seq<bool>, model: Model): Store
    requires |taken| == |items|
  {
    if items == [] then s
    else
      var n := |items| - 1;
      var t := PutAccepted(s, items[..n], taken[..n], model);
      if taken[n] then PutItem(t, items[n], model) else t
  }

  /** Which items have a document that the engine accepts in one bulk indexing. */
  function AcceptedOf(items: seq<Item>, model: Model, h: Health): (taken: seq<bool>)
    ensures |taken| == |items|
  {
    if items == [] then []
    else
      var n := |items| - 1;
      AcceptedOf(items[..n], model, h) + [DocOf(items[n], model).Some? && Written(h, |Prepared(items[..n], model)|)]
  }

  function CountTaken(taken: seq<bool>): (n: nat)
    ensures n <= |taken|
  {
    if taken == [] then 0
    else CountTaken(taken[..|taken| - 1]) + if taken[|taken| - 1] then 1 else 0
  }

  datatype BulkResult = BulkResult(indexed: nat, skipped: nat, failed: nat)

  /** _embed_batch: the model sees batches, the caller one vector per text. */
  method EmbedBatch(texts: seq<string>, model: Model) returns (out: seq<Vector>)
    ensures |out| == |texts| && forall i :: 0 <= i < |texts| ==> out[i] == model.embed(texts[i])
  {
    out := [];
    var i := 0;
    while i < |texts|
      invariant |out| == if i <= |texts| then i else |texts|
      invariant forall j :: 0 <= j < |out| ==> out[j] == model.embed(texts[j])
    {
      var end := if i + EMBED_BATCH_SIZE < |texts| then i + EMBED_BATCH_SIZE else |texts|;
      for k := i to end
        invariant |out| == k
        invariant forall j :: 0 <= j < |out| ==> out[j] == model.embed(texts[j])
      {
        out := out + [model.embed(texts[k])];
      }
      i := i + EMBED_BATCH_SIZE;
    }
  }

  class IndexingService {
    var docs: map<DocKey, Doc>
    var generated: nat

    ghost function State(): Store
      reads this
    {
      Store(docs, generated)
    }

    constructor ()
      ensures State() == Store(map[], 0)
    {
      docs, generated := map[], 0;
    }

    method Write(e: Action)
      modifies this
      ensures State() == Put(old(State()), e)
    {
      if e.id.Some? && e.id.value != [] {
        docs := docs[Named(e.id.value) := e.doc];
      } else {
        docs := docs[Generated(generated) := e.doc];
        generated := generated + 1;
      }
    }

    /** Step 1: build the documents, setting blank items aside. */
    static method BuildDocs(items: seq<Item>, model: Model) returns (prepared: seq<Action>, skipped: nat)
      ensures skipped + |prepared| == |items| && |prepared| == |Prepared(items, model)|
      ensures forall j :: 0 <= j < |prepared| ==> WithoutVector(prepared[j], Prepared(items, model)[j], model)
    {
      hide BuildDoc;
      prepared, skipped := [], 0;
      for i := 0 to |items|
        invariant skipped + |prepared| == i
        invariant |prepared| == |Prepared(items[..i], model)|
        invariant forall j :: 0 <= j < |prepared| ==> WithoutVector(prepared[j], Prepared(items[..i], model)[j], model)
      {
        assert items[..i + 1][..i] == items[..i];
        var doc := BuildDoc(items[i], model.digest);
        DocIsFull(items[i], model);
        if doc.None? {
          skipped := skipped + 1;
        } else {
          prepared := prepared + [Action(items[i].docId, doc.value)];
        }
      }
      assert items[..|items|] == items;
    }

    /** Step 2: fill in the vectors. */
    static method AddVectors(prepared: seq<Action>, ghost full: seq<Action>, model: Model) returns (r: seq<Action>)
      requires |full| == |prepared|
      requires forall j :: 0 <= j < |prepared| ==> WithoutVector(prepared[j], full[j], model)
      ensures r == full
    {
      var texts := seq(|prepared|, i requires 0 <= i < |prepared| => Prefix(prepared[i].doc.allText));
      var vectors := EmbedBatch(texts, model);
      r := seq(|prepared|, i requires 0 <= i < |prepared| =>
        prepared[i].(doc := prepared[i].doc.(vector := vectors[i])));
    }

    /** Step 3: one bulk call per chunk. */
    method SendChunks(prepared: seq<Action>, h: Health) returns (indexed: nat, failed: nat)
      requires h.embeds
      modifies this
      ensures indexed + failed == |prepared| && indexed == CountWritten(h, |prepared|)
      ensures State() == Apply(old(State()), prepared, h, |prepared|)
    {
      hide Put, Apply, CountWritten;
      ApplyNone(State(), prepared, h);
      indexed, failed := 0, 0;
      var chunkStart := 0;
      while chunkStart < |prepared|
        invariant chunkStart % BULK_CHUNK_SIZE == 0
        invariant var n := if chunkStart < |prepared| then chunkStart else |prepared|;
                  indexed == CountWritten(h, n) && indexed + failed == n
                  && State() == Apply(old(State()), prepared, h, n)
      {
        var end := if chunkStart + BULK_CHUNK_SIZE < |prepared| then chunkStart + BULK_CHUNK_SIZE else |prepared|;
        if h.callRaises(chunkStart / BULK_CHUNK_SIZE) {
          CallLost(old(State()), prepared, h, chunkStart, end);
          failed := failed + (end - chunkStart);
        } else {
          for k := chunkStart to end
            invariant indexed == CountWritten(h, k) && indexed + failed == k
            invariant State() == Apply(old(State()), prepared, h, k)
          {
            SameCall(chunkStart, k);
            ApplyOne(old(State()), prepared, h, k);
            if h.itemFails(k) {
              failed := failed + 1;
            } else {
              Write(prepared[k]);
              indexed := indexed + 1;
            }
          }
        }
        chunkStart := chunkStart + BULK_CHUNK_SIZE;
      }
    }

    /** Every item ends in exactly one of the three counts, and the index holds exactly the written ones. */
    method IndexBulk(items: seq<Item>, model: Model, h: Health) returns (r: BulkResult)
      modifies this
      ensures r.indexed + r.skipped + r.failed == |items|
      ensures r.skipped == |items| - |Prepared(items, model)|
      ensures r.indexed == CountWritten(h, |Prepared(items, model)|)
      ensures State() == Apply(old(State()), Prepared(items, model), h, |Prepared(items, model)|)
    {
      if items == [] {
        return BulkResult(0, 0, 0);
      }
      var prepared, skipped := BuildDocs(items, model);
      if prepared == [] {
        return BulkResult(0, skipped, 0);
      }
      if !h.embeds {
        NothingWritten(State(), Prepared(items, model), h, |prepared|);
        return BulkResult(0, skipped, |prepared|);
      }
      prepared := AddVectors(prepared, Prepared(items, model), model);
      var indexed, failed := SendChunks(prepared, h);
      return BulkResult(indexed, skipped, failed);
    }
  }

  lemma ApplyNone(s: Store, actions: seq<Action>, h: Health)
    ensures Apply(s, actions, h, 0) == s && CountWritten(h, 0) == 0
  {
  }

  lemma ApplyOne(s: Store, actions: seq<Action>, h: Health, k: nat)
    requires k < |actions|
    ensures Apply(s, actions, h, k + 1)
         == if Written(h, k) then Put(Apply(s, actions, h, k), actions[k]) else Apply(s, actions, h, k)
    ensures CountWritten(h, k + 1) == CountWritten(h, k) + if Written(h, k) then 1 else 0
  {
  }

  lemma SameCall(start: nat, k: nat)
    requires start % BULK_CHUNK_SIZE == 0 && start <= k < start + BULK_CHUNK_SIZE
    ensures k / BULK_CHUNK_SIZE == start / BULK_CHUNK_SIZE
  {
  }

  /** `e` is `full` before its vector is filled in. */
  predicate WithoutVector(e: Action, full: Action, model: Model) {
    full == e.(doc := e.doc.(vector := model.embed(Prefix(e.doc.allText))))
  }

  lemma NothingWritten(s: Store, actions: seq<Action>, h: Health, n: nat)
    requires n <= |actions| && !h.embeds
    ensures Apply(s, actions, h, n) == s && CountWritten(h, n) == 0
  {
  }

  /** A bulk call that raises loses its whole chunk and no other entry. */
  lemma {:induction false} CallLost(s: Store, actions: seq<Action>, h: Health, start: nat, end: nat)
    requires start <= end <= |actions| && end <= start + BULK_CHUNK_SIZE && start % BULK_CHUNK_SIZE == 0
    requires h.callRaises(start / BULK_CHUNK_SIZE)
    ensures Apply(s, actions, h, end) == Apply(s, actions, h, start) && CountWritten(h, end) == CountWritten(h, start)
  {
    if start < end {
      CallLost(s, actions, h, start, end - 1);
      assert (end - 1) / BULK_CHUNK_SIZE == start / BULK_CHUNK_SIZE;
    }
  }

  // ------------------------------------------------------------------
  // The index as a map, however the items are batched
  // ------------------------------------------------------------------

  lemma {:induction false} HealthyApply(s: Store, items: seq<Item>, model: Model, h: Health)
    requires Healthy(h)
    ensures var n := |Prepared(items, model)|;
            Apply(s, Prepared(items, model), h, n) == PutAll(s, items, model) && CountWritten(h, n) == n
  {
    hide DocOf, Put;
    if items != [] {
      var m := |items| - 1;
      HealthyApply(s, items[..m], model, h);
      var before, actions := Prepared(items[..m], model), Prepared(items, model);
      ApplyPrefix(s, before, actions, h, |before|);
    }
  }

  lemma {:induction false} ApplyPrefix(s: Store, a: seq<Action>, b: seq<Action>, h: Health, n: nat)
    requires n <= |a| && a <= b
    ensures Apply(s, a, h, n) == Apply(s, b, h, n)
  {
    if n > 0 {
      ApplyPrefix(s, a, b, h, n - 1);
    }
  }

  /** Two bulk calls one after the other do what one call with all the items does. */
  lemma {:induction false} PutAllConcat(s: Store, a: seq<Item>, b: seq<Item>, model: Model)
    ensures PutAll(s, a + b, model) == PutAll(PutAll(s, a, model), b, model)
  {
    hide DocOf, Put;
    if b == [] {
      assert a + b == a;
    } else {
      var n := |a + b| - 1;
      assert (a + b)[..n] == a + b[..|b| - 1] && (a + b)[n] == b[|b| - 1];
      PutAllConcat(s, a, b[..|b| - 1], model);
    }
  }

  lemma {:induction false} PreparedConcat(a: seq<Item>, b: seq<Item>, model: Model)
    ensures Prepared(a + b, model) == Prepared(a, model) + Prepared(b, model)
  {
    hide DocOf;
    if b == [] {
      assert a + b == a;
    } else {
      var n := |a + b| - 1;
      assert (a + b)[..n] == a + b[..|b| - 1] && (a + b)[n] == b[|b| - 1];
      PreparedConcat(a, b[..|b| - 1], model);
    }
  }

  // ------------------------------------------------------------------
  // What the engine accepts, item by item
  // ------------------------------------------------------------------

  lemma NothingApplied(store: Store, model: Model, h: Health)
    ensures Prepared([], model) == [] && Apply(store, [], h, 0) == store
  {
  }

  lemma OneMoreApplied(store: Store, items: seq<Item>, item: Item, model: Model, h: Health)
    ensures var before, after := Prepared(items, model), Prepared(items + [item], model);
            Apply(store, after, h, |after|)
            == if DocOf(item, model).Some? && Written(h, |before|)
               then PutItem(Apply(store, before, h, |before|), item, model)
               else Apply(store, before, h, |before|)
  {
    hide Written, DocOf, Put;
    assert (items + [item])[..|items|] == items;
    var before, after := Prepared(items, model), Prepared(items + [item], model);
    ApplyPrefix(store, before, after, h, |before|);
  }

  /** A bulk indexing writes the accepted items and counts them. */
  lemma {:induction false} AcceptedIsApply(s: Store, items: seq<Item>, model: Model, h: Health)
    ensures var actions, taken := Prepared(items, model), AcceptedOf(items, model, h);
            && Apply(s, actions, h, |actions|) == PutAccepted(s, items, taken, model)
            && CountWritten(h, |actions|) == CountTaken(taken)
  {
    hide Written, DocOf, Put;
    if items != [] {
      var n := |items| - 1;
      AcceptedIsApply(s, items[..n], model, h);
      assert items[..n] + [items[n]] == items;
      assert AcceptedOf(items, model, h)[..n] == AcceptedOf(items[..n], model, h);
      OneMoreApplied(s, items[..n], items[n], model, h);
    }
  }

  lemma {:induction false} AcceptedHaveDocs(items: seq<Item>, model: Model, h: Health)
    ensures forall i :: 0 <= i < |items| && AcceptedOf(items, model, h)[i] ==> DocOf(items[i], model).Some?
    ensures Healthy(h) ==> forall i :: 0 <= i < |items| && DocOf(items[i], model).Some? ==> AcceptedOf(items, model, h)[i]
  {
    hide DocOf;
    if items != [] {
      var n := |items| - 1;
      AcceptedHaveDocs(items[..n], model, h);
      forall i | 0 <= i < n
        ensures items[..n][i] == items[i] && AcceptedOf(items, model, h)[i] == AcceptedOf(items[..n], model, h)[i]
      {
      }
    }
  }

  lemma {:induction false} PutAcceptedConcat(
    s: Store, a: seq<Item>, t: seq<bool>, b: seq<Item>, u: seq<bool>, model: Model)
    requires |t| == |a| && |u| == |b|
    ensures PutAccepted(s, a + b, t + u, model) == PutAccepted(PutAccepted(s, a, t, model), b, u, model)
    ensures CountTaken(t + u) == CountTaken(t) + CountTaken(u)
  {
    hide PutItem;
    if b == [] {
      assert a + b == a && t + u == t;
    } else {
      var n := |b| - 1;
      assert (a + b)[..|a| + n] == a + b[..n] && (a + b)[|a| + n] == b[n];
      assert (t + u)[..|a| + n] == t + u[..n] && (t + u)[|a| + n] == u[n];
      PutAcceptedConcat(s, a, t, b[..n], u[..n], model);
    }
  }

  /** Where every document is accepted the index is that of all the items. */
  lemma {:induction false} AllAcceptedIsPutAll(s: Store, items: seq<Item>, taken: seq<bool>, model: Model)
    requires |taken| == |items| && forall i :: 0 <= i < |items| ==> (taken[i] <==> DocOf(items[i], model).Some?)
    ensures PutAccepted(s, items, taken, model) == PutAll(s, items, model)
    ensures CountTaken(taken) == |Prepared(items, model)|
  {
    hide DocOf, Put;
    if items != [] {
      var n := |items| - 1;
      AllAcceptedIsPutAll(s, items[..n], taken[..n], model);
    }
  }

  /** What bulk indexing has done with these items so far; `well`: no document was refused. */
  ghost predicate Accepts(
    s0: Store, items: seq<Item>, model: Model, taken: seq<bool>, store: Store, tally: BulkResult, well: bool)
  {
    && |taken| == |items| && store == PutAccepted(s0, items, taken, model)
    && (forall i :: 0 <= i < |items| && taken[i] ==> DocOf(items[i], model).Some?)
    && (well ==> forall i :: 0 <= i < |items| && DocOf(items[i], model).Some? ==> taken[i])
    && tally.indexed == CountTaken(taken) && tally.indexed + tally.failed == |Prepared(items, model)|
    && tally.skipped + |Prepared(items, model)| == |items|
  }

  lemma NothingAccepted(s0: Store, model: Model, well: bool)
    ensures Accepts(s0, [], model, [], s0, BulkResult(0, 0, 0), well)
  {
  }

  function Sum(a: BulkResult, b: BulkResult): BulkResult {
    BulkResult(a.indexed + b.indexed, a.skipped + b.skipped, a.failed + b.failed)
  }

  /** One more bulk indexing. */
  lemma MoreAccepted(
    s0: Store, a: seq<Item>, model: Model, taken: seq<bool>, store: Store, tally: BulkResult, well: bool, b: seq<Item>,
    h: Health, res: BulkResult)
    requires Accepts(s0, a, model, taken, store, tally, well) && (well ==> Healthy(h))
    requires var n := |Prepared(b, model)|;
             res.indexed == CountWritten(h, n) && res.skipped == |b| - n && res.indexed + res.skipped + res.failed == |b|
    ensures var actions := Prepared(b, model);
            Accepts(s0, a + b, model, taken + AcceptedOf(b, model, h), Apply(store, actions, h, |actions|),
                    Sum(tally, res), well)
  {
    hide DocOf, Put, PutAccepted, Prepared, Apply, CountTaken, CountWritten, AcceptedOf, Healthy;
    AcceptedIsApply(store, b, model, h);
    AcceptedHaveDocs(b, model, h);
    PutAcceptedConcat(s0, a, taken, b, AcceptedOf(b, model, h), model);
    PreparedConcat(a, b, model);
  }
}
