/**
 * The bookkeeping of the vector store around the Chroma collection: adding
 * chunks (in one batch, or one by one when the batch fails), filtering
 * search hits by score, deleting by metadata, and listing the stored
 * documents.
 *
 * The collection is modelled as the sequence of entries it holds, in the
 * order they were added, with no id twice: an add under a stored id
 * replaces that entry where it stands. Whether Chroma accepts an add, and
 * the UUIDs the code draws, are given to the operations as functions of
 * the position; an error from reading or deleting is a parameter too.
 */
module VectorStore {
  import opened Wrappers
  import opened Documents

  /** A stored chunk: its id, its text and the metadata it was added with. */
  datatype Entry = Entry(id: MetaValue, content: string, metadata: Metadata)

  /** A search hit with its relevance score. */
  type Scored = (Document, real)

  /** `settings.similarity_threshold`'s default. */
  const DefaultThreshold: real := 0.7
  const NothingAdded: string := "Failed to add any documents to vector store"

  // ---- Generic selections ----------------------------------------------------------

  /** The elements of `xs` that `keep` accepts, in order. */
  function Filter<T>(xs: seq<T>, keep: T -> bool): (r: seq<T>)
    ensures |r| <= |xs|
    ensures forall i :: 0 <= i < |r| ==> r[i] in xs && keep(r[i])
    ensures forall i :: 0 <= i < |xs| && keep(xs[i]) ==> xs[i] in r
  {
    if xs == [] then []
    else (if keep(xs[0]) then [xs[0]] else []) + Filter(xs[1..], keep)
  }

  /** Filtering distributes over concatenation: the order of the survivors is the input order. */
  lemma {:induction false} FilterAppend<T>(a: seq<T>, b: seq<T>, keep: T -> bool)
    ensures Filter(a + b, keep) == Filter(a, keep) + Filter(b, keep)
    decreases |a|
  {
    if a == [] {
      assert a + b == b;
    } else {
      assert (a + b)[0] == a[0];
      assert (a + b)[1..] == a[1..] + b;
      FilterAppend(a[1..], b, keep);
    }
  }

  /** A filter that accepts everything changes nothing. */
  lemma {:induction false} FilterKeepsAll<T>(xs: seq<T>, keep: T -> bool)
    requires forall i :: 0 <= i < |xs| ==> keep(xs[i])
    ensures Filter(xs, keep) == xs
    decreases |xs|
  {
    if xs != [] {
      assert forall i :: 0 <= i < |xs[1..]| ==> xs[1..][i] == xs[i + 1];
      FilterKeepsAll(xs[1..], keep);
    }
  }

  /** The elements at the positions `accepts` admits, in order. */
  function Accepted<T>(xs: seq<T>, accepts: nat -> bool): (r: seq<T>)
    ensures |r| <= |xs|
    decreases |xs|
  {
    if xs == [] then []
    else Accepted(xs[..|xs| - 1], accepts) + (if accepts(|xs| - 1) then [xs[|xs| - 1]] else [])
  }

  /**
   * Nothing is admitted iff no position is: the fallback raises exactly when
   * every single add failed. What is admitted comes from the input.
   */
  lemma {:induction false} AcceptedEmpty<T>(xs: seq<T>, accepts: nat -> bool)
    ensures Accepted(xs, accepts) == [] <==> forall i :: 0 <= i < |xs| ==> !accepts(i)
    ensures forall i :: 0 <= i < |Accepted(xs, accepts)| ==> Accepted(xs, accepts)[i] in xs
    decreases |xs|
  {
    if xs != [] {
      var init := xs[..|xs| - 1];
      AcceptedEmpty(init, accepts);
      assert forall i :: 0 <= i < |init| ==> init[i] == xs[i];
    }
  }

  /** When every position is admitted, nothing is dropped. */
  lemma {:induction false} AcceptedAll<T>(xs: seq<T>, accepts: nat -> bool)
    requires forall i :: 0 <= i < |xs| ==> accepts(i)
    ensures Accepted(xs, accepts) == xs
    decreases |xs|
  {
    if xs != [] {
      AcceptedAll(xs[..|xs| - 1], accepts);
    }
  }

  /** Admitting by position commutes with a position-wise map. */
  lemma {:induction false} AcceptedMap<T, U>(xs: seq<T>, ys: seq<U>, f: U -> T, accepts: nat -> bool)
    requires |xs| == |ys| && forall i :: 0 <= i < |xs| ==> xs[i] == f(ys[i])
    ensures |Accepted(xs, accepts)| == |Accepted(ys, accepts)|
    ensures forall k :: 0 <= k < |Accepted(xs, accepts)| ==> Accepted(xs, accepts)[k] == f(Accepted(ys, accepts)[k])
    decreases |xs|
  {
    if xs != [] {
      AcceptedMap(xs[..|xs| - 1], ys[..|ys| - 1], f, accepts);
    }
  }

  /** Two filters that agree on every element select the same elements. */
  lemma {:induction false} FilterAgree<T>(xs: seq<T>, keep1: T -> bool, keep2: T -> bool)
    requires forall i :: 0 <= i < |xs| ==> keep1(xs[i]) == keep2(xs[i])
    ensures Filter(xs, keep1) == Filter(xs, keep2)
    decreases |xs|
  {
    if xs != [] {
      assert forall i :: 0 <= i < |xs[1..]| ==> xs[1..][i] == xs[i + 1];
      FilterAgree(xs[1..], keep1, keep2);
    }
  }

  /** The first position of an element in a list. */
  function FirstIndex<T(==)>(xs: seq<T>, x: T): (i: nat)
    requires x in xs
    ensures i < |xs| && xs[i] == x && x !in xs[..i]
  {
    if xs[0] == x then 0
    else
      var i := FirstIndex(xs[1..], x);
      assert xs[1..][..i] == xs[1..i + 1];
      assert xs[..i + 1] == [xs[0]] + xs[1..i + 1];
      i + 1
  }

  /** A position holding `x` with no `x` before it is the first position. */
  lemma FirstIndexUnique<T>(xs: seq<T>, x: T, i: nat)
    requires i < |xs| && xs[i] == x && x !in xs[..i]
    ensures FirstIndex(xs, x) == i
  {
  }

  // ---- Adding documents ------------------------------------------------------------

  /** A document's metadata once it has a `chunk_id`: an existing one is kept. */
  function Stamped(m: Metadata, newId: string): (r: Metadata)
    ensures "chunk_id" in r && r.Keys == m.Keys + {"chunk_id"}
    ensures forall k :: k in m && (k != "chunk_id" || "chunk_id" in m) ==> r[k] == m[k]
  {
    if "chunk_id" in m then m else m["chunk_id" := MStr(newId)]
  }

  /** The `chunk_id` of each document. */
  function ChunkIds(docs: seq<Document>): (ids: seq<MetaValue>)
    reads docs
    ensures |ids| == |docs|
  {
    seq(|docs|, i reads docs requires 0 <= i < |docs| => Get(docs[i].metadata, "chunk_id", MNone))
  }

  /** What adding the documents under the given ids puts in the collection. */
  function Entries(docs: seq<Document>, ids: seq<MetaValue>): (es: seq<Entry>)
    requires |ids| == |docs|
    reads docs
    ensures |es| == |docs|
    ensures forall i :: 0 <= i < |docs| ==> es[i] == Entry(ids[i], docs[i].pageContent, docs[i].metadata)
  {
    seq(|docs|, i reads docs requires 0 <= i < |docs| => Entry(ids[i], docs[i].pageContent, docs[i].metadata))
  }

  /** In the fallback, the ids returned are the ids of the entries that went in, in the same order. */
  lemma ReturnedIdsAreStoredIds(docs: seq<Document>, ids: seq<MetaValue>, accepts: nat -> bool)
    requires |ids| == |docs|
    ensures var stored := Accepted(Entries(docs, ids), accepts);
            |Accepted(ids, accepts)| == |stored|
            && forall k :: 0 <= k < |stored| ==> Accepted(ids, accepts)[k] == stored[k].id
  {
    AcceptedMap(ids, Entries(docs, ids), (e: Entry) => e.id, accepts);
  }

  // ---- Score filter ----------------------------------------------------------------

  /** The comprehension of `similarity_search_with_score`: the hits scoring at least the threshold. */
  function AboveThreshold(hits: seq<Scored>, threshold: real): (r: seq<Scored>)
    ensures |r| <= |hits|
    ensures forall i :: 0 <= i < |r| ==> r[i].1 >= threshold && r[i] in hits
    ensures forall i :: 0 <= i < |hits| && hits[i].1 >= threshold ==> hits[i] in r
  {
    Filter(hits, (h: Scored) => h.1 >= threshold)
  }

  /** The survivors keep their order: filtering two batches is filtering their concatenation. */
  lemma AboveThresholdKeepsOrder(a: seq<Scored>, b: seq<Scored>, threshold: real)
    ensures AboveThreshold(a + b, threshold) == AboveThreshold(a, threshold) + AboveThreshold(b, threshold)
  {
    FilterAppend(a, b, (h: Scored) => h.1 >= threshold);
  }

  /** When every hit clears the threshold, the search result is returned as it is. */
  lemma AllAboveThreshold(hits: seq<Scored>, threshold: real)
    requires forall i :: 0 <= i < |hits| ==> hits[i].1 >= threshold
    ensures AboveThreshold(hits, threshold) == hits
  {
    FilterKeepsAll(hits, (h: Scored) => h.1 >= threshold);
  }

  // ---- Deletion ----------------------------------------------------------------------

  /** Chroma's `where` on equality: every key of the filter is present with the same value. */
  predicate Matches(m: Metadata, filter: Metadata) {
    forall k :: k in filter ==> k in m && m[k] == filter[k]
  }

  /** `collection.get(where=filter)['ids']`: the ids of the matching entries, in order. */
  function MatchingIds(es: seq<Entry>, filter: Metadata): (ids: seq<MetaValue>)
    ensures |ids| <= |es|
  {
    if es == [] then []
    else (if Matches(es[0].metadata, filter) then [es[0].id] else []) + MatchingIds(es[1..], filter)
  }

  /** An id is returned iff some entry carrying it matches the filter. */
  lemma {:induction false} MatchingIdsExactly(es: seq<Entry>, filter: Metadata, x: MetaValue)
    ensures x in MatchingIds(es, filter) <==> exists i :: 0 <= i < |es| && es[i].id == x && Matches(es[i].metadata, filter)
  {
    if es != [] {
      MatchingIdsExactly(es[1..], filter, x);
      assert forall i :: 1 <= i < |es| ==> es[i] == es[1..][i - 1];
    }
  }

  /** No id is returned iff no entry matches. */
  lemma MatchingIdsEmpty(es: seq<Entry>, filter: Metadata)
    ensures MatchingIds(es, filter) == [] <==> forall i :: 0 <= i < |es| ==> !Matches(es[i].metadata, filter)
  {
    var ids := MatchingIds(es, filter);
    if ids != [] {
      MatchingIdsExactly(es, filter, ids[0]);
    }
    forall i | 0 <= i < |es| && Matches(es[i].metadata, filter) ensures ids != [] {
      MatchingIdsExactly(es, filter, es[i].id);
    }
  }

  /** The collection after `collection.delete(ids=...)`. */
  function WithoutIds(es: seq<Entry>, ids: seq<MetaValue>): seq<Entry> {
    Filter(es, (e: Entry) => e.id !in ids)
  }

  /** No two entries share an id. */
  predicate UniqueIds(es: seq<Entry>) {
    forall i, j :: 0 <= i < j < |es| ==> es[i].id != es[j].id
  }

  /**
   * With unique ids, deleting the matching ids deletes exactly the
   * matching entries, and keeps the others in their order.
   */
  lemma DeleteRemovesExactlyMatches(es: seq<Entry>, filter: Metadata)
    requires UniqueIds(es)
    ensures WithoutIds(es, MatchingIds(es, filter)) == Filter(es, (e: Entry) => !Matches(e.metadata, filter))
  {
    var ids := MatchingIds(es, filter);
    forall i | 0 <= i < |es|
      ensures (es[i].id !in ids) == !Matches(es[i].metadata, filter)
    {
      MatchingIdsExactly(es, filter, es[i].id);
      if es[i].id in ids {
        var i' :| 0 <= i' < |es| && es[i'].id == es[i].id && Matches(es[i'].metadata, filter);
        assert i' == i;
      }
    }
    FilterAgree(es, (e: Entry) => e.id !in ids, (e: Entry) => !Matches(e.metadata, filter));
  }

  /** Deleting never makes two entries share an id. */
  lemma {:induction false} FilterKeepsUnique(es: seq<Entry>, keep: Entry -> bool)
    requires UniqueIds(es)
    ensures UniqueIds(Filter(es, keep))
    decreases |es|
  {
    if es != [] {
      var rest := es[1..];
      assert UniqueIds(rest) by {
        forall i, j | 0 <= i < j < |rest| ensures rest[i].id != rest[j].id {
          assert rest[i] == es[i + 1] && rest[j] == es[j + 1];
        }
      }
      FilterKeepsUnique(rest, keep);
      forall x | x in rest ensures x.id != es[0].id {
        var j :| 0 <= j < |rest| && rest[j] == x;
        assert es[j + 1] == x;
      }
    }
  }

  // ---- Upserting ---------------------------------------------------------------------

  /** The ids of the entries, in order. */
  function Ids(es: seq<Entry>): (ids: seq<MetaValue>)
    ensures |ids| == |es| && forall i :: 0 <= i < |es| ==> ids[i] == es[i].id
  {
    seq(|es|, i requires 0 <= i < |es| => es[i].id)
  }

  /** No id occurs twice. */
  predicate DistinctIds(ids: seq<MetaValue>) {
    forall i, j :: 0 <= i < j < |ids| ==> ids[i] != ids[j]
  }

  /**
   * Chroma's upsert of one entry, which is what LangChain's `add_documents`
   * issues: the entry stored under the same id is replaced where it stands,
   * and an entry under a new id is appended.
   */
  function Upsert(es: seq<Entry>, e: Entry): seq<Entry> {
    if e.id in Ids(es) then es[FirstIndex(Ids(es), e.id) := e] else es + [e]
  }

  /**
   * An upsert keeps the ids unique; afterwards the collection holds the new
   * entry and exactly the old entries under other ids, and it grows only
   * when the id was new.
   */
  lemma UpsertStores(es: seq<Entry>, e: Entry)
    requires UniqueIds(es)
    ensures UniqueIds(Upsert(es, e))
    ensures forall x :: x in Upsert(es, e) <==> x == e || (x in es && x.id != e.id)
    ensures |Upsert(es, e)| == if e.id in Ids(es) then |es| else |es| + 1
  {
    var ids := Ids(es);
    if e.id in ids {
      var k := FirstIndex(ids, e.id);
      var r := es[k := e];
      assert r[k] == e && es[k].id == ids[k] == e.id;
      forall x ensures x in r <==> x == e || (x in es && x.id != e.id) {
        if x in es && x.id != e.id {
          var j :| 0 <= j < |es| && es[j] == x;
          assert j != k && r[j] == x;
        }
        if x in r && x != e {
          var j :| 0 <= j < |r| && r[j] == x;
          assert j != k && es[j] == x;
        }
      }
    } else {
      assert forall j :: 0 <= j < |es| ==> es[j].id != e.id by {
        forall j | 0 <= j < |es| ensures es[j].id != e.id {
          assert ids[j] == es[j].id;
        }
      }
    }
  }

  /** Upserting a batch: one upsert per entry, in order. */
  function UpsertAll(es: seq<Entry>, news: seq<Entry>): seq<Entry>
    decreases |news|
  {
    if news == [] then es else Upsert(UpsertAll(es, news[..|news| - 1]), news[|news| - 1])
  }

  /** Upserting a batch keeps the ids unique. */
  lemma {:induction false} UpsertAllUnique(es: seq<Entry>, news: seq<Entry>)
    requires UniqueIds(es)
    ensures UniqueIds(UpsertAll(es, news))
    decreases |news|
  {
    if news != [] {
      UpsertAllUnique(es, news[..|news| - 1]);
      UpsertStores(UpsertAll(es, news[..|news| - 1]), news[|news| - 1]);
    }
  }

  /** A batch under ids that are new and distinct is appended as it is. */
  lemma {:induction false} UpsertAllFresh(es: seq<Entry>, news: seq<Entry>)
    requires UniqueIds(es + news)
    ensures UpsertAll(es, news) == es + news
    decreases |news|
  {
    if news != [] {
      var init := news[..|news| - 1];
      var e := news[|news| - 1];
      assert es + news == (es + init) + [e];
      assert UniqueIds(es + init) by {
        forall i, j | 0 <= i < j < |es + init| ensures (es + init)[i].id != (es + init)[j].id {
          assert (es + init)[i] == (es + news)[i] && (es + init)[j] == (es + news)[j];
        }
      }
      UpsertAllFresh(es, init);
      assert e.id !in Ids(es + init) by {
        forall j | 0 <= j < |es + init| ensures Ids(es + init)[j] != e.id {
          assert (es + init)[j] == (es + news)[j] && e == (es + news)[|es + news| - 1];
        }
      }
    }
  }

  /** `x` is in the batch with no later entry under its id. */
  predicate LastWithId(news: seq<Entry>, x: Entry) {
    exists i :: 0 <= i < |news| && news[i] == x && forall j :: i < j < |news| ==> news[j].id != x.id
  }

  lemma LastWithIdSnoc(init: seq<Entry>, e: Entry, x: Entry)
    ensures LastWithId(init + [e], x) <==> x == e || (LastWithId(init, x) && x.id != e.id)
  {
    var news := init + [e];
    var k := |init|;
    if LastWithId(news, x) {
      var i :| 0 <= i < |news| && news[i] == x && forall j :: i < j < |news| ==> news[j].id != x.id;
      if i < k {
        assert init[i] == x && news[k] == e;
        assert forall j :: i < j < |init| ==> init[j] == news[j];
      }
    }
    if LastWithId(init, x) && x.id != e.id {
      var i :| 0 <= i < |init| && init[i] == x && forall j :: i < j < |init| ==> init[j].id != x.id;
      assert news[i] == x;
      assert forall j :: i < j < |news| ==> news[j].id != x.id;
    }
    if x == e {
      assert news[k] == x;
    }
  }

  /**
   * After upserting a batch, the collection holds exactly the last entry of
   * the batch under each of its ids, and the old entries under the ids the
   * batch does not mention.
   */
  lemma {:induction false} UpsertAllContents(es: seq<Entry>, news: seq<Entry>, x: Entry)
    requires UniqueIds(es)
    ensures x in UpsertAll(es, news) <==> LastWithId(news, x) || (x in es && x.id !in Ids(news))
    decreases |news|
  {
    if news == [] {
      assert Ids(news) == [];
    } else {
      var k := |news| - 1;
      var init := news[..k];
      var e := news[k];
      UpsertAllContents(es, init, x);
      UpsertAllUnique(es, init);
      UpsertStores(UpsertAll(es, init), e);
      assert news == init + [e];
      assert Ids(news) == Ids(init) + [e.id];
      LastWithIdSnoc(init, e, x);
    }
  }

  // ---- Listing -----------------------------------------------------------------------

  /** One entry of `list_documents`. */
  datatype DocumentSummary = DocumentSummary(documentId: MetaValue, filename: MetaValue, chunkCount: nat,
                                             processedAt: MetaValue)

  const UnknownField: MetaValue := MStr("unknown")

  /** `metadata.get('document_id', 'unknown')`. */
  function DocumentIdOf(m: Metadata): MetaValue {
    Get(m, "document_id", UnknownField)
  }

  /** The summary a document starts with, from its first chunk. */
  function FirstSummary(m: Metadata): DocumentSummary {
    DocumentSummary(DocumentIdOf(m), Get(m, "filename", UnknownField), 1, Get(m, "processed_at", MNone))
  }

  /** The document id of each chunk. */
  function ChunkDocumentIds(metas: seq<Metadata>): (ids: seq<MetaValue>)
    ensures |ids| == |metas| && forall k :: 0 <= k < |metas| ==> ids[k] == DocumentIdOf(metas[k])
  {
    seq(|metas|, k requires 0 <= k < |metas| => DocumentIdOf(metas[k]))
  }

  /** The document id of each summary. */
  function SummaryIds(groups: seq<DocumentSummary>): (ids: seq<MetaValue>)
    ensures |ids| == |groups| && forall j :: 0 <= j < |groups| ==> ids[j] == groups[j].documentId
  {
    seq(|groups|, j requires 0 <= j < |groups| => groups[j].documentId)
  }

  /** How many chunks carry the given document id. */
  function CountId(metas: seq<Metadata>, id: MetaValue): (n: nat)
    ensures n <= |metas|
    ensures n == 0 <==> id !in ChunkDocumentIds(metas)
    decreases |metas|
  {
    if metas == [] then 0
    else
      var init := metas[..|metas| - 1];
      assert ChunkDocumentIds(metas) == ChunkDocumentIds(init) + [DocumentIdOf(metas[|metas| - 1])];
      CountId(init, id) + if DocumentIdOf(metas[|metas| - 1]) == id then 1 else 0
  }

  /**
   * The dictionary `list_documents` builds, as its values in insertion
   * order: a chunk of a new document adds a summary, a chunk of a known
   * one increments its count.
   */
  function Group(metas: seq<Metadata>): (groups: seq<DocumentSummary>)
    ensures |groups| <= |metas|
    ensures forall i, j :: 0 <= i < j < |groups| ==> groups[i].documentId != groups[j].documentId
    ensures forall x :: x in SummaryIds(groups) <==> x in ChunkDocumentIds(metas)
    decreases |metas|
  {
    if metas == [] then []
    else
      var init := metas[..|metas| - 1];
      var m := metas[|metas| - 1];
      var prev := Group(init);
      assert ChunkDocumentIds(metas) == ChunkDocumentIds(init) + [DocumentIdOf(m)];
      if DocumentIdOf(m) in SummaryIds(prev) then
        var p := FirstIndex(SummaryIds(prev), DocumentIdOf(m));
        var groups := prev[p := prev[p].(chunkCount := prev[p].chunkCount + 1)];
        assert SummaryIds(groups) == SummaryIds(prev);
        groups
      else
        var groups := prev + [FirstSummary(m)];
        assert SummaryIds(groups) == SummaryIds(prev) + [DocumentIdOf(m)];
        groups
  }

  /** One step of the grouping loop: bump the document's count, or start its summary. */
  function Absorb(prev: seq<DocumentSummary>, m: Metadata): seq<DocumentSummary> {
    if DocumentIdOf(m) in SummaryIds(prev) then
      var p := FirstIndex(SummaryIds(prev), DocumentIdOf(m));
      prev[p := prev[p].(chunkCount := prev[p].chunkCount + 1)]
    else
      prev + [FirstSummary(m)]
  }

  lemma GroupSnoc(init: seq<Metadata>, m: Metadata)
    ensures Group(init + [m]) == Absorb(Group(init), m)
  {
    assert (init + [m])[..|init|] == init;
  }

  /** Bumping the summary at `p`, which holds the chunk's document, is the grouping step. */
  lemma AbsorbAt(groups: seq<DocumentSummary>, m: Metadata, p: nat)
    requires forall i, j :: 0 <= i < j < |groups| ==> groups[i].documentId != groups[j].documentId
    requires p < |groups| && groups[p].documentId == DocumentIdOf(m)
    ensures Absorb(groups, m) == groups[p := groups[p].(chunkCount := groups[p].chunkCount + 1)]
  {
    FirstIndexUnique(SummaryIds(groups), DocumentIdOf(m), p);
  }

  /** `position` maps each summarised document id to the index of its summary. */
  ghost predicate Positions(groups: seq<DocumentSummary>, position: map<MetaValue, nat>) {
    && (forall x :: x in position <==> x in SummaryIds(groups))
    && (forall x :: x in position ==> position[x] < |groups| && groups[position[x]].documentId == x)
  }

  /** The body of the `list_documents` loop, for one chunk. */
  method AbsorbChunk(groups: seq<DocumentSummary>, position: map<MetaValue, nat>, m: Metadata)
    returns (groups': seq<DocumentSummary>, position': map<MetaValue, nat>)
    requires forall i, j :: 0 <= i < j < |groups| ==> groups[i].documentId != groups[j].documentId
    requires Positions(groups, position)
    ensures groups' == Absorb(groups, m) && Positions(groups', position')
  {
    var id := DocumentIdOf(m);
    if id in position {
      var p := position[id];
      AbsorbAt(groups, m, p);
      groups' := groups[p := groups[p].(chunkCount := groups[p].chunkCount + 1)];
      position' := position;
      assert SummaryIds(groups') == SummaryIds(groups);
    } else {
      position' := position[id := |groups|];
      groups' := groups + [FirstSummary(m)];
      assert SummaryIds(groups') == SummaryIds(groups) + [id];
    }
  }

  /**
   * The loop of `list_documents`: a dictionary from document id to
   * summary, in insertion order, here the summaries and each id's position.
   */
  method GroupChunks(metas: seq<Metadata>) returns (groups: seq<DocumentSummary>)
    ensures groups == Group(metas)
  {
    groups := [];
    var position: map<MetaValue, nat> := map[];
    for i := 0 to |metas|
      invariant groups == Group(metas[..i])
      invariant Positions(groups, position)
    {
      assert metas[..i + 1] == metas[..i] + [metas[i]];
      GroupSnoc(metas[..i], metas[i]);
      groups, position := AbsorbChunk(groups, position, metas[i]);
    }
    assert metas[..|metas|] == metas;
  }

  /** Every document's count is the number of its chunks. */
  lemma {:induction false} GroupCounts(metas: seq<Metadata>)
    ensures forall j :: 0 <= j < |Group(metas)| ==> Group(metas)[j].chunkCount == CountId(metas, Group(metas)[j].documentId)
    decreases |metas|
  {
    if metas != [] {
      var init := metas[..|metas| - 1];
      var m := metas[|metas| - 1];
      var id := DocumentIdOf(m);
      var prev, groups := Group(init), Group(metas);
      GroupCounts(init);
      forall j | 0 <= j < |groups|
        ensures groups[j].chunkCount == CountId(metas, groups[j].documentId)
      {
        if id in SummaryIds(prev) {
          var p := FirstIndex(SummaryIds(prev), id);
          if j != p {
            assert prev[j].documentId != id;
          }
        } else if j < |prev| {
          assert SummaryIds(prev)[j] == prev[j].documentId;
        }
      }
    }
  }

  /** The sum of the chunk counts. */
  function TotalChunks(groups: seq<DocumentSummary>): nat {
    if groups == [] then 0 else groups[0].chunkCount + TotalChunks(groups[1..])
  }

  lemma {:induction false} TotalChunksBump(groups: seq<DocumentSummary>, p: nat)
    requires p < |groups|
    ensures TotalChunks(groups[p := groups[p].(chunkCount := groups[p].chunkCount + 1)]) == TotalChunks(groups) + 1
    decreases |groups|
  {
    if p > 0 {
      TotalChunksBump(groups[1..], p - 1);
      assert groups[p := groups[p].(chunkCount := groups[p].chunkCount + 1)][1..]
             == groups[1..][p - 1 := groups[p].(chunkCount := groups[p].chunkCount + 1)];
    }
  }

  lemma {:induction false} TotalChunksAppend(groups: seq<DocumentSummary>, g: DocumentSummary)
    ensures TotalChunks(groups + [g]) == TotalChunks(groups) + g.chunkCount
    decreases |groups|
  {
    if groups != [] {
      assert (groups + [g])[1..] == groups[1..] + [g];
      TotalChunksAppend(groups[1..], g);
    }
  }

  /** Every chunk is counted once: the counts add up to the number of chunks. */
  lemma {:induction false} GroupTotal(metas: seq<Metadata>)
    ensures TotalChunks(Group(metas)) == |metas|
    decreases |metas|
  {
    if metas != [] {
      var init := metas[..|metas| - 1];
      var m := metas[|metas| - 1];
      var prev := Group(init);
      GroupTotal(init);
      if DocumentIdOf(m) in SummaryIds(prev) {
        TotalChunksBump(prev, FirstIndex(SummaryIds(prev), DocumentIdOf(m)));
      } else {
        TotalChunksAppend(prev, FirstSummary(m));
      }
    }
  }

  /** Appending a chunk does not move the first chunk of a document already seen. */
  lemma FirstChunkStays(metas: seq<Metadata>, m: Metadata, x: MetaValue)
    requires x in ChunkDocumentIds(metas)
    ensures ChunkDocumentIds(metas + [m]) == ChunkDocumentIds(metas) + [DocumentIdOf(m)]
    ensures FirstIndex(ChunkDocumentIds(metas + [m]), x) == FirstIndex(ChunkDocumentIds(metas), x)
  {
    var ids, ids' := ChunkDocumentIds(metas), ChunkDocumentIds(metas + [m]);
    assert ids' == ids + [DocumentIdOf(m)];
    var i := FirstIndex(ids, x);
    assert ids'[..i] == ids[..i];
    FirstIndexUnique(ids', x, i);
  }

  /** A chunk of a document not seen before is that document's first chunk. */
  lemma NewDocumentStartsHere(metas: seq<Metadata>, m: Metadata)
    requires DocumentIdOf(m) !in ChunkDocumentIds(metas)
    ensures DocumentIdOf(m) in ChunkDocumentIds(metas + [m])
    ensures FirstIndex(ChunkDocumentIds(metas + [m]), DocumentIdOf(m)) == |metas|
  {
    var ids, ids' := ChunkDocumentIds(metas), ChunkDocumentIds(metas + [m]);
    assert ids' == ids + [DocumentIdOf(m)];
    assert ids'[|metas|] == DocumentIdOf(m);
    assert ids'[..|metas|] == ids;
    FirstIndexUnique(ids', DocumentIdOf(m), |metas|);
  }

  /** The first chunk carrying document id `x`. */
  ghost function FirstChunk(metas: seq<Metadata>, x: MetaValue): Metadata
    requires x in ChunkDocumentIds(metas)
  {
    metas[FirstIndex(ChunkDocumentIds(metas), x)]
  }

  /** Each summary names a document of the chunks and takes its fields from that document's first chunk. */
  ghost predicate FromFirstChunks(metas: seq<Metadata>, groups: seq<DocumentSummary>) {
    forall j :: 0 <= j < |groups| ==>
      && groups[j].documentId in ChunkDocumentIds(metas)
      && groups[j].filename == Get(FirstChunk(metas, groups[j].documentId), "filename", UnknownField)
      && groups[j].processedAt == Get(FirstChunk(metas, groups[j].documentId), "processed_at", MNone)
  }

  /** The summaries are ordered by where their documents first appear. */
  ghost predicate InFirstSeenOrder(metas: seq<Metadata>, groups: seq<DocumentSummary>)
    requires forall j :: 0 <= j < |groups| ==> groups[j].documentId in ChunkDocumentIds(metas)
  {
    forall i, j :: 0 <= i < j < |groups| ==>
      FirstIndex(ChunkDocumentIds(metas), groups[i].documentId) < FirstIndex(ChunkDocumentIds(metas), groups[j].documentId)
  }

  lemma AbsorbFromFirstChunks(init: seq<Metadata>, m: Metadata, prev: seq<DocumentSummary>)
    requires FromFirstChunks(init, prev)
    requires forall x :: x in SummaryIds(prev) <==> x in ChunkDocumentIds(init)
    ensures FromFirstChunks(init + [m], Absorb(prev, m))
  {
    var metas := init + [m];
    var groups := Absorb(prev, m);
    forall j | 0 <= j < |prev|
      ensures prev[j].documentId in ChunkDocumentIds(metas)
      ensures FirstChunk(metas, prev[j].documentId) == FirstChunk(init, prev[j].documentId)
    {
      FirstChunkStays(init, m, prev[j].documentId);
    }
    if DocumentIdOf(m) !in SummaryIds(prev) {
      NewDocumentStartsHere(init, m);
      assert groups[|prev|] == FirstSummary(m);
    }
  }

  lemma AbsorbInFirstSeenOrder(init: seq<Metadata>, m: Metadata, prev: seq<DocumentSummary>)
    requires FromFirstChunks(init, prev) && InFirstSeenOrder(init, prev)
    requires forall x :: x in SummaryIds(prev) <==> x in ChunkDocumentIds(init)
    ensures FromFirstChunks(init + [m], Absorb(prev, m))
    ensures InFirstSeenOrder(init + [m], Absorb(prev, m))
  {
    AbsorbFromFirstChunks(init, m, prev);
    var metas := init + [m];
    forall j | 0 <= j < |prev|
      ensures prev[j].documentId in ChunkDocumentIds(metas)
      ensures FirstIndex(ChunkDocumentIds(metas), prev[j].documentId) == FirstIndex(ChunkDocumentIds(init), prev[j].documentId)
    {
      FirstChunkStays(init, m, prev[j].documentId);
    }
    var groups, ids := Absorb(prev, m), ChunkDocumentIds(metas);
    if DocumentIdOf(m) in SummaryIds(prev) {
      assert forall j :: 0 <= j < |prev| ==> groups[j].documentId == prev[j].documentId;
    } else {
      NewDocumentStartsHere(init, m);
      forall i, j | 0 <= i < j < |groups|
        ensures FirstIndex(ids, groups[i].documentId) < FirstIndex(ids, groups[j].documentId)
      {
        if j == |prev| {
          assert FirstIndex(ids, groups[i].documentId) < |init|;
        }
      }
    }
  }

  /**
   * The summaries come in the order their documents first appear, and
   * each takes its filename and `processed_at` from its document's first
   * chunk.
   */
  lemma {:induction false} GroupFirstSeen(metas: seq<Metadata>)
    ensures FromFirstChunks(metas, Group(metas))
    ensures InFirstSeenOrder(metas, Group(metas))
    decreases |metas|
  {
    if metas != [] {
      var init := metas[..|metas| - 1];
      var m := metas[|metas| - 1];
      assert metas == init + [m];
      GroupFirstSeen(init);
      GroupSnoc(init, m);
      AbsorbInFirstSeenOrder(init, m, Group(init));
    }
  }

  class VectorStore {
    /** The collection's contents, oldest first. */
    var entries: seq<Entry>
    /** How many times the collection has been persisted. */
    var persists: nat
    const threshold: real

    /** Chroma keys the collection by id: no two entries share one. */
    predicate Valid()
      reads this
    {
      UniqueIds(entries)
    }

    /** The store over the persisted collection, which holds `initial`. */
    constructor (initial: seq<Entry>, threshold: real)
      requires UniqueIds(initial)
      ensures Valid() && entries == initial && persists == 0 && this.threshold == threshold
    {
      entries := initial;
      persists := 0;
      this.threshold := threshold;
    }

    /**
     * `add_documents`. `newId(i)` is the UUID drawn for the `i`-th document
     * when it has no `chunk_id`; `batchAccepts` says whether Chroma takes
     * the batch, which it never does when two documents share an id, and
     * `accepts(i)` whether adding the `i`-th document alone succeeds.
     */
    method AddDocuments(documents: seq<Document>, newId: nat -> string, batchAccepts: bool, accepts: nat -> bool)
      returns (r: Result<seq<MetaValue>>)
      requires Valid()
      modifies this`entries, this`persists, documents`metadata
      ensures Valid()
      ensures documents == [] ==> r == Ok([]) && entries == old(entries) && persists == old(persists)
      ensures forall d :: d in documents ==> d.metadata == Stamped(old(d.metadata), newId(FirstIndex(documents, d)))
      ensures forall d :: d in documents ==> d.pageContent == old(d.pageContent)
      ensures documents != [] && batchAccepts && DistinctIds(ChunkIds(documents)) ==>
                var ids := ChunkIds(documents);
                r == Ok(ids) && entries == UpsertAll(old(entries), Entries(documents, ids)) && persists == old(persists) + 1
      ensures documents != [] && !(batchAccepts && DistinctIds(ChunkIds(documents))) ==>
                var ids := ChunkIds(documents);
                var added := Accepted(ids, accepts);
                && entries == UpsertAll(old(entries), Accepted(Entries(documents, ids), accepts))
                && (added != [] ==> r == Ok(added) && persists == old(persists) + 1)
                && (added == [] ==> r == Raised(NothingAdded) && persists == old(persists))
    {
      if documents == [] {
        return Ok([]);
      }
      var ids := StampIds(documents, newId);
      r := Store(documents, ids, batchAccepts, accepts);
    }

    /** The `try` block of `add_documents` once every document has its id: the batch, or the fallback. */
    method Store(documents: seq<Document>, ids: seq<MetaValue>, batchAccepts: bool, accepts: nat -> bool)
      returns (r: Result<seq<MetaValue>>)
      requires |ids| == |documents| && Valid()
      modifies this`entries, this`persists
      ensures Valid()
      ensures batchAccepts && DistinctIds(ids) ==>
                r == Ok(ids) && entries == UpsertAll(old(entries), Entries(documents, ids)) && persists == old(persists) + 1
      ensures !(batchAccepts && DistinctIds(ids)) ==>
                var added := Accepted(ids, accepts);
                && entries == UpsertAll(old(entries), Accepted(Entries(documents, ids), accepts))
                && (added != [] ==> r == Ok(added) && persists == old(persists) + 1)
                && (added == [] ==> r == Raised(NothingAdded) && persists == old(persists))
    {
      if batchAccepts && DistinctIds(ids) {
        UpsertAllUnique(entries, Entries(documents, ids));
        entries := UpsertAll(entries, Entries(documents, ids));
        persists := persists + 1;
        r := Ok(ids);
      } else {
        r := AddFallback(documents, ids, accepts);
      }
    }

    /** The `except` branch of `add_documents`: one add per document, then persist if any went in. */
    method AddFallback(documents: seq<Document>, ids: seq<MetaValue>, accepts: nat -> bool)
      returns (r: Result<seq<MetaValue>>)
      requires |ids| == |documents| && Valid()
      modifies this`entries, this`persists
      ensures Valid()
      ensures var added := Accepted(ids, accepts);
              && entries == UpsertAll(old(entries), Accepted(Entries(documents, ids), accepts))
              && (added != [] ==> r == Ok(added) && persists == old(persists) + 1)
              && (added == [] ==> r == Raised(NothingAdded) && persists == old(persists))
    {
      UpsertAllUnique(entries, Accepted(Entries(documents, ids), accepts));
      var added := AddOneByOne(documents, ids, accepts);
      if added != [] {
        persists := persists + 1;
        r := Ok(added);
      } else {
        r := Raised(NothingAdded);
      }
    }

    /** One step of that loop: a document without a `chunk_id` gets the fresh one. */
    static method StampOne(d: Document, newId: string) returns (id: MetaValue)
      modifies d`metadata
      ensures d.metadata == Stamped(old(d.metadata), newId) && id == d.metadata["chunk_id"]
    {
      if "chunk_id" !in d.metadata {
        d.metadata := d.metadata["chunk_id" := MStr(newId)];
      }
      id := d.metadata["chunk_id"];
    }

    /** The first loop of `add_documents`: give each document a `chunk_id` if it has none, and collect them. */
    method StampIds(documents: seq<Document>, newId: nat -> string) returns (ids: seq<MetaValue>)
      modifies documents`metadata
      ensures ids == ChunkIds(documents)
      ensures forall d :: d in documents ==> d.metadata == Stamped(old(d.metadata), newId(FirstIndex(documents, d)))
    {
      ids := [];
      ghost var seen: set<Document> := {};
      for i := 0 to |documents|
        invariant |ids| == i
        invariant forall d {:trigger d in seen} :: d in seen ==>
                    d in documents && FirstIndex(documents, d) < i
                    && d.metadata == Stamped(old(d.metadata), newId(FirstIndex(documents, d)))
        invariant forall d {:trigger d in documents} :: d in documents && d !in seen ==> d.metadata == old(d.metadata)
        invariant forall j :: 0 <= j < i ==>
                    documents[j] in seen && "chunk_id" in documents[j].metadata
                    && ids[j] == documents[j].metadata["chunk_id"]
      {
        var d := documents[i];
        if d !in seen {
          assert d !in documents[..i];
          FirstIndexUnique(documents, d, i);
          seen := seen + {d};
        }
        var id := StampOne(d, newId(i));
        ids := ids + [id];
      }
    }

    /** The fallback loop of `add_documents`: each document alone, keeping the ids that went in. */
    method AddOneByOne(documents: seq<Document>, ids: seq<MetaValue>, accepts: nat -> bool)
      returns (added: seq<MetaValue>)
      requires |ids| == |documents|
      modifies this`entries
      ensures added == Accepted(ids, accepts)
      ensures entries == UpsertAll(old(entries), Accepted(Entries(documents, ids), accepts))
    {
      added := [];
      ghost var all := Entries(documents, ids);
      for i := 0 to |documents|
        invariant added == Accepted(ids[..i], accepts)
        invariant entries == UpsertAll(old(entries), Accepted(all[..i], accepts))
      {
        assert ids[..i + 1][..i] == ids[..i] && all[..i + 1][..i] == all[..i];
        if accepts(i) {
          ghost var done := Accepted(all[..i], accepts);
          assert (done + [all[i]])[..|done|] == done;
          assert Accepted(all[..i + 1], accepts) == done + [all[i]];
          assert all[i] == Entry(ids[i], documents[i].pageContent, documents[i].metadata);
          assert UpsertAll(old(entries), done + [all[i]]) == Upsert(UpsertAll(old(entries), done), all[i]);
          entries := Upsert(entries, Entry(ids[i], documents[i].pageContent, documents[i].metadata));
          added := added + [ids[i]];
        } else {
          assert Accepted(all[..i + 1], accepts) == Accepted(all[..i], accepts);
        }
      }
      assert ids[..|documents|] == ids && all[..|documents|] == all;
    }

    /** `similarity_search_with_score`: the search's hits above the threshold, or its exception. */
    method SimilaritySearchWithScore(query: string, k: int, search: (string, int) -> Result<seq<Scored>>)
      returns (r: Result<seq<Scored>>)
      ensures search(query, k).Raised? ==> r == Raised(search(query, k).message)
      ensures search(query, k).Ok? ==> r == Ok(AboveThreshold(search(query, k).value, threshold))
    {
      match search(query, k)
      case Raised(message) => r := Raised(message);
      case Ok(hits) => r := Ok(AboveThreshold(hits, threshold));
    }

    /**
     * `delete_documents_by_metadata`. `failure` is the exception reading or
     * deleting from the collection raises, if any: it is re-raised and the
     * collection is left as it was. Otherwise the result is `True` iff
     * some entry matched, and the matching ids are gone.
     */
    method DeleteDocumentsByMetadata(filter: Metadata, failure: Option<string>) returns (r: Result<bool>)
      requires Valid()
      modifies this`entries
      ensures Valid()
      ensures failure.Some? ==> r == Raised(failure.value) && entries == old(entries)
      ensures failure.None? ==>
                && r.Ok?
                && (r.value <==> exists i :: 0 <= i < |old(entries)| && Matches(old(entries)[i].metadata, filter))
                && entries == WithoutIds(old(entries), MatchingIds(old(entries), filter))
                && entries == Filter(old(entries), (e: Entry) => !Matches(e.metadata, filter))
    {
      if failure.Some? {
        return Raised(failure.value);
      }
      var ids := MatchingIds(entries, filter);
      MatchingIdsEmpty(entries, filter);
      DeleteRemovesExactlyMatches(entries, filter);
      FilterKeepsUnique(entries, (e: Entry) => e.id !in ids);
      if ids != [] {
        entries := WithoutIds(entries, ids);
        r := Ok(true);
      } else {
        FilterKeepsAll(entries, (e: Entry) => e.id !in ids);
        r := Ok(false);
      }
    }

    /** `delete_document_by_id`: the deletion of every chunk whose `document_id` is the given one. */
    method DeleteDocumentById(documentId: string, failure: Option<string>) returns (r: Result<bool>)
      requires Valid()
      modifies this`entries
      ensures Valid()
      ensures failure.Some? ==> r == Raised(failure.value) && entries == old(entries)
      ensures failure.None? ==>
                var filter := map["document_id" := MStr(documentId)];
                && r.Ok?
                && (r.value <==> exists i :: 0 <= i < |old(entries)| && Matches(old(entries)[i].metadata, filter))
                && entries == Filter(old(entries), (e: Entry) => !Matches(e.metadata, filter))
    {
      r := DeleteDocumentsByMetadata(map["document_id" := MStr(documentId)], failure);
    }

    /** `results['metadatas']`: every entry's metadata, in order. */
    function Metadatas(): (metas: seq<Metadata>)
      reads this
      ensures |metas| == |entries| && forall i :: 0 <= i < |entries| ==> metas[i] == entries[i].metadata
    {
      seq(|entries|, i requires 0 <= i < |entries| reads this => entries[i].metadata)
    }

    /** `list_documents`; `readable` is false when reading the collection raises. */
    method ListDocuments(readable: bool) returns (r: seq<DocumentSummary>)
      ensures r == if readable then Group(Metadatas()) else []
    {
      if !readable {
        return [];
      }
      r := GroupChunks(Metadatas());
    }
  }
}
