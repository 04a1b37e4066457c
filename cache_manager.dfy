/**
 * `CacheManager`: the persistent two-tier response cache. One table maps
 * the digest of `text:model` to an embedding vector; the other maps the
 * digest of `question:context_hash:model` to an answer and its sources.
 * Reads are filtered by model name and by age, and a hit updates the
 * access columns; writes are insert-or-replace; a sweep deletes old rows.
 *
 * The MD5 digest is the function value `digest` the manager is built
 * with: the model only relies on it being a function, so distinct key
 * strings may collide.
 */
module Cache {
  import opened Wrappers
  import opened CacheTables
  import SweepCutoff
  import Text

  /** One entry of an answer's `sources` (the `SourceDocument` response schema). */
  datatype SourceDocument = SourceDocument(documentName: string, content: string,
                                           similarityScore: real, pageNumber: Option<int>)

  /** The payload columns of `qa_cache`. */
  datatype QaColumns = QaColumns(contextHash: string, answer: string, sources: Stored<seq<SourceDocument>>)

  /** What a QA hit returns: `{"answer": ..., "sources": [...]}`. */
  datatype QaHit = QaHit(answer: string, sources: seq<SourceDocument>)

  type EmbeddingTable = Table<Stored<Vector>>
  type QaTable = Table<QaColumns>

  /** Seven days, the embedding TTL in seconds. */
  const EmbeddingTtl: int := 7 * 24 * 3600
  /** One day, the QA TTL in seconds. */
  const QaTtl: int := 1 * 24 * 3600
  /** Characters of the text kept in `text_content`. */
  const TextKept: nat := 500
  /** Characters of the question kept in `question`. */
  const QuestionKept: nat := 300
  /** Characters of each context snippet that enter the context fingerprint. */
  const SnippetKept: nat := 200

  /** The string `_get_text_hash` digests: `f"{text}:{model}"`. */
  function KeyText(text: string, model: string): string {
    text + ":" + model
  }

  /** The text under which a question is keyed: `f"{question}:{context_hash}"`. */
  function QaText(question: string, contextHash: string): string {
    question + ":" + contextHash
  }

  /** The value `get_embedding_cache` returns for the table as it stands. */
  function EmbeddingRead(t: EmbeddingTable, key: string, model: string, ttl: int, now: int): Option<Vector> {
    match Select(t, key, model, ttl, now)
    case Some(row) => if row.payload.Encoded? then Some(row.payload.value) else None
    case None => None
  }

  /** The value `get_qa_cache` returns: a blank `sources` column reads as no sources. */
  function QaRead(t: QaTable, key: string, model: string, ttl: int, now: int): Option<QaHit> {
    match Select(t, key, model, ttl, now)
    case Some(row) =>
      (match row.payload.sources
       case Encoded(s) => Some(QaHit(row.payload.answer, s))
       case Blank => Some(QaHit(row.payload.answer, []))
       case Garbled => None)
    case None => None
  }

  /** An item of the list given to `get_context_hash`. */
  datatype ContextItem =
    | WithPageContent(pageContent: string)   // a document object
    | PlainString(text: string)              // a bare `str`
    | Unsupported                            // anything else, skipped

  /** The first 200 characters of each usable item, in input order. */
  function Snippets(items: seq<ContextItem>): seq<string> {
    if items == [] then []
    else
      (match items[0]
       case WithPageContent(c) => [Text.Take(c, SnippetKept)]
       case PlainString(s) => [Text.Take(s, SnippetKept)]
       case Unsupported => [])
      + Snippets(items[1..])
  }

  /** The string `get_context_hash` digests: the sorted snippets joined by `|`. */
  function ContextText(items: seq<ContextItem>): string {
    Text.Join(Text.Sort(Snippets(items)), "|")
  }

  lemma {:induction false} SnippetsAppend(a: seq<ContextItem>, b: seq<ContextItem>)
    ensures Snippets(a + b) == Snippets(a) + Snippets(b)
    decreases |a|
  {
    if a == [] {
      assert a + b == b;
    } else {
      assert (a + b)[0] == a[0];
      assert (a + b)[1..] == a[1..] + b;
      SnippetsAppend(a[1..], b);
    }
  }

  /** Reordering the items does not change the multiset of snippets. */
  lemma {:induction false} SnippetsPermutation(a: seq<ContextItem>, b: seq<ContextItem>)
    requires multiset(a) == multiset(b)
    ensures multiset(Snippets(a)) == multiset(Snippets(b))
    decreases |a|
  {
    if a == [] {
      assert |multiset(b)| == 0;
    } else {
      assert a[0] in multiset(b);
      var i :| 0 <= i < |b| && b[i] == a[0];
      var b' := b[..i] + b[i + 1..];
      assert b == b[..i] + [b[i]] + b[i + 1..];
      assert a == [a[0]] + a[1..];
      assert multiset(a[1..]) == multiset(b') by {
        assert multiset(b) == multiset(b[..i]) + multiset{b[i]} + multiset(b[i + 1..]);
        assert multiset(a) == multiset{a[0]} + multiset(a[1..]);
        assert multiset(b') == multiset(b[..i]) + multiset(b[i + 1..]);
        assert multiset(b') == multiset(b) - multiset{a[0]};
        assert multiset(a[1..]) == multiset(a) - multiset{a[0]};
      }
      SnippetsPermutation(a[1..], b');
      SnippetsAppend([a[0]], a[1..]);
      SnippetsAppend(b[..i] + [b[i]], b[i + 1..]);
      SnippetsAppend(b[..i], [b[i]]);
      SnippetsAppend(b[..i], b[i + 1..]);
    }
  }

  /** The context fingerprint does not depend on the order in which the snippets were retrieved. */
  lemma ContextTextPermutationInvariant(a: seq<ContextItem>, b: seq<ContextItem>)
    requires multiset(a) == multiset(b)
    ensures ContextText(a) == ContextText(b)
  {
    SnippetsPermutation(a, b);
    Text.SortPermutationInvariant(Snippets(a), Snippets(b));
  }

  /** Only the first 200 characters of a snippet matter to the fingerprint. */
  lemma ContextTextIgnoresTail(c: string, d: string, rest: seq<ContextItem>)
    requires Text.Take(c, SnippetKept) == Text.Take(d, SnippetKept)
    ensures ContextText([WithPageContent(c)] + rest) == ContextText([PlainString(d)] + rest)
  {
    assert ([WithPageContent(c)] + rest)[1..] == rest;
    assert ([PlainString(d)] + rest)[1..] == rest;
  }

  class CacheManager {
    /** The digest applied to every key string (`hashlib.md5(...).hexdigest()`). */
    const digest: string -> string
    /** The two time-to-live lengths, fixed when the cache is opened. */
    const embeddingTtl: int
    const qaTtl: int
    var embeddings: EmbeddingTable
    var qa: QaTable

    /** Opens the cache over the rows the database already holds. */
    constructor (digest: string -> string, embeddings: EmbeddingTable, qa: QaTable)
      ensures this.digest == digest && this.embeddings == embeddings && this.qa == qa
      ensures embeddingTtl == EmbeddingTtl && qaTtl == QaTtl
    {
      this.digest := digest;
      this.embeddings := embeddings;
      this.qa := qa;
      embeddingTtl := EmbeddingTtl;
      qaTtl := QaTtl;
    }

    /** `_get_text_hash(text, model)`. */
    function TextHash(text: string, model: string): string {
      digest(KeyText(text, model))
    }

    /** The primary key of a QA row. */
    function QuestionHash(question: string, contextHash: string, model: string): string {
      TextHash(QaText(question, contextHash), model)
    }

    /** `get_context_hash(documents)`. */
    function GetContextHash(items: seq<ContextItem>): string {
      digest(ContextText(items))
    }

    method GetEmbeddingCache(text: string, model: string, now: int) returns (r: Option<Vector>)
      modifies this`embeddings
      ensures r == EmbeddingRead(old(embeddings), TextHash(text, model), model, embeddingTtl, now)
      ensures embeddings == Probe(old(embeddings), TextHash(text, model), model, embeddingTtl, now)
    {
      var key := TextHash(text, model);
      var row := Select(embeddings, key, model, embeddingTtl, now);
      r := None;
      if row.Some? {
        embeddings := Touch(embeddings, key, now);
        if row.value.payload.Encoded? {
          r := Some(row.value.payload.value);
        }
      }
    }

    method SetEmbeddingCache(text: string, vector: Vector, model: string, now: int)
      modifies this`embeddings
      ensures embeddings == Put(old(embeddings), TextHash(text, model), Text.Take(text, TextKept),
                                Encoded(vector), model, now)
    {
      embeddings := Put(embeddings, TextHash(text, model), Text.Take(text, TextKept), Encoded(vector), model, now);
    }

    method GetQaCache(question: string, contextHash: string, model: string, now: int) returns (r: Option<QaHit>)
      modifies this`qa
      ensures r == QaRead(old(qa), QuestionHash(question, contextHash, model), model, qaTtl, now)
      ensures qa == Probe(old(qa), QuestionHash(question, contextHash, model), model, qaTtl, now)
    {
      var key := QuestionHash(question, contextHash, model);
      var row := Select(qa, key, model, qaTtl, now);
      r := None;
      if row.Some? {
        qa := Touch(qa, key, now);
        var cols := row.value.payload;
        match cols.sources
        case Encoded(s) => r := Some(QaHit(cols.answer, s));
        case Blank => r := Some(QaHit(cols.answer, []));
        case Garbled =>
      }
    }

    method SetQaCache(question: string, contextHash: string, answer: string, sources: seq<SourceDocument>,
                      model: string, now: int)
      modifies this`qa
      ensures qa == Put(old(qa), QuestionHash(question, contextHash, model), Text.Take(question, QuestionKept),
                        QaColumns(contextHash, answer, Encoded(sources)), model, now)
    {
      qa := Put(qa, QuestionHash(question, contextHash, model), Text.Take(question, QuestionKept),
                QaColumns(contextHash, answer, Encoded(sources)), model, now);
    }

    /**
     * `cleanup_expired_cache` as it behaves: each table loses every row
     * created on or before the date of `now` minus its TTL (module
     * SweepCutoff). `CacheTables.Sweep` is the intended sweep.
     */
    method CleanupExpiredCache(now: int)
      modifies this`embeddings, this`qa
      ensures embeddings == SweepCutoff.SweepAsWritten(old(embeddings), now - embeddingTtl)
      ensures qa == SweepCutoff.SweepAsWritten(old(qa), now - qaTtl)
    {
      embeddings := SweepCutoff.SweepAsWritten(embeddings, now - embeddingTtl);
      qa := SweepCutoff.SweepAsWritten(qa, now - qaTtl);
    }

    method GetCacheStats() returns (embeddingStats: TableStats, qaStats: TableStats)
      ensures embeddingStats == Summary(embeddings)
      ensures qaStats == Summary(qa)
    {
      embeddingStats := Summarize(embeddings);
      qaStats := Summarize(qa);
    }
  }

  // ---- Properties of the key strings -----------------------------------

  /** Under one model, distinct texts give distinct key strings. */
  lemma KeyTextInjectiveForModel(t1: string, t2: string, model: string)
    requires KeyText(t1, model) == KeyText(t2, model)
    ensures t1 == t2
  {
    assert |t1| == |t2|;
    assert t1 == KeyText(t1, model)[..|t1|];
  }

  /** The same question under two context fingerprints gives two key strings. */
  lemma QaTextSeparatesContexts(question: string, h1: string, h2: string, model: string)
    requires h1 != h2
    ensures KeyText(QaText(question, h1), model) != KeyText(QaText(question, h2), model)
  {
    if |h1| == |h2| {
      var k := |question| + 1;
      var i :| 0 <= i < |h1| && h1[i] != h2[i];
      assert KeyText(QaText(question, h1), model)[k + i] == h1[i];
      assert KeyText(QaText(question, h2), model)[k + i] == h2[i];
    }
  }

  /** Across models the key string is ambiguous: `a:b` under `c` and `a` under `b:c` share it. */
  lemma KeyTextAmbiguousAcrossModels()
    ensures KeyText("a:b", "c") == KeyText("a", "b:c")
  {
  }

  // ---- Properties of the reads -----------------------------------------

  /** A read only returns a vector stored under the same key and the same model, in a live row. */
  lemma EmbeddingReadIsolation(t: EmbeddingTable, key: string, model: string, ttl: int, now: int)
    requires EmbeddingRead(t, key, model, ttl, now).Some?
    ensures key in t && t[key].modelName == model && Live(t[key], ttl, now)
    ensures t[key].payload == Encoded(EmbeddingRead(t, key, model, ttl, now).value)
  {
  }

  /** Round trip: put, then read with the same text and model within the TTL, gives the stored vector. */
  lemma EmbeddingRoundTrip(t: EmbeddingTable, digest: string -> string, text: string, model: string,
                           v: Vector, created: int, now: int)
    requires now < created + EmbeddingTtl
    ensures var key := digest(KeyText(text, model));
            EmbeddingRead(Put(t, key, Text.Take(text, TextKept), Encoded(v), model, created),
                          key, model, EmbeddingTtl, now) == Some(v)
  {
  }

  /** Round trip for answers: the stored answer and sources come back unchanged within the TTL. */
  lemma QaRoundTrip(t: QaTable, digest: string -> string, question: string, contextHash: string, model: string,
                    answer: string, sources: seq<SourceDocument>, created: int, now: int)
    requires now < created + QaTtl
    ensures var key := digest(KeyText(QaText(question, contextHash), model));
            QaRead(Put(t, key, Text.Take(question, QuestionKept), QaColumns(contextHash, answer, Encoded(sources)),
                       model, created), key, model, QaTtl, now) == Some(QaHit(answer, sources))
  {
  }

  /** What was stored under one model is never returned to a read under another, whatever the key. */
  lemma NoCrossModelRead(t: EmbeddingTable, key: string, stem: string, v: Vector, model1: string, model2: string,
                         created: int, ttl: int, now: int)
    requires model1 != model2
    ensures EmbeddingRead(Put(t, key, stem, Encoded(v), model1, created), key, model2, ttl, now) == None
  {
  }

  /**
   * Writes do not filter on the model: storing `a` under model `b:c`
   * replaces the row of `a:b` under model `c`, which then reads as a miss.
   */
  lemma AmbiguousWriteEvicts(t: EmbeddingTable, digest: string -> string, v: Vector, created: int, now: int)
    ensures var key := digest(KeyText("a:b", "c"));
            EmbeddingRead(Put(t, digest(KeyText("a", "b:c")), "a", Encoded(v), "b:c", created),
                          key, "c", EmbeddingTtl, now) == None
  {
    KeyTextAmbiguousAcrossModels();
  }

  /** An expired row is never returned, swept or not. */
  lemma ExpiredRowIsMiss(t: EmbeddingTable, key: string, model: string, ttl: int, now: int)
    requires key in t && t[key].createdAt + ttl <= now
    ensures EmbeddingRead(t, key, model, ttl, now) == None
  {
  }

  /**
   * A live row whose payload no longer decodes reads as a miss, yet the
   * read has already counted it as a hit.
   */
  lemma GarbledRowCountsButMisses(t: EmbeddingTable, key: string, model: string, ttl: int, now: int)
    requires key in t && t[key].modelName == model && Live(t[key], ttl, now) && t[key].payload == Garbled
    ensures EmbeddingRead(t, key, model, ttl, now) == None
    ensures Probe(t, key, model, ttl, now)[key].accessCount == t[key].accessCount + 1
  {
  }

  /** A hit adds exactly one to the row's access count and stamps its last access; nothing is deleted. */
  lemma HitBookkeeping<P>(t: Table<P>, key: string, model: string, ttl: int, now: int)
    requires Select(t, key, model, ttl, now).Some?
    ensures Probe(t, key, model, ttl, now).Keys == t.Keys
    ensures Probe(t, key, model, ttl, now)[key] ==
            t[key].(accessCount := t[key].accessCount + 1, lastAccessed := now)
  {
  }

  /** `n` hits after an insert leave the access count at `1 + n`. */
  lemma {:induction false} AccessCountAfterHits<P>(t: Table<P>, key: string, model: string, ttl: int,
                                                   stem: string, payload: P, created: int, nows: seq<int>)
    requires forall i :: 0 <= i < |nows| ==> nows[i] < created + ttl
    ensures var t' := ProbeMany(Put(t, key, stem, payload, model, created), key, model, ttl, nows);
            key in t' && t'[key].accessCount == 1 + |nows|
            && t'[key].payload == payload && t'[key].modelName == model && t'[key].createdAt == created
    decreases |nows|
  {
    if nows != [] {
      AccessCountAfterHits(t, key, model, ttl, stem, payload, created, nows[..|nows| - 1]);
    }
  }

  /** The table after a series of reads of one key at the given times. */
  function ProbeMany<P>(t: Table<P>, key: string, model: string, ttl: int, nows: seq<int>): Table<P>
    decreases |nows|
  {
    if nows == [] then t
    else Probe(ProbeMany(t, key, model, ttl, nows[..|nows| - 1]), key, model, ttl, nows[|nows| - 1])
  }
}
