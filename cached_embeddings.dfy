/**
 * `CachedEmbeddings`: wraps an embedding provider so that every text is
 * first looked up in the embedding table of the response cache, and only
 * the texts the cache misses are sent to the provider, in one batch.
 *
 * The provider is a function parameter; a provider error is the
 * `BatchFailed` / `QueryFailed` reply and propagates to the caller. The
 * texts each provider call received are kept in ghost logs.
 */
module Embeddings {
  import opened Wrappers
  import opened CacheTables
  import opened Cache
  import Text

  /** What `base_embeddings.embed_documents(texts)` does: vectors, or an exception. */
  datatype BatchReply = Vectors(vectors: seq<Vector>) | BatchFailed(message: string)

  /** What `base_embeddings.embed_query(text)` does. */
  datatype QueryReply = Embedded(vector: Vector) | QueryFailed(message: string)

  /** The primary key of `text` under `model`. */
  function Key(digest: string -> string, text: string, model: string): string {
    digest(KeyText(text, model))
  }

  /** What `get_embedding_cache` answers for each text, all against the table `t`. */
  function ReadAll(t: EmbeddingTable, digest: string -> string, texts: seq<string>, model: string,
                   ttl: int, now: int): seq<Option<Vector>>
  {
    seq(|texts|, i requires 0 <= i < |texts| => EmbeddingRead(t, Key(digest, texts[i], model), model, ttl, now))
  }

  /** The positions the cache missed, in increasing order (`indices_to_embed`). */
  function Misses(answers: seq<Option<Vector>>): seq<nat>
    decreases |answers|
  {
    if answers == [] then []
    else Misses(answers[..|answers| - 1]) + (if answers[|answers| - 1].None? then [|answers| - 1] else [])
  }

  /** The texts the cache missed, in order (`texts_to_embed`). */
  function MissTexts(texts: seq<string>, answers: seq<Option<Vector>>): seq<string>
    requires |texts| == |answers|
    decreases |answers|
  {
    if answers == [] then []
    else
      var n := |answers| - 1;
      MissTexts(texts[..n], answers[..n]) + (if answers[n].None? then [texts[n]] else [])
  }

  /** How many misses precede position `i`: the place of a missed text in the provider's batch. */
  function Rank(answers: seq<Option<Vector>>, i: nat): nat
    requires i <= |answers|
  {
    |Misses(answers[..i])|
  }

  /** Position `i` of the result once the first `n` provider vectors have been placed. */
  function Filled(answers: seq<Option<Vector>>, vecs: seq<Vector>, n: nat, i: nat): Option<Vector>
    requires n <= |vecs| && i < |answers|
  {
    if answers[i].Some? then answers[i]
    else if Rank(answers, i) < n then Some(vecs[Rank(answers, i)])
    else None
  }

  /**
   * The list `embed_documents` returns: cached vectors where the cache hit,
   * the provider's vectors in order where it missed, and `None` where the
   * provider returned fewer vectors than it was sent texts (`zip` stops at
   * the shorter list).
   */
  function Merged(answers: seq<Option<Vector>>, vecs: seq<Vector>): seq<Option<Vector>> {
    seq(|answers|, i requires 0 <= i < |answers| => Filled(answers, vecs, |vecs|, i))
  }

  function Min(a: nat, b: nat): nat {
    if a < b then a else b
  }

  /** The table after a read of each text in turn. */
  function ProbeAll(t: EmbeddingTable, digest: string -> string, texts: seq<string>, model: string,
                    ttl: int, now: int): EmbeddingTable
    decreases |texts|
  {
    if texts == [] then t
    else
      var n := |texts| - 1;
      Probe(ProbeAll(t, digest, texts[..n], model, ttl, now), Key(digest, texts[n], model), model, ttl, now)
  }

  /** The table after `set_embedding_cache` of the first `n` (text, vector) pairs. */
  function StoreAll(t: EmbeddingTable, digest: string -> string, model: string, now: int,
                    texts: seq<string>, vecs: seq<Vector>, n: nat): EmbeddingTable
    requires n <= |texts| && n <= |vecs|
    decreases n
  {
    if n == 0 then t
    else
      Put(StoreAll(t, digest, model, now, texts, vecs, n - 1), Key(digest, texts[n - 1], model),
          Text.Take(texts[n - 1], TextKept), Encoded(vecs[n - 1]), model, now)
  }

  /** The two tables hold the same rows apart from the access columns. */
  predicate SameContent(t: EmbeddingTable, u: EmbeddingTable) {
    && t.Keys == u.Keys
    && forall k :: k in t ==> t[k].payload == u[k].payload && t[k].modelName == u[k].modelName
                              && t[k].createdAt == u[k].createdAt && t[k].stem == u[k].stem
  }

  /** A freshly written row: this model, this instant, a decodable vector. */
  predicate Fresh(r: Row<Stored<Vector>>, model: string, now: int) {
    r.modelName == model && r.createdAt == now && r.payload.Encoded?
  }

  // ---- Miss bookkeeping ---------------------------------------------------

  /**
   * The misses are the positions whose read was `None`, in strictly
   * increasing order, and the rank of a missed position is its place
   * among them.
   */
  lemma {:induction false} MissesIndexing(answers: seq<Option<Vector>>)
    ensures var m := Misses(answers);
            && |m| <= |answers|
            && (forall j :: 0 <= j < |m| ==> m[j] < |answers| && answers[m[j]].None?)
            && (forall j, k :: 0 <= j < k < |m| ==> m[j] < m[k])
            && (forall i :: 0 <= i < |answers| && answers[i].None? ==> Rank(answers, i) < |m| && m[Rank(answers, i)] == i)
            && (forall j :: 0 <= j < |m| ==> Rank(answers, m[j]) == j)
    decreases |answers|
  {
    if answers != [] {
      var n := |answers| - 1;
      var p := answers[..n];
      MissesIndexing(p);
      var m, mp := Misses(answers), Misses(p);
      assert forall i :: 0 <= i < n ==> answers[..i] == p[..i];
      assert answers[..n] == p;
      forall i | 0 <= i < |answers| && answers[i].None?
        ensures Rank(answers, i) < |m| && m[Rank(answers, i)] == i
      {
        if i < n {
          assert Rank(answers, i) == Rank(p, i);
        }
      }
      forall j | 0 <= j < |m|
        ensures Rank(answers, m[j]) == j
      {
        if j < |mp| {
          assert m[j] == mp[j] && Rank(answers, mp[j]) == Rank(p, mp[j]);
        }
      }
    }
  }

  /** The batch sent to the provider lists the missed texts in the order of their positions. */
  lemma {:induction false} MissTextsAt(texts: seq<string>, answers: seq<Option<Vector>>)
    requires |texts| == |answers|
    ensures |MissTexts(texts, answers)| == |Misses(answers)|
    ensures forall j :: 0 <= j < |Misses(answers)| ==>
              Misses(answers)[j] < |texts| && MissTexts(texts, answers)[j] == texts[Misses(answers)[j]]
    decreases |answers|
  {
    if answers != [] {
      var n := |answers| - 1;
      MissTextsAt(texts[..n], answers[..n]);
      MissesIndexing(answers[..n]);
    }
  }

  // ---- The table after a batch ---------------------------------------------

  /** Reads only update the access columns, so they never change what a later read returns. */
  lemma {:induction false} ProbeAllSameContent(t: EmbeddingTable, digest: string -> string, texts: seq<string>,
                                               model: string, ttl: int, now: int)
    ensures SameContent(t, ProbeAll(t, digest, texts, model, ttl, now))
    decreases |texts|
  {
    if texts != [] {
      ProbeAllSameContent(t, digest, texts[..|texts| - 1], model, ttl, now);
    }
  }

  lemma SameContentSameRead(t: EmbeddingTable, u: EmbeddingTable, key: string, model: string, ttl: int, now: int)
    requires SameContent(t, u)
    ensures EmbeddingRead(t, key, model, ttl, now) == EmbeddingRead(u, key, model, ttl, now)
  {
  }

  /** The writes keep every existing key, each either as it was or overwritten by a fresh row. */
  lemma {:induction false} StoreAllKeeps(t: EmbeddingTable, digest: string -> string, model: string, now: int,
                                         texts: seq<string>, vecs: seq<Vector>, n: nat, k: string)
    requires n <= |texts| && n <= |vecs|
    requires k in t
    ensures var u := StoreAll(t, digest, model, now, texts, vecs, n);
            k in u && (u[k] == t[k] || Fresh(u[k], model, now))
    decreases n
  {
    if n > 0 {
      StoreAllKeeps(t, digest, model, now, texts, vecs, n - 1, k);
    }
  }

  /** Every pair written leaves a fresh row under its text's key, whatever is written after it. */
  lemma {:induction false} StoreAllWrites(t: EmbeddingTable, digest: string -> string, model: string, now: int,
                                          texts: seq<string>, vecs: seq<Vector>, n: nat, j: nat)
    requires n <= |texts| && n <= |vecs|
    requires j < n
    ensures var u := StoreAll(t, digest, model, now, texts, vecs, n);
            var k := Key(digest, texts[j], model);
            k in u && Fresh(u[k], model, now)
    decreases n
  {
    if j < n - 1 {
      StoreAllWrites(t, digest, model, now, texts, vecs, n - 1, j);
    }
  }

  /** A list of answers without a `None` has no misses. */
  lemma {:induction false} NoMisses(answers: seq<Option<Vector>>)
    requires forall i :: 0 <= i < |answers| ==> answers[i].Some?
    ensures Misses(answers) == []
    decreases |answers|
  {
    if answers != [] {
      NoMisses(answers[..|answers| - 1]);
    }
  }

  // ---- Properties of the merged result -------------------------------------

  /** Where the cache hit, the result is the cached vector. */
  lemma MergedKeepsHits(answers: seq<Option<Vector>>, vecs: seq<Vector>, i: nat)
    requires i < |answers| && answers[i].Some?
    ensures |Merged(answers, vecs)| == |answers| && Merged(answers, vecs)[i] == answers[i]
  {
  }

  /** The provider's `j`-th vector lands at the position of the `j`-th miss. */
  lemma MergedPlacesVectors(answers: seq<Option<Vector>>, vecs: seq<Vector>, j: nat)
    requires j < |Misses(answers)| && j < |vecs|
    ensures Misses(answers)[j] < |answers| && Merged(answers, vecs)[Misses(answers)[j]] == Some(vecs[j])
  {
    MissesIndexing(answers);
  }

  /** When the provider answers every text it was sent, no position is left empty. */
  lemma MergedComplete(answers: seq<Option<Vector>>, vecs: seq<Vector>)
    requires |vecs| >= |Misses(answers)|
    ensures forall i :: 0 <= i < |Merged(answers, vecs)| ==> Merged(answers, vecs)[i].Some?
  {
    MissesIndexing(answers);
  }

  /** With nothing missed, the result is the list of cached vectors. */
  lemma MergedNoMisses(answers: seq<Option<Vector>>, vecs: seq<Vector>)
    requires Misses(answers) == []
    ensures Merged(answers, vecs) == answers
  {
    MissesIndexing(answers);
  }

  /**
   * Once a batch has been answered in full, repeating it at the same
   * instant finds every text in the cache: no text goes to the provider
   * twice.
   */
  lemma RepeatIsAllHits(t: EmbeddingTable, digest: string -> string, texts: seq<string>, model: string,
                        ttl: int, now: int, vecs: seq<Vector>)
    requires ttl > 0
    requires |vecs| >= |MissTexts(texts, ReadAll(t, digest, texts, model, ttl, now))|
    ensures var answers := ReadAll(t, digest, texts, model, ttl, now);
            var misses := MissTexts(texts, answers);
            var u := StoreAll(ProbeAll(t, digest, texts, model, ttl, now), digest, model, now,
                              misses, vecs, |misses|);
            Misses(ReadAll(u, digest, texts, model, ttl, now)) == []
  {
    var answers := ReadAll(t, digest, texts, model, ttl, now);
    var misses := MissTexts(texts, answers);
    var u := StoreAll(ProbeAll(t, digest, texts, model, ttl, now), digest, model, now, misses, vecs, |misses|);
    var again := ReadAll(u, digest, texts, model, ttl, now);
    forall i | 0 <= i < |texts|
      ensures again[i].Some?
    {
      RepeatHitAt(t, digest, texts, model, ttl, now, vecs, i);
    }
    NoMisses(again);
  }

  /** One text of the repeated batch: it was a hit and still is, or it was a miss and has just been written. */
  lemma RepeatHitAt(t: EmbeddingTable, digest: string -> string, texts: seq<string>, model: string,
                    ttl: int, now: int, vecs: seq<Vector>, i: nat)
    requires ttl > 0 && i < |texts|
    requires |vecs| >= |MissTexts(texts, ReadAll(t, digest, texts, model, ttl, now))|
    ensures var answers := ReadAll(t, digest, texts, model, ttl, now);
            var misses := MissTexts(texts, answers);
            var u := StoreAll(ProbeAll(t, digest, texts, model, ttl, now), digest, model, now,
                              misses, vecs, |misses|);
            EmbeddingRead(u, Key(digest, texts[i], model), model, ttl, now).Some?
  {
    var answers := ReadAll(t, digest, texts, model, ttl, now);
    var misses := MissTexts(texts, answers);
    var p := ProbeAll(t, digest, texts, model, ttl, now);
    var k := Key(digest, texts[i], model);
    if answers[i].Some? {
      ProbeAllSameContent(t, digest, texts, model, ttl, now);
      SameContentSameRead(t, p, k, model, ttl, now);
      KeptRowStaysHit(p, digest, model, now, misses, vecs, |misses|, k, ttl);
    } else {
      MissesIndexing(answers);
      MissTextsAt(texts, answers);
      var j := Rank(answers, i);
      assert misses[j] == texts[i];
      WrittenRowIsHit(p, digest, model, now, misses, vecs, |misses|, j, ttl);
    }
  }

  /** A key that read as a hit before the writes still does after them. */
  lemma KeptRowStaysHit(t: EmbeddingTable, digest: string -> string, model: string, now: int,
                        texts: seq<string>, vecs: seq<Vector>, n: nat, k: string, ttl: int)
    requires n <= |texts| && n <= |vecs| && ttl > 0
    requires EmbeddingRead(t, k, model, ttl, now).Some?
    ensures EmbeddingRead(StoreAll(t, digest, model, now, texts, vecs, n), k, model, ttl, now).Some?
  {
    StoreAllKeeps(t, digest, model, now, texts, vecs, n, k);
  }

  /** A key just written reads as a hit at the instant of the write. */
  lemma WrittenRowIsHit(t: EmbeddingTable, digest: string -> string, model: string, now: int,
                        texts: seq<string>, vecs: seq<Vector>, n: nat, j: nat, ttl: int)
    requires n <= |texts| && n <= |vecs| && j < n && ttl > 0
    ensures EmbeddingRead(StoreAll(t, digest, model, now, texts, vecs, n), Key(digest, texts[j], model),
                          model, ttl, now).Some?
  {
    StoreAllWrites(t, digest, model, now, texts, vecs, n, j);
  }

  // ---- One step of each loop of `embed_documents` ---------------------------

  /**
   * Reading the `i`-th text: the probed table answers as the original one
   * did, and the placeholders, miss indices, missed texts and probed table
   * each grow by that one read.
   */
  lemma ScanStep(t: EmbeddingTable, digest: string -> string, texts: seq<string>, model: string,
                 ttl: int, now: int, i: nat)
    requires i < |texts|
    ensures var answers := ReadAll(t, digest, texts, model, ttl, now);
            var key := Key(digest, texts[i], model);
            && EmbeddingRead(ProbeAll(t, digest, texts[..i], model, ttl, now), key, model, ttl, now) == answers[i]
            && ProbeAll(t, digest, texts[..i + 1], model, ttl, now)
               == Probe(ProbeAll(t, digest, texts[..i], model, ttl, now), key, model, ttl, now)
            && answers[..i + 1] == answers[..i] + [answers[i]]
            && Misses(answers[..i + 1]) == Misses(answers[..i]) + (if answers[i].None? then [i] else [])
            && MissTexts(texts[..i + 1], answers[..i + 1])
               == MissTexts(texts[..i], answers[..i]) + (if answers[i].None? then [texts[i]] else [])
  {
    var answers := ReadAll(t, digest, texts, model, ttl, now);
    ProbeAllSameContent(t, digest, texts[..i], model, ttl, now);
    SameContentSameRead(t, ProbeAll(t, digest, texts[..i], model, ttl, now), Key(digest, texts[i], model),
                        model, ttl, now);
    assert answers[..i + 1][..i] == answers[..i];
    assert texts[..i + 1][..i] == texts[..i];
  }

  /**
   * Placing the `j`-th provider vector: it goes to the `j`-th missed
   * position, which holds the `j`-th missed text, and no other position
   * changes.
   */
  lemma PlaceStep(texts: seq<string>, answers: seq<Option<Vector>>, vecs: seq<Vector>, j: nat)
    requires |texts| == |answers|
    requires j < |Misses(answers)| && j < |vecs|
    ensures Misses(answers)[j] < |answers|
    ensures |MissTexts(texts, answers)| == |Misses(answers)|
    ensures MissTexts(texts, answers)[j] == texts[Misses(answers)[j]]
  {
    MissesIndexing(answers);
    MissTextsAt(texts, answers);
  }

  /** Placing the `j`-th provider vector changes position `k` only if `k` is the `j`-th miss. */
  lemma PlaceStepAt(answers: seq<Option<Vector>>, vecs: seq<Vector>, j: nat, k: nat)
    requires j < |Misses(answers)| && j < |vecs| && k < |answers|
    ensures Filled(answers, vecs, j + 1, k)
            == if k == Misses(answers)[j] then Some(vecs[j]) else Filled(answers, vecs, j, k)
  {
    MissesIndexing(answers);
    var m := Misses(answers);
    if answers[k].None? && k != m[j] {
      assert m[Rank(answers, k)] == k;
    }
  }

  /** Once `zip` has run out, the placed list is the merged result. */
  lemma PlaceEnd(answers: seq<Option<Vector>>, vecs: seq<Vector>, n: nat)
    requires n == Min(|Misses(answers)|, |vecs|)
    ensures |Merged(answers, vecs)| == |answers|
    ensures forall k :: 0 <= k < |answers| ==> Filled(answers, vecs, n, k) == Merged(answers, vecs)[k]
  {
    MissesIndexing(answers);
  }

  // ---- Hit-rate arithmetic ----------------------------------------------------

  /** The counters of `get_cache_stats`; `cacheHitRate` is a percentage (the rounding to two places is not modelled). */
  datatype EmbeddingStats = EmbeddingStats(cacheHits: nat, apiCalls: nat, totalRequests: nat, cacheHitRate: real)

  function Stats(hits: nat, calls: nat): (s: EmbeddingStats)
    ensures s.cacheHits == hits && s.apiCalls == calls && s.totalRequests == hits + calls
    ensures 0.0 <= s.cacheHitRate <= 100.0
    ensures s.cacheHitRate == 0.0 <==> hits == 0
    ensures s.cacheHitRate == 100.0 <==> hits > 0 && calls == 0
  {
    var total := hits + calls;
    var rate := if total > 0 then hits as real / total as real * 100.0 else 0.0;
    if total > 0 then
      assert hits as real / total as real <= 1.0;
      assert calls > 0 ==> hits as real / total as real < 1.0;
      assert hits > 0 ==> hits as real / total as real > 0.0;
      EmbeddingStats(hits, calls, total, rate)
    else
      EmbeddingStats(hits, calls, total, rate)
  }

  class CachedEmbeddings {
    const cache: CacheManager
    const modelName: string
    var cacheHits: nat
    var apiCalls: nat
    /** The batches `embed_documents` sent to the provider, oldest first. */
    ghost var batchRequests: seq<seq<string>>
    /** The texts `embed_query` sent to the provider, oldest first. */
    ghost var queryRequests: seq<string>

    constructor (cache: CacheManager, modelName: string)
      ensures this.cache == cache && this.modelName == modelName
      ensures cacheHits == 0 && apiCalls == 0 && batchRequests == [] && queryRequests == []
    {
      this.cache := cache;
      this.modelName := modelName;
      cacheHits := 0;
      apiCalls := 0;
      batchRequests := [];
      queryRequests := [];
    }

    /**
     * `embed_documents(texts)`: each text is read from the cache in order;
     * the misses go to the provider in one batch (none when every text
     * hit); the vectors it returns are placed at the missed positions and
     * written back. A provider error propagates after the hits were counted
     * and before anything was written.
     */
    method EmbedDocuments(texts: seq<string>, provider: seq<string> -> BatchReply, now: int)
      returns (r: Result<seq<Option<Vector>>>)
      modifies this`cacheHits, this`apiCalls, this`batchRequests, cache`embeddings
      ensures var answers := ReadAll(old(cache.embeddings), cache.digest, texts, modelName, cache.embeddingTtl, now);
              var misses := MissTexts(texts, answers);
              var probed := ProbeAll(old(cache.embeddings), cache.digest, texts, modelName, cache.embeddingTtl, now);
              && cacheHits == old(cacheHits) + |texts| - |misses|
              && batchRequests == old(batchRequests) + (if misses == [] then [] else [misses])
              && queryRequests == old(queryRequests)
              && (misses == [] ==> r == Ok(answers) && apiCalls == old(apiCalls) && cache.embeddings == probed)
              && (misses != [] && provider(misses).BatchFailed? ==>
                    r == Raised(provider(misses).message) && apiCalls == old(apiCalls) && cache.embeddings == probed)
              && (misses != [] && provider(misses).Vectors? ==>
                    var vecs := provider(misses).vectors;
                    && r == Ok(Merged(answers, vecs))
                    && apiCalls == old(apiCalls) + |misses|
                    && cache.embeddings == StoreAll(probed, cache.digest, modelName, now, misses, vecs,
                                                    Min(|misses|, |vecs|)))
    {
      var embeddings, textsToEmbed, indicesToEmbed := LookUp(texts, now);
      if textsToEmbed == [] {
        return Ok(embeddings);
      }
      batchRequests := batchRequests + [textsToEmbed];
      var reply := provider(textsToEmbed);
      if reply.BatchFailed? {
        return Raised(reply.message);
      }
      apiCalls := apiCalls + |textsToEmbed|;
      embeddings := WriteBack(texts, embeddings, textsToEmbed, indicesToEmbed, reply.vectors, now);
      return Ok(embeddings);
    }

    /**
     * The cache pass of `embed_documents`: each text is read in turn, a
     * hit is counted and kept, a miss leaves a `None` placeholder and is
     * queued with its position.
     */
    method LookUp(texts: seq<string>, now: int)
      returns (embeddings: seq<Option<Vector>>, textsToEmbed: seq<string>, indicesToEmbed: seq<nat>)
      modifies this`cacheHits, cache`embeddings
      ensures var answers := ReadAll(old(cache.embeddings), cache.digest, texts, modelName, cache.embeddingTtl, now);
              && embeddings == answers
              && indicesToEmbed == Misses(answers)
              && textsToEmbed == MissTexts(texts, answers)
              && cacheHits == old(cacheHits) + |texts| - |textsToEmbed|
              && cache.embeddings == ProbeAll(old(cache.embeddings), cache.digest, texts, modelName,
                                              cache.embeddingTtl, now)
    {
      ghost var t0 := cache.embeddings;
      ghost var answers := ReadAll(t0, cache.digest, texts, modelName, cache.embeddingTtl, now);
      embeddings, textsToEmbed, indicesToEmbed := [], [], [];
      var i := 0;
      while i < |texts|
        invariant 0 <= i <= |texts|
        invariant embeddings == answers[..i]
        invariant indicesToEmbed == Misses(answers[..i])
        invariant textsToEmbed == MissTexts(texts[..i], answers[..i])
        invariant cacheHits == old(cacheHits) + i - |textsToEmbed|
        invariant cache.embeddings == ProbeAll(t0, cache.digest, texts[..i], modelName, cache.embeddingTtl, now)
      {
        ScanStep(t0, cache.digest, texts, modelName, cache.embeddingTtl, now, i);
        var cached := cache.GetEmbeddingCache(texts[i], modelName, now);
        if cached.Some? {
          embeddings := embeddings + [cached];
          cacheHits := cacheHits + 1;
        } else {
          embeddings := embeddings + [None];
          textsToEmbed := textsToEmbed + [texts[i]];
          indicesToEmbed := indicesToEmbed + [i];
        }
        i := i + 1;
      }
      assert answers[..|texts|] == answers && texts[..|texts|] == texts;
    }

    /**
     * The write-back pass: the `j`-th vector the provider returned replaces
     * the placeholder at the `j`-th missed position and is written to the
     * cache under the `j`-th missed text, for as many pairs as `zip` forms.
     */
    method WriteBack(texts: seq<string>, embeddings: seq<Option<Vector>>, textsToEmbed: seq<string>,
                     indicesToEmbed: seq<nat>, vecs: seq<Vector>, now: int)
      returns (placed: seq<Option<Vector>>)
      requires |embeddings| == |texts|
      requires indicesToEmbed == Misses(embeddings) && textsToEmbed == MissTexts(texts, embeddings)
      modifies cache`embeddings
      ensures placed == Merged(embeddings, vecs)
      ensures cache.embeddings == StoreAll(old(cache.embeddings), cache.digest, modelName, now, textsToEmbed, vecs,
                                           Min(|textsToEmbed|, |vecs|))
    {
      ghost var probed := cache.embeddings;
      MissTextsAt(texts, embeddings);
      placed := embeddings;
      var n := Min(|indicesToEmbed|, |vecs|);
      var j := 0;
      while j < n
        invariant 0 <= j <= n
        invariant |placed| == |embeddings|
        invariant forall k :: 0 <= k < |embeddings| ==> placed[k] == Filled(embeddings, vecs, j, k)
        invariant cache.embeddings == StoreAll(probed, cache.digest, modelName, now, textsToEmbed, vecs, j)
      {
        PlaceStep(texts, embeddings, vecs, j);
        var idx := indicesToEmbed[j];
        ghost var before := placed;
        placed := placed[idx := Some(vecs[j])];
        forall k | 0 <= k < |embeddings|
          ensures placed[k] == Filled(embeddings, vecs, j + 1, k)
        {
          PlaceStepAt(embeddings, vecs, j, k);
          if k != idx {
            assert placed[k] == before[k];
          }
        }
        cache.SetEmbeddingCache(texts[idx], vecs[j], modelName, now);
        j := j + 1;
      }
      PlaceEnd(embeddings, vecs, n);
    }

    /**
     * `embed_query(text)`: a cached vector is returned and counted as a
     * hit; otherwise the provider embeds the text, the call is counted and
     * the vector is written back. A provider error propagates uncounted.
     */
    method EmbedQuery(text: string, provider: string -> QueryReply, now: int) returns (r: Result<Vector>)
      modifies this`cacheHits, this`apiCalls, this`queryRequests, cache`embeddings
      ensures var key := Key(cache.digest, text, modelName);
              var hit := EmbeddingRead(old(cache.embeddings), key, modelName, cache.embeddingTtl, now);
              var probed := Probe(old(cache.embeddings), key, modelName, cache.embeddingTtl, now);
              && batchRequests == old(batchRequests)
              && (hit.Some? ==> r == Ok(hit.value) && cacheHits == old(cacheHits) + 1 && apiCalls == old(apiCalls)
                                && queryRequests == old(queryRequests) && cache.embeddings == probed)
              && (hit.None? ==> cacheHits == old(cacheHits) && queryRequests == old(queryRequests) + [text])
              && (hit.None? && provider(text).QueryFailed? ==>
                    r == Raised(provider(text).message) && apiCalls == old(apiCalls) && cache.embeddings == probed)
              && (hit.None? && provider(text).Embedded? ==>
                    r == Ok(provider(text).vector) && apiCalls == old(apiCalls) + 1
                    && cache.embeddings == Put(probed, key, Text.Take(text, TextKept),
                                               Encoded(provider(text).vector), modelName, now))
      ensures r.Ok? && cache.embeddingTtl > 0 ==>
                EmbeddingRead(cache.embeddings, Key(cache.digest, text, modelName), modelName,
                              cache.embeddingTtl, now) == Some(r.value)
    {
      var cached := cache.GetEmbeddingCache(text, modelName, now);
      if cached.Some? {
        cacheHits := cacheHits + 1;
        return Ok(cached.value);
      }
      queryRequests := queryRequests + [text];
      var reply := provider(text);
      if reply.QueryFailed? {
        return Raised(reply.message);
      }
      apiCalls := apiCalls + 1;
      cache.SetEmbeddingCache(text, reply.vector, modelName, now);
      return Ok(reply.vector);
    }

    /** `get_cache_stats()` of the wrapper: its own counters, not the table's. */
    function GetCacheStats(): (s: EmbeddingStats)
      reads this
      ensures s.cacheHits == cacheHits && s.apiCalls == apiCalls
      ensures s.totalRequests == cacheHits + apiCalls
      ensures 0.0 <= s.cacheHitRate <= 100.0
    {
      Stats(cacheHits, apiCalls)
    }
  }
}
