/**
 * The arithmetic of the cost-optimisation endpoints: the savings estimate
 * added to the cache statistics, and the rule that turns the statistics
 * into recommendations. Both read one snapshot of the two tables'
 * `TableStats`; the dollar amounts are reals (the rounding to four and two
 * places is not modelled).
 */
module CostOptimization {
  import opened Wrappers
  import opened CacheTables

  /** Assumed price of one embedding call, in dollars. */
  const EmbeddingCallUsd: real := 0.0001
  /** Assumed price of one LLM call, in dollars. */
  const QaCallUsd: real := 0.001

  /** The `cost_savings` block. */
  datatype CostSavings = CostSavings(embeddingSavingsUsd: real, qaSavingsUsd: real, totalSavingsUsd: real,
                                     totalRequests: int, totalCacheHits: int)

  /** `get_cache_stats` of the cost API: every counted access of a row is priced as one saved call. */
  function CostSavingsOf(embedding: TableStats, qa: TableStats): CostSavings {
    var embeddingSavings := embedding.totalHits as real * EmbeddingCallUsd;
    var qaSavings := qa.totalHits as real * QaCallUsd;
    CostSavings(embeddingSavings, qaSavings, embeddingSavings + qaSavings,
                embedding.entries + qa.entries, embedding.totalHits + qa.totalHits)
  }

  /**
   * The totals add up the two tables, and the savings are the hits priced
   * per table. This only unfolds `CostSavingsOf` and works out the two
   * prices; how a read or a write moves the estimate is stated by
   * `QaHitSavesOneCall`, `EmbeddingHitSavesOneCall` and `InsertCountsAsSaving`.
   */
  lemma SavingsBreakdown(embedding: TableStats, qa: TableStats)
    ensures var c := CostSavingsOf(embedding, qa);
            && c.totalRequests == embedding.entries + qa.entries
            && c.totalCacheHits == embedding.totalHits + qa.totalHits
            && c.totalSavingsUsd == c.embeddingSavingsUsd + c.qaSavingsUsd
            && c.totalSavingsUsd * 10000.0 == (embedding.totalHits + 10 * qa.totalHits) as real
  {
  }

  /** A read that hits a cached answer adds exactly the price of one LLM call to the estimate. */
  lemma QaHitSavesOneCall<P, Q>(embeddings: Table<P>, qa: Table<Q>, key: string, model: string, ttl: int, now: int)
    requires Select(qa, key, model, ttl, now).Some?
    ensures CostSavingsOf(Summary(embeddings), Summary(Probe(qa, key, model, ttl, now))).totalSavingsUsd
            == CostSavingsOf(Summary(embeddings), Summary(qa)).totalSavingsUsd + QaCallUsd
  {
    TouchAddsOneHit(qa, key, now);
  }

  /** A read that hits a cached vector adds exactly the price of one embedding call to the estimate. */
  lemma EmbeddingHitSavesOneCall<P, Q>(embeddings: Table<P>, qa: Table<Q>, key: string, model: string, ttl: int,
                                       now: int)
    requires Select(embeddings, key, model, ttl, now).Some?
    ensures CostSavingsOf(Summary(Probe(embeddings, key, model, ttl, now)), Summary(qa)).totalSavingsUsd
            == CostSavingsOf(Summary(embeddings), Summary(qa)).totalSavingsUsd + EmbeddingCallUsd
  {
    TouchAddsOneHit(embeddings, key, now);
  }

  /**
   * A row's first access is its insert (`access_count` defaults to 1), so
   * storing a new vector already adds one embedding call to the savings,
   * although no call was saved.
   */
  lemma InsertCountsAsSaving<P, Q>(embeddings: Table<P>, qa: Table<Q>, key: string, stem: string, payload: P,
                                   model: string, now: int)
    requires key !in embeddings
    ensures CostSavingsOf(Summary(Put(embeddings, key, stem, payload, model, now)), Summary(qa)).totalSavingsUsd
            == CostSavingsOf(Summary(embeddings), Summary(qa)).totalSavingsUsd + EmbeddingCallUsd
  {
    PutNewAddsOneHit(embeddings, key, stem, payload, model, now);
  }

  // ---- Recommendations ---------------------------------------------------------

  datatype Priority = High | Medium | Low

  /** One recommendation; `currentHitRate` is absent from the general one. */
  datatype Recommendation = Recommendation(kind: string, priority: Priority, title: string, description: string,
                                           currentHitRate: Option<real>)

  /** Below this many accesses per stored vector, the embedding cache is flagged. */
  const EmbeddingRateFloor: real := 1.5
  /** Below this many accesses per stored answer, the QA cache is flagged. */
  const QaRateFloor: real := 2.0

  /** Accesses per row, `total_hits / entries`, or 0 for an empty table. */
  function HitRate(s: TableStats): real {
    if s.entries > 0 then s.totalHits as real / s.entries as real else 0.0
  }

  function EmbeddingAdvice(rate: real): Recommendation {
    Recommendation("embedding_cache", High, "嵌入缓存使用率较低", "考虑增加缓存过期时间或优化文档分块策略", Some(rate))
  }

  function QaAdvice(rate: real): Recommendation {
    Recommendation("qa_cache", Medium, "问答缓存效果一般", "用户问题重复率较低，考虑增加FAQ或相似问题匹配", Some(rate))
  }

  const GeneralAdvice: Recommendation :=
    Recommendation("general", Low, "缓存运行良好", "当前缓存策略运行良好，继续保持", None)

  /** The `recommendations` list of `get_optimization_recommendations`. */
  function Recommendations(embedding: TableStats, qa: TableStats): (recs: seq<Recommendation>)
    ensures 1 <= |recs| <= 2
    ensures (EmbeddingAdvice(HitRate(embedding)) in recs) <==> HitRate(embedding) < EmbeddingRateFloor
    ensures (QaAdvice(HitRate(qa)) in recs) <==> HitRate(qa) < QaRateFloor
    ensures (GeneralAdvice in recs) <==> recs == [GeneralAdvice]
    ensures (GeneralAdvice in recs) <==> HitRate(embedding) >= EmbeddingRateFloor && HitRate(qa) >= QaRateFloor
    ensures forall i, j :: 0 <= i < j < |recs| ==> recs[i].priority == High ==> recs[j].priority != High
  {
    var first := if HitRate(embedding) < EmbeddingRateFloor then [EmbeddingAdvice(HitRate(embedding))] else [];
    var both := first + if HitRate(qa) < QaRateFloor then [QaAdvice(HitRate(qa))] else [];
    if |both| == 0 then [GeneralAdvice] else both
  }

  /** The embedding rule on whole numbers: flagged iff the table is empty or `2 * hits < 3 * entries`. */
  lemma EmbeddingRuleOnIntegers(s: TableStats)
    ensures HitRate(s) < EmbeddingRateFloor <==> s.entries == 0 || 2 * s.totalHits < 3 * s.entries
  {
    if s.entries > 0 {
      RateBelow(s.totalHits, s.entries, 3, 2);
    }
  }

  /** The QA rule on whole numbers: flagged iff the table is empty or `hits < 2 * entries`. */
  lemma QaRuleOnIntegers(s: TableStats)
    ensures HitRate(s) < QaRateFloor <==> s.entries == 0 || s.totalHits < 2 * s.entries
  {
    if s.entries > 0 {
      RateBelow(s.totalHits, s.entries, 2, 1);
    }
  }

  /** `hits / entries < p / q` is `q * hits < p * entries` for positive `entries` and `q`. */
  lemma RateBelow(hits: int, entries: int, p: int, q: int)
    requires entries > 0 && q > 0
    ensures hits as real / entries as real < p as real / q as real <==> q * hits < p * entries
  {
    var h, e, pr, qr := hits as real, entries as real, p as real, q as real;
    assert h / e * e == h;
    assert pr / qr * qr == pr;
    if h / e < pr / qr {
      assert h * qr == (h / e) * e * qr;
      assert (h / e) * (e * qr) < (pr / qr) * (e * qr);
      assert (pr / qr) * (e * qr) == pr * e;
    } else {
      assert (h / e) * (e * qr) >= (pr / qr) * (e * qr);
    }
  }

  /** With nothing stored, both caches are flagged and the general note is absent. */
  lemma EmptyStoresGetBothRecommendations(embedding: TableStats, qa: TableStats)
    requires embedding.entries == 0 && qa.entries == 0
    ensures Recommendations(embedding, qa) == [EmbeddingAdvice(0.0), QaAdvice(0.0)]
  {
  }
}
