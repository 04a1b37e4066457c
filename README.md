# rag-kb core, modelled in Dafny

This project models the deterministic core of **rag-kb**, a retrieval-augmented question-answering service. It covers:

- **The two-tier response cache** (`app/core/cache_manager.py`): an embedding table and a question-answer table. Both are keyed by an MD5 digest of `text:model`. Expiry is lazy and happens on read, with a TTL of 7 days for embeddings and 1 day for answers. Each hit is counted, and a sweep deletes expired rows. A statistics query reports totals.
- **The caching embedding wrapper** (`app/core/cached_embeddings.py`): it looks up every text in the cache first. The misses go to the provider in one batch, and the provider's vectors are placed back at the missed positions and written back. It keeps a `cache_hits` counter and an `api_calls` counter.
- **The cost endpoints' arithmetic** (`app/api/cost_optimization.py`): a savings estimate, and the rule that turns the cache statistics into recommendations.
- **The question-answering engine** (`app/core/qa_engine.py`):
  - the key lookup and override merge when the engine starts;
  - the cache-first `ask`;
  - how source documents are shaped for the response;
  - the conversation context.
- **The vector store's own logic** (`app/core/vector_store.py`):
  - `chunk_id` stamping;
  - batch add with a one-by-one fallback;
  - the score threshold;
  - delete by metadata;
  - grouping chunks into a document list.
- **The document processor** (`app/core/document_processor.py`):
  - the extension check;
  - chunk numbering and metadata stamping;
  - the processing result;
  - the name an upload is saved under.
- **The settings** (`app/core/config.py`): the eight-step API-key priority chain, the embedding key, and the derived model configuration.
- **The CORS setup script** (`scripts/setup-cors.py`): which origins each menu answer yields, and how the `.env` file is read into lines, updated and written back.

How things outside the core are represented:

- **Cache storage.** The SQLite tables are `map`s from key to row, held in a `class CacheManager`. Reads, writes and sweeps update those maps.
- **Time and the digest.** Timestamps are integer seconds, and the current time is a parameter. MD5 is a function value `digest` given to the cache.
- **Outside services.** The embedding provider, the similarity search, the LLM chain, the loaders, the text splitter's cut points, UUIDs, the URL check and the file, secret and keyring reads are function parameters. A service that raises is an explicit `Raised` or `None` reply.
- **In-place updates.**
  - Objects whose fields the source updates are classes with `modifies` clauses: the cache, the embedding wrapper, the vector store, the engine, and LangChain `Document`s with their mutable `metadata`.
  - Loops that change state or build a result step by step are `method`s with invariants, proved against specification functions.
  - Three loops that only compute a value are recursive functions instead: the snippet list of `get_context_hash` (`Cache.Snippets`), the shaping in `_process_source_documents` (`QaEngine.ProcessSourceDocuments`) and the conversation context (`QaEngine.GetConversationContext`).
- **Pure logic** is written as functions, and lemmas relate them.

Modules, one per core file plus shared helpers:

- `Wrappers`: `Option`, `Result`.
- `Text`:
  - Python's `strip`, `split`, `join` and `[:n]`;
  - string order and `sorted`.
- `Documents`: the metadata values and the `Document` class.
- `CacheTables` and `Cache`: the cache.
- `SweepCutoff`: the sweep's cutoff comparison as written (finding 1), on text and on the tables.
- `Embeddings`, `CostOptimization`, `QaEngine`, `VectorStore`, `DocumentProcessor`, `Config`, `SetupCors`: one per remaining core file.

Where the code and its tests or documentation disagree, the model follows the code:

- **`api_calls`** is increased only after the provider returns, so a provider error leaves it unchanged.
- **`from_cache`** is absent from the response. `QuestionResponse` has no such field, so the value passed by `ask` is dropped; the model records chain calls instead, in a ghost log.
- **`api_base_url`**: `get_model_config` as written never fills in a provider default. This is finding 2 below.
- **Deletion**: `delete_documents_by_metadata` re-raises its errors rather than returning `False`. The error is a parameter of the model; when it is present the result is `Raised` and the collection is unchanged.
- **The cache sweep** deletes by the text comparison the code performs, which removes whole calendar days (finding 1). `CacheTables.Sweep` is the intended sweep, kept beside it.
- **The CORS script** writes a last line that lacks its newline glued to the new origins line (finding 3). `SetupCors.SetupCorsConfig` writes what the code writes.

## Model

| member | source | states |
|---|---|---|
| Cache.CacheManager.constructor | app/core/cache_manager.py:21-25 | The cache opens over the rows the database already holds. The embedding TTL is 7·24·3600 seconds and the QA TTL is 24·3600 seconds. |
| Cache.CacheManager.GetEmbeddingCache | app/core/cache_manager.py:73-102 | Returns the stored vector only if all of these hold: a row sits under `digest(text:model)`, it has the same model name, it is live (`created + ttl > now`) and its payload decodes. Otherwise the result is `None`. When such a row is selected, its access count grows by one and `last_accessed` becomes `now`, even if the payload then fails to decode. No other row changes. |
| Cache.CacheManager.SetEmbeddingCache | app/core/cache_manager.py:104-126 | Insert-or-replace of a whole row under the text's key. The row holds the first 500 characters of the text, the encoded vector, the model, `created = last_accessed = now` and `access_count` 1. |
| Cache.CacheManager.GetQaCache | app/core/cache_manager.py:128-159 | Same as the embedding read, with the key `digest(question:context_hash:model)`. A live row of the same model returns its answer and its sources; a blank `sources` column reads as no sources. |
| Cache.CacheManager.SetQaCache | app/core/cache_manager.py:161-185 | Insert-or-replace of the whole QA row. The question is cut to 300 characters; the context hash, answer, encoded sources, model and `now` are stored. |
| Cache.CacheManager.CleanupExpiredCache | app/core/cache_manager.py:199-216 | As written: each table loses every row created on or before the calendar date of `now` minus that table's own TTL, and keeps every other row unchanged (finding 1). |
| Cache.CacheManager.GetCacheStats | app/core/cache_manager.py:220-258 | Each table reports, over all its rows with no expiry filter: the row count, the sum of access counts, the average, and the latest `last_accessed`. |
| Cache.KeyTextInjectiveForModel | app/core/cache_manager.py:68-71 | Under one model, two texts with the same key string are the same text. |
| Cache.QaTextSeparatesContexts | app/core/cache_manager.py:130 | The same question under two different context hashes has two different key strings. |
| Cache.KeyTextAmbiguousAcrossModels | app/core/cache_manager.py:70 | The key string `text:model` is ambiguous across models: `("a:b", "c")` and `("a", "b:c")` give the same string. |
| Cache.AmbiguousWriteEvicts | app/core/cache_manager.py:112-115 | Writes do not filter on the model. Storing `a` under model `b:c` replaces the row of `a:b` under model `c`, which then reads as a miss. |
| Cache.EmbeddingReadIsolation | app/core/cache_manager.py:78-82 | A read that returns a vector found a live row under that exact key and model, holding exactly that vector. |
| Cache.EmbeddingRoundTrip | app/core/cache_manager.py:104-124 | Store, then read with the same text and model before the TTL runs out: the read returns exactly the stored vector. The stored text is cut to 500 characters, but the key uses the whole text. |
| Cache.QaRoundTrip | app/core/cache_manager.py:161-183 | Store, then read with the same question, context hash and model within the TTL: the read returns the same answer and sources. |
| Cache.NoCrossModelRead | app/core/cache_manager.py:80 | A vector stored under one model is never returned to a read under another model, under any key. |
| Cache.ExpiredRowIsMiss | app/core/cache_manager.py:81 | A row with `created + ttl <= now` is never returned, whether or not it has been swept. |
| Cache.GarbledRowCountsButMisses | app/core/cache_manager.py:84-100 | A live row whose payload does not decode reads as `None`, yet its access count has already grown by one. |
| Cache.HitBookkeeping | app/core/cache_manager.py:87-91 | A hit deletes nothing: it adds exactly one to the row's access count and sets `last_accessed` to `now`. |
| Cache.AccessCountAfterHits | app/core/cache_manager.py:41 | `n` hits after an insert leave the access count at `1 + n` and the row's contents as inserted. |
| Cache.SnippetsAppend | app/core/cache_manager.py:189-194 | The snippets of two lists of context items are the snippets of each list, in order. |
| Cache.SnippetsPermutation | app/core/cache_manager.py:189-194 | Reordering the context items reorders their snippets and changes nothing else. |
| Cache.ContextTextPermutationInvariant | app/core/cache_manager.py:187-197 | The context fingerprint is the same for any permutation of the retrieved items. |
| Cache.ContextTextIgnoresTail | app/core/cache_manager.py:191-194 | Only the first 200 characters of an item count. A document's `page_content` and an equal plain string contribute alike. |
| CacheTables.ProbeKeepsSelection | app/core/cache_manager.py:87-91 | After a hit's bookkeeping, every later read selects the same rows with the same payload, model and creation time. |
| CacheTables.PutThenSelect | app/core/cache_manager.py:112-123 | A row just inserted is selected by the same key and model while it is live. It has `access_count` 1 and `last_accessed` equal to its creation time. |
| CacheTables.PutKeepsOtherKeys | app/core/cache_manager.py:112-115 | Insert-or-replace leaves every other key as it was. |
| CacheTables.SweepExact | app/core/cache_manager.py:204-214 | The intended sweep: a row survives exactly when it was created at or after the cutoff, and a surviving row is unchanged. |
| CacheTables.SweepKeepsLiveRows | app/core/cache_manager.py:199-214 | With the cutoff `now - ttl`, the intended sweep never changes what a read at `now` returns. |
| CacheTables.BoundaryRowSurvivesSweepButIsNotRead | app/core/cache_manager.py:81 | About the intended sweep: a row created exactly `ttl` seconds ago is already a miss for reads (strict `>`), but the intended sweep keeps it (strict `<`). The sweep as written deletes it (`SweepCutoff.BoundaryRowDeletedAsWritten`). |
| CacheTables.SumAccessRemove | app/core/cache_manager.py:227 | `SUM(access_count)` is one row's count plus the sum over the remaining rows, in whatever order the rows are taken. |
| CacheTables.MaxAccessRemove | app/core/cache_manager.py:229 | `MAX(last_accessed)` is the later of one row's value and the maximum over the rest. |
| CacheTables.MaxAccessIsMaximum | app/core/cache_manager.py:229 | The maximum is `NULL` exactly for no rows. Otherwise some row attains it and no row exceeds it. |
| CacheTables.Summarize | app/core/cache_manager.py:224-232 | One pass over the rows computes the row count, the access-count sum, the average and the maximum `last_accessed`. |
| CacheTables.EmptySummary | app/core/cache_manager.py:245-257 | Empty tables report 0 entries, 0 hits, average 0 and no last access. |
| CacheTables.TouchAddsOneHit | app/core/cache_manager.py:87-91 | A hit adds exactly one to the reported `total_hits` and leaves `entries` unchanged. |
| CacheTables.PutNewAddsOneHit | app/core/cache_manager.py:41 | Inserting a new key adds one entry and one hit, because the column default is 1. |
| SweepCutoff.SeparatorDecides | app/core/cache_manager.py:206 | Compare `date1 + " " + time1` with `date2 + "T" + time2` as text, with equal-width dates. The first is smaller exactly when `date1 <= date2`; the times never matter. |
| SweepCutoff.AsWrittenDeletesWholeCutoffDate | app/core/cache_manager.py:204-207 | As written, the sweep deletes every row created on the cutoff's calendar date, whatever the times of day. |
| SweepCutoff.AsWrittenCoversIntended | app/core/cache_manager.py:211-214 | As written, the sweep deletes every row the intended comparison deletes, and possibly more. |
| SweepCutoff.SweepAsWrittenExact | app/core/cache_manager.py:204-214 | As written, a row survives the sweep exactly when it was created on a later calendar day than the cutoff, and a surviving row is unchanged. |
| SweepCutoff.SweepAsWrittenIsTextComparison | app/core/cache_manager.py:204-214 | The table sweep is the text comparison: when dates render as equal-width text in day order, a row survives exactly when `datetime(created_at) < cutoff.isoformat()` is false, whatever the times of day. |
| SweepCutoff.DayMonotone | app/core/cache_manager.py:204-207 | A later instant never falls on an earlier calendar day. |
| SweepCutoff.AsWrittenSweepWithinIntended | app/core/cache_manager.py:204-214 | Every row the sweep as written keeps, the intended sweep keeps too, unchanged. |
| SweepCutoff.AsWrittenSweepDeletesLiveRow | app/core/cache_manager.py:204-214 | A row created later on the cutoff's date is still returned by a read at `now`, yet the sweep as written deletes it. |
| SweepCutoff.BoundaryRowDeletedAsWritten | app/core/cache_manager.py:204-214 | A row created exactly `ttl` seconds ago is deleted by the sweep as written. |
| SweepCutoff.SameDayLiveRowLeavesTable | app/core/cache_manager.py:210-214 | On a table: an answer stored at 20:00 on 1 May 2024 and swept at 09:00 the next day with the one-day TTL is read back, yet deleted. |
| SweepCutoff.SameDayLiveRowIsDeleted | app/core/cache_manager.py:210-214 | Example: an answer cached at 20:00 on 1 May and swept at 09:00 on 2 May is 13 hours old. It is still live, but the sweep as written deletes it. |
| Embeddings.CachedEmbeddings.constructor | app/core/cached_embeddings.py:16-20 | The wrapper starts with both counters at 0. |
| Embeddings.CachedEmbeddings.EmbedDocuments | app/core/cached_embeddings.py:22-51 | Every text is read from the cache in order, and `cache_hits` grows by the number of hits. The provider is called once with exactly the missed texts in input order, and not at all when there is no miss. If the provider raises, the error propagates and nothing is written. Otherwise `api_calls` grows by the number of misses, the result is `Merged(reads, vectors)`, and only the new vectors are written, each under its own text. |
| Embeddings.CachedEmbeddings.LookUp | app/core/cached_embeddings.py:28-38 | The cache pass yields three things: the per-text reads as the list of placeholders, the miss positions and the miss texts. The hit count grows by the number of hits. |
| Embeddings.CachedEmbeddings.WriteBack | app/core/cached_embeddings.py:46-49 | The `j`-th returned vector fills the `j`-th missed position and is stored under the `j`-th missed text, for as many pairs as `zip` forms. |
| Embeddings.CachedEmbeddings.EmbedQuery | app/core/cached_embeddings.py:53-70 | A hit returns the cached vector and counts a hit, with no provider call and no write. A miss asks the provider once. On success it counts one API call, stores the vector and returns it, and a read at the same instant then returns that vector. A provider error propagates and nothing is counted or written. |
| Embeddings.CachedEmbeddings.GetCacheStats | app/core/cached_embeddings.py:72-82 | The wrapper reports its own counters, their sum as `total_requests`, and a hit rate between 0 and 100. |
| Embeddings.Stats | app/core/cached_embeddings.py:74-75 | `total = hits + calls`, and the rate is `hits / total * 100`, or 0 when the total is 0. The rate is 0 exactly when there is no hit, and 100 exactly when there are hits and no calls. |
| Embeddings.MissesIndexing | app/core/cached_embeddings.py:35-38 | The miss indices are exactly the `None` positions, in strictly increasing order, and each missed position's rank is its place among them. |
| Embeddings.MissTextsAt | app/core/cached_embeddings.py:37 | The batch sent to the provider holds the missed texts in the order of their positions. |
| Embeddings.ProbeAllSameContent | app/core/cached_embeddings.py:30 | Reads change only the access columns, so reading a batch never changes what a later read returns. |
| Embeddings.StoreAllKeeps | app/core/cached_embeddings.py:47-49 | Writing back keeps every existing key: each either keeps its row or gets a fresh row of this model. |
| Embeddings.StoreAllWrites | app/core/cached_embeddings.py:47-49 | Every pair written leaves a fresh, decodable row under its text's key. |
| Embeddings.MergedKeepsHits | app/core/cached_embeddings.py:32 | Where the cache hit, the result holds the cached vector. |
| Embeddings.MergedPlacesVectors | app/core/cached_embeddings.py:47-48 | The provider's `j`-th vector lands at the `j`-th missed position. |
| Embeddings.MergedComplete | app/core/cached_embeddings.py:47-51 | When the provider answers every text it was sent, no position of the result is `None`. |
| Embeddings.MergedNoMisses | app/core/cached_embeddings.py:41-51 | With no miss, the result is the list of cached vectors. |
| Embeddings.RepeatIsAllHits | app/core/cached_embeddings.py:22-51 | Once a batch has been fully answered, repeating it at the same instant hits every text, so no text is sent to the provider twice. |
| Embeddings.RepeatHitAt | app/core/cached_embeddings.py:22-51 | After the batch, each text reads as a hit: it either was a hit and still is, or has just been written. |
| Embeddings.KeptRowStaysHit | app/core/cached_embeddings.py:47-49 | A key that read as a hit before the write-back still does after it. |
| Embeddings.WrittenRowIsHit | app/core/cached_embeddings.py:49 | A text just written back reads as a hit at the instant of the write. |
| Embeddings.ScanStep | app/core/cached_embeddings.py:29-38 | One pass of the cache loop adds exactly one read to the placeholders, the miss indices, the miss texts and the probed table. |
| Embeddings.PlaceStepAt | app/core/cached_embeddings.py:47-48 | Placing the `j`-th vector changes only the `j`-th missed position. |
| Embeddings.PlaceEnd | app/core/cached_embeddings.py:47-51 | Once `zip` is exhausted, the placed list is the merged result. |
| CostOptimization.SavingsBreakdown | app/api/cost_optimization.py:24-38 | Unfolding the estimate: `total_requests` is the sum of both tables' entries, and `total_cache_hits` the sum of both `total_hits`. The total savings are the two savings added, which is `(embedding hits + 10·QA hits) / 10000` dollars. |
| CostOptimization.QaHitSavesOneCall | app/api/cost_optimization.py:28-30 | A QA hit raises the estimate by exactly $0.001. |
| CostOptimization.EmbeddingHitSavesOneCall | app/api/cost_optimization.py:28-30 | An embedding hit raises the estimate by exactly $0.0001. |
| CostOptimization.InsertCountsAsSaving | app/api/cost_optimization.py:28 | Storing a new vector already raises the estimate by one embedding call, since `access_count` starts at 1. |
| CostOptimization.Recommendations | app/api/cost_optimization.py:91-127 | The list has one or two entries. The embedding advice is present exactly when its rate is below 1.5, and the QA advice exactly when its rate is below 2.0. The general note is present exactly when neither is, and then it is alone. The high-priority entry comes first. |
| CostOptimization.EmbeddingRuleOnIntegers | app/api/cost_optimization.py:94-103 | The embedding store is flagged exactly when it is empty or `2·hits < 3·entries`. |
| CostOptimization.QaRuleOnIntegers | app/api/cost_optimization.py:98-112 | The QA store is flagged exactly when it is empty or `hits < 2·entries`. |
| CostOptimization.RateBelow | app/api/cost_optimization.py:95-96 | For positive `entries` and `q`, `hits/entries < p/q` holds exactly when `q·hits < p·entries`. |
| CostOptimization.EmptyStoresGetBothRecommendations | app/api/cost_optimization.py:91-119 | Empty stores yield the embedding advice and then the QA advice, both at rate 0. |
| Config.NonEmpty | app/core/config.py:82 | A key read from a source counts only when it is not empty. |
| Config.KeyFrom | app/core/config.py:81-82 | The stripped contents of a source give no key exactly when they are all whitespace. A key given is non-empty with no whitespace at either end. |
| Config.FromFile | app/core/config.py:78-86 | A key comes from a file exactly when the setting is truthy, the file is readable and its text is not all whitespace. The key then has no whitespace at either end. |
| Config.FromBase64 | app/core/config.py:89-96 | A key comes from the base64 setting exactly when the setting is truthy, it decodes, and the decoded text is not all whitespace. The key is trimmed. |
| Config.FromDockerSecret | app/core/config.py:121-132 | A key comes from `/run/secrets/<provider>_api_key` exactly when that file is readable and not blank. The key is trimmed. |
| Config.FromKeyring | app/core/config.py:134-147 | A keyring key requires the keyring package. It is the provider's own entry, or, for a provider other than openai, the openai entry. A non-empty entry of the provider's own always wins. |
| Config.GetApiKey | app/core/config.py:71-150 | The result is `None` or a non-empty key. |
| Config.FirstTruthy | app/core/config.py:71-150 | The first non-empty entry of a list wins, and `None` means no entry is non-empty. |
| Config.GetApiKeyIsFirstSource | app/core/config.py:71-150 | The key is the first non-empty source of eight, in this order: `api_key`, key file, base64, `openai_api_key`, its file, its base64, Docker secret, keyring. It is `None` when none yields one. |
| Config.FirstTruthyOfChain | app/core/config.py:74-147 | The nested `if`s of the chain pick the first non-empty candidate of the eight. |
| Config.KeyringIsLastResort | app/core/config.py:134-147 | When an earlier source yields a key, the keyring's answer does not matter. |
| Config.FirstTruthyPrefix | app/core/config.py:71-150 | Two chains that agree up to a source with a key give the same key. |
| Config.KeyringFallback | app/core/config.py:137-140 | For provider `p` other than openai, with an empty `p_api_key` entry, the openai keyring entry is used. |
| Config.GetEmbeddingApiKey | app/core/config.py:156-161 | Zhipu embeddings use `zhipu_api_key`. Any other provider uses the first source of the chain. |
| Config.ChatModelFor | app/core/config.py:175-182 | The chat model changes only when it is still `gpt-3.5-turbo` and the provider is deepseek (`deepseek-chat`) or zhipu (`glm-4`). A custom value is kept. |
| Config.EmbeddingModelFor | app/core/config.py:187-191 | The embedding model becomes `embedding-3` only for zhipu with the default model. |
| Config.EmbeddingBaseUrlFor | app/core/config.py:186-194 | A configured embedding endpoint is kept. Zhipu and openai get their endpoint when none is configured, and other providers keep the configured value. |
| Config.GetModelConfig | app/core/config.py:163-196 | As written: the chat `api_base_url` is always the configured one, possibly `None`. |
| Config.GetModelConfigIntended | app/core/config.py:174-184 | As intended: the provider's endpoint is used when none is configured, and every other field is as written. |
| Config.DeepSeekEndpointMissing | app/core/config.py:175-176 | With default settings and the deepseek provider, the endpoint is `None` as written and `https://api.deepseek.com` as intended. |
| Config.ZhipuDefaults | app/core/config.py:179-191 | With default settings and zhipu for chat and embeddings, the intended configuration uses `glm-4`, `embedding-3` and the zhipu endpoint for both. |
| QaEngine.Override | app/core/qa_engine.py:46-51 | An override replaces a value only when it is truthy. |
| QaEngine.EffectiveConfig | app/core/qa_engine.py:45-53 | Starting from `get_model_config()` as written, truthy overrides of provider, endpoint and model replace those three fields, and nothing else changes. |
| QaEngine.ChatSetupFor | app/core/qa_engine.py:56-67 | The chat model receives a `base_url`, with an empty organization, exactly when the endpoint is set and is not OpenAI's own. |
| QaEngine.InitializeLlm | app/core/qa_engine.py:35-75 | Start-up fails with `API key not configured for <provider>` exactly when there is no truthy override key and no configured key. Otherwise it uses the override key or the first key source, together with the overrides merged into `get_model_config()` as written. |
| QaEngine.NoOverridesKeepSettings | app/core/qa_engine.py:45-53 | With no overrides, the engine's configuration is `get_model_config()` as written. |
| QaEngine.DeepSeekEngineGetsNoBaseUrl | app/core/qa_engine.py:44-67 | With default settings, provider `deepseek` and a key, the engine starts with `deepseek-chat` and no `base_url` or organization, so its client uses OpenAI's endpoint. The intended configuration would pass the deepseek endpoint (finding 2). |
| QaEngine.EmptyOverrideIsIgnored | app/core/qa_engine.py:46-51 | An empty override string acts like no override. |
| QaEngine.ModelNameNamesProvider | app/core/qa_engine.py:135 | The cache model name `provider/chat_model` gives the provider back when split at `/`. |
| QaEngine.Truncate | app/core/qa_engine.py:204-206 | Content longer than 300 characters becomes its first 300 plus `...`, and shorter content is unchanged. |
| QaEngine.TruncateIdempotent | app/core/qa_engine.py:205-206 | Truncating already-shown content again changes nothing. |
| QaEngine.ProcessSourceDocuments | app/core/qa_engine.py:193-221 | There is at most one entry per document, each with score 1.0 and content of at most 303 characters. No document is skipped exactly when every document can be shown. |
| QaEngine.Shown | app/core/qa_engine.py:197-219 | A document gives one entry when its name and page are usable, and none when building the entry raises. |
| QaEngine.ProcessAppend | app/core/qa_engine.py:197 | The entries of a list are the entries of its two halves, one after the other. |
| QaEngine.SkippedDocumentLeavesNoTrace | app/core/qa_engine.py:217-219 | A document that raises is dropped without changing the other entries. |
| QaEngine.ProcessSourceDocumentsInOrder | app/core/qa_engine.py:197-215 | When every document can be shown, entry `i` is built from document `i`. |
| QaEngine.LastTurns | app/core/qa_engine.py:286 | `history[-3:]` is the last `min(3, n)` turns. |
| QaEngine.ContextLines | app/core/qa_engine.py:286-292 | Complete turns give alternating `Q: ` and `A: ` lines. There are no lines exactly when no turn is complete. |
| QaEngine.GetConversationContext | app/core/qa_engine.py:279-294 | The context is empty exactly when none of the last three turns has both a question and an answer. |
| QaEngine.JoinNonEmpty | app/core/qa_engine.py:294 | Joining non-empty lines gives `""` only when there are no lines. |
| QaEngine.OlderTurnsIgnored | app/core/qa_engine.py:286 | Turns older than the last three never change the context. |
| QaEngine.ContextSplitsIntoLines | app/core/qa_engine.py:291-294 | When no question or answer spans lines, the context splits back into exactly its `Q:` and `A:` lines. |
| QaEngine.ErrorResponse | app/core/qa_engine.py:180-191 | An error response has no sources, and its answer is the apology prefix followed by the message. |
| QaEngine.RetrievalSize | app/core/qa_engine.py:127 | A missing or zero `max_sources` uses the configured count. |
| QaEngine.ContextItems | app/core/qa_engine.py:130-131 | The fingerprint sees the retrieved documents' page contents, one item per document. |
| QaEngine.QAEngine.constructor | app/core/qa_engine.py:24-33 | The engine keeps the effective configuration and chat setup that start-up produced, and no chain call has been made. |
| QaEngine.QAEngine.Ask | app/core/qa_engine.py:118-191 | A blank question returns the empty-question error and touches neither the cache nor the chain. On a cache hit under (question, context fingerprint, `provider/model`), the cached answer and sources are returned without calling the chain. On a miss, the chain is called exactly once. If it raises, an error response is returned and nothing is cached. Otherwise the answer defaults to the apology text, the sources are shaped, and the result is stored under the same key, so an immediate re-ask reads it back. |
| QaEngine.QAEngine.RunChain | app/core/qa_engine.py:151-178 | The miss path: one chain call, then, on success, the answer and sources are written back under the same key. |
| QaEngine.Open | app/core/qa_engine.py:24-33 | Constructing the engine fails exactly when start-up does, with start-up's message. Otherwise the new engine carries start-up's configuration. |
| VectorStore.Filter | app/core/vector_store.py:204-207 | The filter keeps exactly the accepted elements and no more of them than there were; their order is stated by `VectorStore.FilterAppend`. |
| VectorStore.FilterAppend | app/core/vector_store.py:204-207 | Filtering distributes over concatenation, so the survivors keep their order. |
| VectorStore.Accepted | app/core/vector_store.py:143-152 | The documents whose single add succeeds, in input order. There are never more of them than documents. |
| VectorStore.AcceptedEmpty | app/core/vector_store.py:143-160 | The fallback keeps nothing exactly when no single add succeeds, and it keeps only input elements. |
| VectorStore.AcceptedAll | app/core/vector_store.py:143-158 | When every single add succeeds, every id is kept. |
| VectorStore.FirstIndex | app/core/vector_store.py:127 | The first position of an element in the list. |
| VectorStore.Stamped | app/core/vector_store.py:128-129 | A document gets a `chunk_id` only when it has none. An existing id and every other key are kept. |
| VectorStore.ChunkIds | app/core/vector_store.py:126-130 | There is one id per document. `VectorStore.VectorStore.StampIds` ties each one to its document's stamped `chunk_id`. |
| VectorStore.Entries | app/core/vector_store.py:134 | Adding the documents under their ids stores one entry per document, holding its id, text and metadata. |
| VectorStore.ReturnedIdsAreStoredIds | app/core/vector_store.py:143-158 | In the fallback, the returned ids are the ids of the entries stored, in the same order. |
| VectorStore.AboveThreshold | app/core/vector_store.py:204-207 | Exactly the hits scoring at least the threshold are kept. |
| VectorStore.AboveThresholdKeepsOrder | app/core/vector_store.py:204-207 | The survivors keep their order. |
| VectorStore.AllAboveThreshold | app/core/vector_store.py:204-207 | When every hit clears the threshold, the result is returned unchanged. |
| VectorStore.MatchingIds | app/core/vector_store.py:224 | `collection.get(where=...)` returns at most one id per entry. |
| VectorStore.MatchingIdsExactly | app/core/vector_store.py:224 | An id is returned exactly when some entry carrying it matches the filter. |
| VectorStore.MatchingIdsEmpty | app/core/vector_store.py:224-233 | No id is returned exactly when no entry matches. |
| VectorStore.FilterKeepsUnique | app/core/vector_store.py:228 | Deleting never makes two entries share an id. |
| VectorStore.UpsertStores | app/core/vector_store.py:134 | An add of one entry keeps the ids unique. Afterwards the collection holds the new entry and exactly the old entries under other ids, and it grows only when the id was new. |
| VectorStore.UpsertAllUnique | app/core/vector_store.py:134 | Adding a batch keeps the ids unique. |
| VectorStore.UpsertAllFresh | app/core/vector_store.py:134 | A batch under new, distinct ids is appended as it is. |
| VectorStore.LastWithIdSnoc | app/core/vector_store.py:144-148 | Adding one more entry: it is the last under its id, and an earlier entry stays last only under another id. |
| VectorStore.UpsertAllContents | app/core/vector_store.py:134 | After adding a batch, the collection holds exactly the last entry of the batch under each of its ids, and the old entries under the ids the batch does not mention. |
| VectorStore.DeleteRemovesExactlyMatches | app/core/vector_store.py:224-230 | With unique ids, the deletion removes exactly the matching entries and keeps the rest in order. |
| VectorStore.Group | app/core/vector_store.py:272-287 | `list_documents` yields one summary per distinct `document_id`, with default `unknown`. |
| VectorStore.CountId | app/core/vector_store.py:285 | The number of chunks of a document is zero exactly when no chunk carries its id. |
| VectorStore.GroupCounts | app/core/vector_store.py:278-285 | Each summary's `chunk_count` is the number of chunks carrying its id. |
| VectorStore.GroupTotal | app/core/vector_store.py:285 | The chunk counts add up to the number of chunks. |
| VectorStore.GroupFirstSeen | app/core/vector_store.py:278-287 | The summaries are in first-seen order, and each takes `filename` and `processed_at` from its document's first chunk. |
| VectorStore.GroupSnoc | app/core/vector_store.py:274-285 | Grouping one more chunk is one step of the loop. |
| VectorStore.AbsorbAt | app/core/vector_store.py:285 | A chunk of a known document adds one to that document's count. |
| VectorStore.GroupChunks | app/core/vector_store.py:273-287 | The dictionary-driven loop computes `Group`. |
| VectorStore.VectorStore.constructor | app/core/vector_store.py:91-109 | The store opens over the persisted collection, whose ids are unique, and has not persisted yet. |
| VectorStore.VectorStore.AddDocuments | app/core/vector_store.py:117-164 | An empty input returns `[]` and changes nothing. Every document keeps its `chunk_id` or gets a fresh one, and the id list follows document order. If the batch add succeeds, which Chroma refuses when two documents share an id, every entry is added and all ids are returned with one persist. Otherwise the documents added one by one are stored, and their ids are returned in order with a persist; if none went in, the call raises. An add under a stored id replaces that entry in place, so ids stay unique. |
| VectorStore.VectorStore.Store | app/core/vector_store.py:132-160 | Once ids are stamped: the batch add when Chroma takes it and the ids are distinct, or else the fallback. Ids stay unique. |
| VectorStore.VectorStore.AddFallback | app/core/vector_store.py:138-160 | The fallback persists only when something went in, and raises when nothing did. |
| VectorStore.VectorStore.StampOne | app/core/vector_store.py:127-130 | The document's metadata gains a fresh `chunk_id` only when it had none, and the call returns the id the document now carries. |
| VectorStore.VectorStore.StampIds | app/core/vector_store.py:126-130 | The stamping loop returns each document's `chunk_id`. A document listed twice is stamped by its first occurrence. |
| VectorStore.VectorStore.AddOneByOne | app/core/vector_store.py:143-152 | The one-by-one loop adds and returns exactly the documents whose single add succeeds, in order. Each add replaces the entry under the same id, if any. |
| VectorStore.VectorStore.SimilaritySearchWithScore | app/core/vector_store.py:188-214 | The search's hits at or above the threshold, or the search's exception. |
| VectorStore.VectorStore.DeleteDocumentsByMetadata | app/core/vector_store.py:216-237 | When reading or deleting raises, the error is re-raised and the collection is unchanged. Otherwise the result is `True` exactly when some entry matched, the matching ids are removed, and exactly the non-matching entries stay, in order. |
| VectorStore.VectorStore.DeleteDocumentById | app/core/vector_store.py:239-241 | Deletion with the filter `{"document_id": id}`: errors re-raised with nothing changed; otherwise `True` exactly when some chunk of the document was stored, and exactly the chunks of other documents stay. |
| VectorStore.VectorStore.Metadatas | app/core/vector_store.py:267 | Every entry's metadata, in order. |
| VectorStore.VectorStore.ListDocuments | app/core/vector_store.py:260-291 | The grouped summaries, or `[]` when the collection cannot be read. |
| DocumentProcessor.Lower | app/core/document_processor.py:46 | Lower-casing maps each character and keeps the length. |
| DocumentProcessor.LastIndex | app/core/document_processor.py:46 | The last position of a character, or -1. |
| DocumentProcessor.SplitExt | app/core/document_processor.py:46 | `os.path.splitext`: the parts rejoin to the path, and the extension is empty or one dot followed by no dot or slash. |
| DocumentProcessor.SupportedByExtension | app/core/document_processor.py:44-47 | A file is supported exactly when its lower-cased extension is one of `.pdf`, `.docx`, `.doc`, `.txt` or `.md`, whatever its case. |
| DocumentProcessor.LowerExtension | app/core/document_processor.py:46 | The extension of the lower-cased name is the lower-cased extension. |
| DocumentProcessor.ExtensionAfterStem | app/core/document_processor.py:46 | The extension of `stem + ext` is `ext`. |
| DocumentProcessor.NoDotIsRefused | app/core/document_processor.py:44-47 | A name without a dot has no extension and is refused. |
| DocumentProcessor.LoadDocument | app/core/document_processor.py:75-93 | An unsupported extension raises `Unsupported file type: <ext>`. Otherwise the extension's loader runs. |
| DocumentProcessor.Views | app/core/document_processor.py:98 | The text and metadata of each document. |
| DocumentProcessor.PiecesOf | app/core/document_processor.py:98 | Each piece of one text gets a copy of that document's metadata. |
| DocumentProcessor.Numbered | app/core/document_processor.py:102-104 | Chunk `i` gets `chunk_index = i` and its own `chunk_id`, and keeps its text and its other metadata. |
| DocumentProcessor.PiecesInherit | app/core/document_processor.py:98 | Every chunk carries the metadata of the document it was cut from, and its text is a piece of that document's text. |
| DocumentProcessor.PiecesCount | app/core/document_processor.py:98 | There are as many chunks as pieces cut from all the texts together. |
| DocumentProcessor.SplitText | app/core/document_processor.py:98 | The splitter makes fresh, distinct chunk objects, document by document and piece by piece. |
| DocumentProcessor.StampChunks | app/core/document_processor.py:102-104 | The numbering loop. |
| DocumentProcessor.SplitDocuments | app/core/document_processor.py:95-110 | Split, then number. The input documents are left unchanged. |
| DocumentProcessor.WithFields | app/core/document_processor.py:121-127 | `metadata.update(fields)` on each document. |
| DocumentProcessor.StampDocuments | app/core/document_processor.py:121-127 | Every loaded document gets the same id, name, path and processing time. |
| DocumentProcessor.ProcessDocument | app/core/document_processor.py:112-154 | On success: status `completed`, the document's id, `chunk_count = len(chunks)`, and chunks numbered from the stamped documents. On a load error: status `failed`, a new id, no chunks, `chunk_count` 0 and the error's message. |
| DocumentProcessor.ProcessedChunksCarryFields | app/core/document_processor.py:120-130 | Every chunk carries the file's document id, name, path and processing time, together with its own index and `chunk_id`. |
| DocumentProcessor.SavedNameYieldsId | app/core/document_processor.py:53-62 | For a UUID-shaped id (no `_`) and a file name without `/`, the saved base name is `<uuid>_<filename>`. Its first `_` field is therefore the generated id, which the upload endpoint reads back at app/api/documents.py:74. |
| SetupCors.KeptExactly | scripts/setup-cors.py:54-57 | A domain is kept exactly when it passes the URL check and is the stripped form of a typed piece. |
| SetupCors.StripAddsNothing | scripts/setup-cors.py:55 | Stripping adds no character. |
| SetupCors.DomainsHaveNoComma | scripts/setup-cors.py:53-57 | No kept domain contains a comma. |
| SetupCors.OriginsAreAllowed | scripts/setup-cors.py:39-88 | Every choice yields at least one origin. Each origin is a local one, or a typed domain that passes the check. |
| SetupCors.OriginsRoundTrip | scripts/setup-cors.py:91 | The comma-joined origins split back into the same list. |
| SetupCors.KeepIfValid | scripts/setup-cors.py:55-57 | One step of the domain loop: the stripped piece is appended when it is valid. |
| SetupCors.AppendValid | scripts/setup-cors.py:54-59 | The domain loop appends the valid stripped pieces in input order. |
| SetupCors.CollectDomains | scripts/setup-cors.py:51-59 | A blank answer adds nothing. |
| SetupCors.SelectOrigins | scripts/setup-cors.py:39-88 | Choice 1 gives the two local origins. Choice 2 gives the valid domains, or `http://localhost:8501` when none is valid. Choice 3 gives the local origins then the valid domains. Any other choice gives `http://localhost:8501`. |
| SetupCors.FirstWithPrefix | scripts/setup-cors.py:104-108 | The first line that starts with the key, if any. |
| SetupCors.SetOriginsLine | scripts/setup-cors.py:103-111 | The first `ALLOWED_ORIGINS=` line is replaced, or one is appended at the end. |
| SetupCors.FindKeys | scripts/setup-cors.py:114-121 | Reports whether some line starts with `ALLOWED_METHODS=`, and whether some line starts with `ALLOWED_HEADERS=`. |
| SetupCors.UpdateEnvLines | scripts/setup-cors.py:103-126 | The update loop computes the `.env` update. The first origins line is replaced, or an origins line is appended. Then the default methods and headers lines are appended when their keys are missing. |
| SetupCors.SetupCorsConfig | scripts/setup-cors.py:18-130 | The text written is the update, with the joined origins, of the file's lines as `readlines` cuts them after universal-newline translation (no lines when there is no file), concatenated back as `writelines` does. |
| SetupCors.OriginsLineStartsWithKey | scripts/setup-cors.py:106 | The origins line starts with its key and with neither of the other two. |
| SetupCors.WithOriginsKeepsOthers | scripts/setup-cors.py:103-111 | Every line but the first origins line keeps its place and text. A line is appended only when there was no origins line. |
| SetupCors.UpdateKeepsOtherLines | scripts/setup-cors.py:103-126 | On the line list: no original line other than the first origins line is altered. |
| SetupCors.UpdateHoldsAllKeys | scripts/setup-cors.py:103-126 | On the line list: the updated lines hold all three keys. |
| SetupCors.AppendedKeysPresent | scripts/setup-cors.py:123-126 | Appending the missing methods and headers lines leaves every key present. |
| SetupCors.AppendedLinesCarryKeys | scripts/setup-cors.py:124-126 | The default lines start with their keys. |
| SetupCors.HasLineWithAppend | scripts/setup-cors.py:123-126 | Appended lines never hide an existing key. |
| SetupCors.FirstOriginsLineAfterUpdate | scripts/setup-cors.py:103-111 | After the update, the first origins line is where the old one was, or at the end. |
| SetupCors.UpdateIdempotent | scripts/setup-cors.py:103-126 | On the line list: updating twice with the same origins gives the same lines as updating once. |
| SetupCors.ConcatReadLines | scripts/setup-cors.py:98-130 | Writing back the lines read gives the text read, as translated on reading. |
| SetupCors.Universal | scripts/setup-cors.py:99-100 | The text handed to `readlines` holds no carriage return and is no longer than the file's text. |
| SetupCors.UniversalKeepsPlainText | scripts/setup-cors.py:99-100 | A file without carriage returns is read as it is. |
| SetupCors.UniversalLast | scripts/setup-cors.py:99-100 | The text read is empty only for an empty file, and ends with the file's last character, a final `\r` read as `\n`. |
| SetupCors.UniversalTerminated | scripts/setup-cors.py:99-100 | The text read ends with a newline, or is empty, exactly when the file is empty or ends with `\n` or `\r`. |
| SetupCors.ReadLinesConcat | scripts/setup-cors.py:98-130 | Whole lines, written and read back, are the same lines. |
| SetupCors.ReadLinesOfTerminated | scripts/setup-cors.py:100 | A text that is empty or ends with a newline reads as whole lines. |
| SetupCors.ConcatTerminated | scripts/setup-cors.py:130 | Whole lines write a text that is empty or ends with a newline. |
| SetupCors.ReadLinesCons | scripts/setup-cors.py:100 | A piece without a newline, then a newline, is the first line read. |
| SetupCors.ConcatSnoc | scripts/setup-cors.py:130 | Writing one more line adds its text at the end. |
| SetupCors.AddedLinesAreWhole | scripts/setup-cors.py:106-126 | The origins, methods and headers lines the script adds are whole lines when the origins hold no newline. |
| SetupCors.UpdateKeepsWholeLines | scripts/setup-cors.py:103-126 | Updating whole lines gives whole lines. |
| SetupCors.FileUpdateReadsBack | scripts/setup-cors.py:98-130 | For a text read that is empty or ends with a newline, the text written reads back as the updated lines and again ends with a newline. |
| SetupCors.FileUpdateKeepsOtherLines | scripts/setup-cors.py:98-130 | In such a text, every line but the first origins line keeps its place and text. |
| SetupCors.FileUpdateHoldsAllKeys | scripts/setup-cors.py:98-130 | Such a file, once written, has a line for each of the three keys. |
| SetupCors.FileUpdateIdempotent | scripts/setup-cors.py:98-130 | On such a file, a second run with the same origins writes the same text. |
| Text.JoinChars | scripts/setup-cors.py:91 | The characters of a joined string are those of its parts and separators. |
| SetupCors.OriginsAvoid | scripts/setup-cors.py:35-91 | The joined origins hold a character only if a typed answer, the comma or a local origin holds it. |
| SetupCors.OriginsHaveNoNewline | scripts/setup-cors.py:35-91 | The joined origins hold no newline when the typed domains hold none. |
| SetupCors.ReadLinesAvoid | scripts/setup-cors.py:100 | No line read holds a character that the text does not hold. |
| SetupCors.ConcatAvoid | scripts/setup-cors.py:130 | The text written holds no character that none of its lines holds. |
| SetupCors.UpdateAvoid | scripts/setup-cors.py:103-126 | The update adds no character that neither the lines read nor the three added lines hold. |
| SetupCors.UpdatedFileHasNoCarriageReturn | scripts/setup-cors.py:98-130 | The script writes no carriage return when neither the text read nor the origins hold one. |
| SetupCors.RerunWritesSameFile | scripts/setup-cors.py:18-130 | Running the script again with the same answers on the file it wrote changes nothing, when the text first read was empty or ended with a newline. The second run reads the file through the same newline translation. |
| SetupCors.GluedWrite | scripts/setup-cors.py:98-130 | A one-line file without its newline, starting like none of the keys, is written as that line followed directly by the three new lines. |
| SetupCors.GluedReadBack | scripts/setup-cors.py:100 | A glued origins line followed by whole lines reads back as the glued line and those lines. |
| SetupCors.GluedTextReadBack | scripts/setup-cors.py:100 | The glued text reads back as the glued line, then the methods and headers lines. |
| SetupCors.TrailingLines | scripts/setup-cors.py:124-130 | The methods and headers lines, written, are their texts one after the other. |
| SetupCors.GluedLinesKeys | scripts/setup-cors.py:104-121 | In the glued lines, no line starts with the origins key, and the other two keys are present. |
| SetupCors.UpdateAppendsOriginsLine | scripts/setup-cors.py:103-126 | Lines that hold the methods and headers keys but no origins line get one origins line appended and nothing else. |
| SetupCors.RerunAppends | scripts/setup-cors.py:98-130 | A file with the methods and headers keys but no origins line gets an origins line appended at its end. |
| SetupCors.GluedRerunAppends | scripts/setup-cors.py:98-130 | A file read as the glued lines has no origins line, and a further run appends one. |
| SetupCors.UnterminatedLineIsGlued | scripts/setup-cors.py:98-130 | As written, a last line without a newline is glued to the new origins line: the file then has no line that sets the origins, and the next run appends one origins line (finding 3). |
| SetupCors.GluedFileSettles | scripts/setup-cors.py:98-130 | After that second run the file is stable: it reads as the glued line, the methods and headers lines and one origins line, and a third run writes it unchanged. The glued line stays, so the last line's value keeps the origins text glued to it. |
| SetupCors.DebugLineIsGlued | scripts/setup-cors.py:98-130 | Example: after a run on the file `DEBUG=1` without a newline, read through the newline translation, no line starts with `ALLOWED_ORIGINS=`. |
| SetupCors.Terminate | scripts/setup-cors.py:100 | Adding the missing newline leaves a text that is empty or ends with a newline. |
| SetupCors.IntendedHoldsAllKeys | scripts/setup-cors.py:98-130 | When the last line is terminated first, every file gets its three keys, each on a line of its own. |
| SetupCors.IntendedIdempotent | scripts/setup-cors.py:98-130 | When the last line is terminated first, a second run never changes the file, and a file already ending with a newline is updated as the code does. |
| Text.StripStart | app/core/config.py:81 | `lstrip`: the longest suffix that does not start with whitespace, after an all-whitespace prefix. |
| Text.StripEnd | app/core/config.py:81 | `rstrip`: the longest prefix that does not end with whitespace, before an all-whitespace suffix. |
| Text.Strip | app/core/config.py:81 | `s.strip()` is never longer than `s`. Its exact shape is stated by `Text.StripIsBoth`, `Text.StripIsSlice` and `Text.StripTrims`. |
| Text.StripIsBoth | app/core/config.py:81 | `strip` is `lstrip` followed by `rstrip`. |
| Text.StripIsSlice | scripts/setup-cors.py:55 | `strip` keeps a contiguous part of its input. |
| Text.StripEmpty | app/core/qa_engine.py:123 | A question strips to nothing exactly when it is all whitespace. |
| Text.StripTrims | app/core/config.py:81 | What `strip` keeps neither starts nor ends with whitespace. |
| Text.Split | scripts/setup-cors.py:54 | `str.split(sep)`: the pieces contain no separator and rejoin to the input. |
| Text.SplitJoin | scripts/setup-cors.py:91 | Splitting a join gives the pieces back when no piece contains the separator. |
| Text.SplitHead | app/api/documents.py:74 | The first field of `head + sep + tail` is `head` when `head` has no separator. |
| Text.Insert | app/core/cache_manager.py:196 | Inserting into a sorted list keeps it sorted and adds exactly that element. |
| Text.Sort | app/core/cache_manager.py:196 | `sorted` returns a sorted permutation of its input. |
| Text.SortedUnique | app/core/cache_manager.py:196 | A multiset of strings has only one sorted arrangement. |
| Text.SortPermutationInvariant | app/core/cache_manager.py:196 | `sorted` gives the same list for any two permutations of its input. |
| Text.LessTransitive | app/core/cache_manager.py:196 | Python's string order is transitive. |
| Text.LessTotal | app/core/cache_manager.py:196 | Python's string order is total on distinct strings. |
| Documents.Document.constructor | app/core/document_processor.py:101-104 | A document holds its page content and a metadata dictionary, which later steps update in place. |
| Documents.Get | app/core/qa_engine.py:201 | `metadata.get(key, default)`. |

## Left out

- **Storage and encodings.** SQLite itself, the schema DDL and indexes, JSON encoding and MD5 are not modelled. The tables are maps and the digest is an abstract function; the model relies only on its being a function, so collisions are allowed. A stored payload is `Encoded(value)`, `Blank` or `Garbled`, which stands in for JSON that does or does not decode.
- **The clock.** Timestamps are integer seconds, and one call reads the clock once. The SQLite `datetime('now')` UTC versus local `datetime.now()` mismatch is not modelled.
- **Rounding.** The rounding of `avg_hits`, hit rates and dollar amounts (`round(..., 2)` and `round(..., 4)`) is left out. Those values are exact reals.
- **Timing.** `processing_time` in responses is a clock reading, and is left out.
- **Concurrency.** Concurrent SQLite access and concurrent provider calls are left out; the source is sequential per request.
- **Chroma's failures.** Whether Chroma accepts a batch or a single add is a parameter, except that a batch with a repeated id is always refused. An entry replaced under its id keeps its place in the collection's order.
- **Services.** The embedding provider, similarity search, `RetrievalQA`, the prompt template, the LLM client, the document loaders and the text splitter's cut points are function parameters. So are UUIDs, the URL check (`validate_url`), file reads, base64 decoding and the keyring.
- **Not modelled in the source files:**
  - the `VectorStore` singleton, its lock and its lazy initialisation;
  - `health_check` and `as_retriever`;
  - `get_collection_info` and `get_document_info`;
  - `Settings.__init__` directory creation;
  - the `show` mode and printing of the CORS script;
  - the HTTP endpoints around the cost figures.
- **HTTP and UI layers.** `app/api/documents.py` is not part of this model beyond the id read-back in `DocumentProcessor.SavedNameYieldsId`. Likewise `app/api/qa.py`, `app/main.py` and the frontend are not part of this model.
- **`from_cache`.** `QuestionResponse` in `app/models/schemas.py:53-57` has no `from_cache` field, so the flag is not in the model's responses. Whether an answer came from the cache is stated through the ghost log of chain calls instead.
- **String handling.**
  - Lower-casing is ASCII only.
  - Whitespace for `strip` is Python's `isspace` set over the Latin-1 and common Unicode spaces.
  - There is no Unicode normalisation.
- **`SetupCors.SetupCorsConfig`** models the text-mode write as on a POSIX platform: each `\n` is written as it is. On Windows, text mode would write each `\n` as `\r\n`; the read-side translation makes a rerun read those back as `\n` all the same. Decoding errors from `encoding='utf-8'` are not modelled: the file is taken to be a sequence of characters.
- **Metadata.** Metadata values are `str`, `int`, `None` or other. Pydantic coercion of other types is not modelled: a value the schema would reject makes the document skipped.
- **Splitter errors.** `DocumentProcessor.ProcessDocument` covers load errors. An exception from the splitter itself is not modelled, because the cut function is total.
- **`QaEngine.QAEngine.Ask`** uses the shaped `SourceDocument` list directly as the cached `sources`. The `dict()` and `SourceDocument(**src)` conversions are the identity here.
- **`Config.GetApiKey`** states only that the result is `None` or non-empty. The priority order is stated by `Config.GetApiKeyIsFirstSource`.
- **`VectorStore.MatchingIds`** states only a length bound. Which ids are returned is stated by `VectorStore.MatchingIdsExactly` and `VectorStore.MatchingIdsEmpty`.

## Findings

| source | as written | input that shows it | evidently intended | confidence | as-written member | corrected member |
|---|---|---|---|---|---|---|
| app/core/cache_manager.py:204-207, 211-214 | Compares `datetime(created_at)` (`YYYY-MM-DD HH:MM:SS`) as text with `cutoff.isoformat()` (`YYYY-MM-DDTHH:MM:SS.ffffff`). A space sorts before `T`, so every row created on the cutoff's date is deleted. | QA row created 2024-05-01 20:00:00, sweep at 2024-05-02 09:00:00. The cutoff is 2024-05-01 09:00; the row is 13 hours old and still live, yet it is deleted. | Delete exactly the rows created before `now - ttl`, so the sweep never removes a row that a read could still return. | not executed | SweepCutoff.SameDayLiveRowIsDeleted | CacheTables.SweepKeepsLiveRows |
| app/core/config.py:176, 180, 184 | `config.setdefault("api_base_url", ...)` finds the key already present (set to the configured value at line 170, possibly `None`), so it never applies a provider default. | Default settings with `llm_provider = "deepseek"`: `api_base_url` is `None`, so the chat client talks to OpenAI's endpoint with a deepseek model name. | Use the provider's endpoint when none is configured. | not executed | Config.DeepSeekEndpointMissing | Config.GetModelConfigIntended |
| scripts/setup-cors.py:100, 111, 130 | `readlines` keeps a last line that has no newline as it is (a file ending in `\r` is not affected: text mode reads that `\r` as `\n`). The script appends `ALLOWED_ORIGINS=...\n` after it, and `writelines` adds no separator, so the two lines are glued. | A `.env` holding `DEBUG=1` with no final newline is written as `DEBUG=1ALLOWED_ORIGINS=...` followed by the methods and headers lines. No line sets the origins. The next run appends one origins line, and from then on the file is stable, but the glued line keeps `DEBUG`'s value corrupted (`1ALLOWED_ORIGINS=...`). | Terminate the last line before appending, so each key sits on a line of its own and a second run changes nothing. | not executed | SetupCors.UnterminatedLineIsGlued | SetupCors.IntendedIdempotent |
