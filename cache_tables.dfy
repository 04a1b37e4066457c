/**
 * The two SQLite tables of the response cache, `embedding_cache` and
 * `qa_cache`, as maps from the primary-key hash to a row. Both tables have
 * the same bookkeeping columns (model name, creation time, last access,
 * access count), so the row type is generic in the payload columns, and the
 * read filter, the hit bookkeeping, the insert-or-replace, the sweep and the
 * aggregate statistics are stated once here for both.
 *
 * Timestamps are whole seconds; the current time is always a parameter.
 */
module CacheTables {
  import opened Wrappers

  /** An embedding vector, kept opaque. */
  type Vector = seq<real>

  /**
   * A JSON column as a read finds it: the text the cache wrote
   * (`Encoded`), a NULL or empty column (`Blank`), or text that no longer
   * decodes (`Garbled`).
   */
  datatype Stored<T> = Encoded(value: T) | Blank | Garbled

  /**
   * One row. `stem` is the truncated `text_content` / `question` column,
   * which no lookup ever reads; `payload` holds the remaining columns.
   */
  datatype Row<P> = Row(stem: string, payload: P, modelName: string,
                        createdAt: int, lastAccessed: int, accessCount: int)

  type Table<P> = map<string, Row<P>>

  /** `datetime(created_at, '+ttl seconds') > datetime('now')`. */
  predicate Live<P>(r: Row<P>, ttl: int, now: int) {
    r.createdAt + ttl > now
  }

  /** The row a read's `WHERE hash = ? AND model_name = ? AND <live>` selects. */
  function Select<P>(t: Table<P>, key: string, model: string, ttl: int, now: int): Option<Row<P>> {
    if key in t && t[key].modelName == model && Live(t[key], ttl, now) then Some(t[key]) else None
  }

  /** The `UPDATE ... SET last_accessed = now, access_count = access_count + 1` of a hit. */
  function Touch<P>(t: Table<P>, key: string, now: int): Table<P>
    requires key in t
  {
    t[key := t[key].(lastAccessed := now, accessCount := t[key].accessCount + 1)]
  }

  /** The table after a read: touched on a hit, unchanged otherwise. */
  function Probe<P>(t: Table<P>, key: string, model: string, ttl: int, now: int): Table<P> {
    if Select(t, key, model, ttl, now).Some? then Touch(t, key, now) else t
  }

  /** `INSERT OR REPLACE`: a whole new row whose `access_count` takes the column default 1. */
  function Put<P>(t: Table<P>, key: string, stem: string, payload: P, model: string, now: int): Table<P> {
    t[key := Row(stem, payload, model, now, now, 1)]
  }

  /** The intended `DELETE ... WHERE created_at < cutoff`, on instants. */
  function Sweep<P>(t: Table<P>, cutoff: int): Table<P> {
    map k | k in t && t[k].createdAt >= cutoff :: t[k]
  }

  /** A read after a hit's bookkeeping selects the same row contents apart from the access columns. */
  lemma ProbeKeepsSelection<P>(t: Table<P>, key: string, model: string, ttl: int, now: int,
                               key': string, model': string, now': int)
    ensures var s := Select(Probe(t, key, model, ttl, now), key', model', ttl, now');
            var s0 := Select(t, key', model', ttl, now');
            s.Some? == s0.Some? &&
            (s.Some? ==> s.value.payload == s0.value.payload && s.value.modelName == s0.value.modelName
                         && s.value.createdAt == s0.value.createdAt)
  {
  }

  /** Round trip: a row just put is selected by the same key and model while it is live. */
  lemma PutThenSelect<P>(t: Table<P>, key: string, stem: string, payload: P, model: string,
                         created: int, ttl: int, now: int)
    requires now < created + ttl
    ensures Select(Put(t, key, stem, payload, model, created), key, model, ttl, now)
         == Some(Row(stem, payload, model, created, created, 1))
  {
  }

  /** Insert-or-replace leaves every other key as it was. */
  lemma PutKeepsOtherKeys<P>(t: Table<P>, key: string, stem: string, payload: P, model: string,
                             now: int, other: string)
    requires other != key
    ensures other in Put(t, key, stem, payload, model, now) <==> other in t
    ensures other in t ==> Put(t, key, stem, payload, model, now)[other] == t[other]
  {
  }

  /** The sweep deletes exactly the rows created before the cutoff and leaves every other row untouched. */
  lemma SweepExact<P>(t: Table<P>, cutoff: int, k: string)
    ensures k in Sweep(t, cutoff) <==> k in t && !(t[k].createdAt < cutoff)
    ensures k in Sweep(t, cutoff) ==> Sweep(t, cutoff)[k] == t[k]
  {
  }

  /** Sweeping with the cutoff `now - ttl` never removes a row a read at `now` could still return. */
  lemma SweepKeepsLiveRows<P>(t: Table<P>, ttl: int, now: int, key: string, model: string)
    ensures Select(Sweep(t, now - ttl), key, model, ttl, now) == Select(t, key, model, ttl, now)
  {
  }

  /**
   * Lazy expiry and the intended sweep disagree on exactly one instant: a
   * row created exactly `ttl` seconds ago is no longer returned by a read,
   * but the intended sweep (strict `<`) keeps it. The sweep as written
   * deletes it (`SweepCutoff.BoundaryRowDeletedAsWritten`).
   */
  lemma BoundaryRowSurvivesSweepButIsNotRead<P>(t: Table<P>, ttl: int, now: int, key: string, model: string)
    requires key in t && t[key].createdAt == now - ttl
    ensures key in Sweep(t, now - ttl)
    ensures Select(t, key, model, ttl, now) == None
  {
  }

  // ---- Aggregates of `get_cache_stats` ---------------------------------

  /** `SUM(access_count)` over the rows whose keys are in `keys`. */
  ghost function SumAccess<P>(t: Table<P>, keys: set<string>): int
    requires keys <= t.Keys
    decreases keys
  {
    if keys == {} then 0
    else
      var k :| k in keys;
      t[k].accessCount + SumAccess(t, keys - {k})
  }

  /** `MAX(last_accessed)` over the rows whose keys are in `keys`; `None` (SQL NULL) when there are none. */
  ghost function MaxAccess<P>(t: Table<P>, keys: set<string>): Option<int>
    requires keys <= t.Keys
    decreases keys
  {
    if keys == {} then None
    else
      var k :| k in keys;
      Some(Later(t[k].lastAccessed, MaxAccess(t, keys - {k})))
  }

  function Later(x: int, m: Option<int>): int {
    if m.Some? && m.value > x then m.value else x
  }

  /** The sum does not depend on the order in which rows are visited. */
  lemma {:induction false} SumAccessRemove<P>(t: Table<P>, keys: set<string>, k: string)
    requires k in keys && keys <= t.Keys
    ensures SumAccess(t, keys) == t[k].accessCount + SumAccess(t, keys - {k})
    decreases keys
  {
    var k' :| k' in keys && SumAccess(t, keys) == t[k'].accessCount + SumAccess(t, keys - {k'});
    if k' != k {
      SumAccessRemove(t, keys - {k'}, k);
      SumAccessRemove(t, keys - {k}, k');
      assert keys - {k'} - {k} == keys - {k} - {k'};
    }
  }

  /** The maximum does not depend on the order in which rows are visited. */
  lemma {:induction false} MaxAccessRemove<P>(t: Table<P>, keys: set<string>, k: string)
    requires k in keys && keys <= t.Keys
    ensures MaxAccess(t, keys) == Some(Later(t[k].lastAccessed, MaxAccess(t, keys - {k})))
    decreases keys
  {
    var k' :| k' in keys && MaxAccess(t, keys) == Some(Later(t[k'].lastAccessed, MaxAccess(t, keys - {k'})));
    if k' != k {
      MaxAccessRemove(t, keys - {k'}, k);
      MaxAccessRemove(t, keys - {k}, k');
      assert keys - {k'} - {k} == keys - {k} - {k'};
      var rest := MaxAccess(t, keys - {k} - {k'});
      assert MaxAccess(t, keys - {k'}) == Some(Later(t[k].lastAccessed, rest));
      assert MaxAccess(t, keys - {k}) == Some(Later(t[k'].lastAccessed, rest));
      LaterSwap(t[k].lastAccessed, t[k'].lastAccessed, rest);
    }
  }

  lemma LaterSwap(a: int, b: int, m: Option<int>)
    ensures Later(a, Some(Later(b, m))) == Later(b, Some(Later(a, m)))
  {
  }

  /** The maximum is attained by some row and bounds every row. */
  lemma {:induction false} MaxAccessIsMaximum<P>(t: Table<P>, keys: set<string>)
    requires keys <= t.Keys
    ensures MaxAccess(t, keys).None? <==> keys == {}
    ensures MaxAccess(t, keys).Some? ==>
              (exists k :: k in keys && t[k].lastAccessed == MaxAccess(t, keys).value)
              && (forall k :: k in keys ==> t[k].lastAccessed <= MaxAccess(t, keys).value)
    decreases keys
  {
    if keys != {} {
      var k :| k in keys;
      MaxAccessRemove(t, keys, k);
      MaxAccessIsMaximum(t, keys - {k});
    }
  }

  /** One table's block of `get_cache_stats`; `avgHits` is `AVG(access_count)` before rounding. */
  datatype TableStats = TableStats(entries: nat, totalHits: int, avgHits: real, lastAccess: Option<int>)

  ghost function Summary<P>(t: Table<P>): TableStats {
    var total := SumAccess(t, t.Keys);
    TableStats(|t|, total, if |t| == 0 then 0.0 else total as real / |t| as real, MaxAccess(t, t.Keys))
  }

  /** The statistics of a table: one pass over its rows. */
  method Summarize<P>(t: Table<P>) returns (s: TableStats)
    ensures s == Summary(t)
  {
    var keys := t.Keys;
    var total := 0;
    var last: Option<int> := None;
    while keys != {}
      invariant keys <= t.Keys
      invariant total + SumAccess(t, keys) == SumAccess(t, t.Keys)
      invariant MaxAccess(t, t.Keys) == if last.None? then MaxAccess(t, keys)
                                        else Some(Later(last.value, MaxAccess(t, keys)))
      decreases keys
    {
      var k :| k in keys;
      SumAccessRemove(t, keys, k);
      MaxAccessRemove(t, keys, k);
      total := total + t[k].accessCount;
      last := Some(if last.Some? && last.value > t[k].lastAccessed then last.value else t[k].lastAccessed);
      keys := keys - {k};
    }
    s := TableStats(|t|, total, if |t| == 0 then 0.0 else total as real / |t| as real, last);
  }

  /** Empty tables report 0 entries, 0 hits, average 0 and no last access. */
  lemma EmptySummary<P>(t: Table<P>)
    requires t == map[]
    ensures Summary(t) == TableStats(0, 0, 0.0, None)
  {
  }

  /** A hit adds exactly one to the reported total. */
  lemma TouchAddsOneHit<P>(t: Table<P>, key: string, now: int)
    requires key in t
    ensures Summary(Touch(t, key, now)).totalHits == Summary(t).totalHits + 1
    ensures Summary(Touch(t, key, now)).entries == Summary(t).entries
  {
    var t' := Touch(t, key, now);
    assert t'.Keys == t.Keys;
    SumAccessRemove(t, t.Keys, key);
    SumAccessRemove(t', t.Keys, key);
    SumAccessAgree(t, t', t.Keys - {key});
  }

  /** Inserting a new key adds one entry and one hit (the default access count). */
  lemma PutNewAddsOneHit<P>(t: Table<P>, key: string, stem: string, payload: P, model: string, now: int)
    requires key !in t
    ensures Summary(Put(t, key, stem, payload, model, now)).totalHits == Summary(t).totalHits + 1
    ensures Summary(Put(t, key, stem, payload, model, now)).entries == Summary(t).entries + 1
  {
    var t' := Put(t, key, stem, payload, model, now);
    assert t'.Keys - {key} == t.Keys;
    SumAccessRemove(t', t'.Keys, key);
    SumAccessAgree(t, t', t.Keys);
  }

  /** Two tables that agree on the access counts of `keys` have the same sum over `keys`. */
  lemma {:induction false} SumAccessAgree<P>(t: Table<P>, t': Table<P>, keys: set<string>)
    requires keys <= t.Keys && keys <= t'.Keys
    requires forall k :: k in keys ==> t[k].accessCount == t'[k].accessCount
    ensures SumAccess(t, keys) == SumAccess(t', keys)
    decreases keys
  {
    if keys != {} {
      var k :| k in keys && SumAccess(t, keys) == t[k].accessCount + SumAccess(t, keys - {k});
      SumAccessRemove(t', keys, k);
      SumAccessAgree(t, t', keys - {k});
    }
  }
}
