/**
 * The comparison in the `DELETE` statements of `cleanup_expired_cache`,
 * at the level of the text SQLite actually compares.
 *
 * `created_at` holds `datetime.now().isoformat()` and the cutoff is bound
 * as `cutoff.isoformat()`, both `YYYY-MM-DDTHH:MM:SS[.ffffff]`; but the
 * statement compares `datetime(created_at)`, which SQLite renders as
 * `YYYY-MM-DD HH:MM:SS`, with the cutoff as TEXT, character by character.
 * At the tenth position a space meets a `T`, and the space is smaller, so
 * a row created on the cutoff's calendar date is deleted whatever its time
 * of day, even when it is younger than the TTL and reads still return it.
 *
 * On the tables, where timestamps are instants in seconds, the comparison
 * as written keeps exactly the rows created on a later calendar day than
 * the cutoff (`SweepAsWritten`); `Cache.CacheManager.CleanupExpiredCache`
 * sweeps that way. `CacheTables.Sweep` is the intended sweep,
 * `created_at < cutoff` on instants.
 */
module SweepCutoff {
  import opened Wrappers
  import opened CacheTables
  import Text

  /** `datetime(x)` as SQLite renders it: the date, a space, the time of day to the second. */
  function SqliteText(date: string, time: string): string {
    date + " " + time
  }

  /** `x.isoformat()`: the date, `T`, the time of day. */
  function IsoText(date: string, time: string): string {
    date + "T" + time
  }

  /**
   * The `WHERE datetime(created_at) < ?` test as written. SQLite's BINARY
   * collation compares these ASCII strings exactly as `Text.Less` does.
   */
  predicate DeletedAsWritten(createdDate: string, createdTime: string, cutoffDate: string, cutoffTime: string) {
    Text.Less(SqliteText(createdDate, createdTime), IsoText(cutoffDate, cutoffTime))
  }

  /**
   * The intended test, creation instant before the cutoff instant. With
   * fixed-width date and time fields, text order is chronological order.
   */
  predicate DeletedAsIntended(createdDate: string, createdTime: string, cutoffDate: string, cutoffTime: string) {
    Text.Less(createdDate, cutoffDate) || (createdDate == cutoffDate && Text.Less(createdTime, cutoffTime))
  }

  /** Once the dates have been compared, the separator decides: a space sorts before `T`. */
  lemma {:induction false} SeparatorDecides(d1: string, d2: string, t1: string, t2: string)
    requires |d1| == |d2|
    ensures Text.Less(d1 + " " + t1, d2 + "T" + t2) <==> Text.Less(d1, d2) || d1 == d2
    decreases |d1|
  {
    var x, y := d1 + " " + t1, d2 + "T" + t2;
    if d1 == [] {
      assert x[0] == ' ' && y[0] == 'T';
    } else {
      assert x[0] == d1[0] && y[0] == d2[0];
      assert x[1..] == d1[1..] + " " + t1;
      assert y[1..] == d2[1..] + "T" + t2;
      SeparatorDecides(d1[1..], d2[1..], t1, t2);
      if d1[0] == d2[0] && d1[1..] == d2[1..] {
        assert d1 == [d1[0]] + d1[1..] && d2 == [d2[0]] + d2[1..];
      }
    }
  }

  /** As written, the sweep deletes every row created on the cutoff's date, whatever the two times of day. */
  lemma AsWrittenDeletesWholeCutoffDate(date: string, createdTime: string, cutoffTime: string)
    ensures DeletedAsWritten(date, createdTime, date, cutoffTime)
  {
    SeparatorDecides(date, date, createdTime, cutoffTime);
  }

  /** As written, the sweep deletes a superset of what it should, on equal-width dates. */
  lemma AsWrittenCoversIntended(createdDate: string, createdTime: string, cutoffDate: string, cutoffTime: string)
    requires |createdDate| == |cutoffDate|
    ensures DeletedAsIntended(createdDate, createdTime, cutoffDate, cutoffTime)
            ==> DeletedAsWritten(createdDate, createdTime, cutoffDate, cutoffTime)
    ensures DeletedAsWritten(createdDate, createdTime, cutoffDate, cutoffTime)
            <==> Text.Less(createdDate, cutoffDate) || createdDate == cutoffDate
  {
    SeparatorDecides(createdDate, cutoffDate, createdTime, cutoffTime);
  }

  /**
   * A QA answer cached at 20:00 on 1 May and swept at 09:00 on 2 May: it is
   * 13 hours old, within the one-day TTL, so reads still return it; the
   * cutoff is 09:00 on 1 May, and the row is deleted anyway.
   */
  lemma SameDayLiveRowIsDeleted()
    ensures DeletedAsWritten("2024-05-01", "20:00:00", "2024-05-01", "09:00:00.000000")
    ensures !DeletedAsIntended("2024-05-01", "20:00:00", "2024-05-01", "09:00:00.000000")
  {
    AsWrittenDeletesWholeCutoffDate("2024-05-01", "20:00:00", "09:00:00.000000");
    var a: string, b: string := "20:00:00", "09:00:00.000000";
    assert a[0] == '2' && b[0] == '0';
    Text.LessAsymmetric(b, a);
    Text.LessIrreflexive("2024-05-01");
  }

  // ---- The same comparison on the tables ------------------------------------------

  const SecondsPerDay: int := 24 * 3600

  /** The calendar day of an instant, in days since the epoch (`/` on `int` rounds down for a positive divisor). */
  function Day(t: int): int {
    t / SecondsPerDay
  }

  /** `cleanup_expired_cache`'s `DELETE` on one table as it behaves: rows created on or before the cutoff's date go. */
  function SweepAsWritten<P>(t: Table<P>, cutoff: int): Table<P> {
    map k | k in t && Day(t[k].createdAt) > Day(cutoff) :: t[k]
  }

  /** A row survives the sweep as written exactly when it was created on a later day than the cutoff, and is then unchanged. */
  lemma SweepAsWrittenExact<P>(t: Table<P>, cutoff: int, k: string)
    ensures k in SweepAsWritten(t, cutoff) <==> k in t && Day(t[k].createdAt) > Day(cutoff)
    ensures k in SweepAsWritten(t, cutoff) ==> SweepAsWritten(t, cutoff)[k] == t[k]
  {
  }

  /**
   * The table sweep is the text comparison: when the two dates are
   * rendered as equal-width text in day order (as `YYYY-MM-DD` is), a row
   * survives `SweepAsWritten` exactly when `DeletedAsWritten` is false of
   * its rendered timestamps, whatever the two times of day.
   */
  lemma SweepAsWrittenIsTextComparison<P>(t: Table<P>, cutoff: int, k: string, createdDate: string,
                                          createdTime: string, cutoffDate: string, cutoffTime: string)
    requires k in t && |createdDate| == |cutoffDate|
    requires createdDate == cutoffDate <==> Day(t[k].createdAt) == Day(cutoff)
    requires Text.Less(createdDate, cutoffDate) <==> Day(t[k].createdAt) < Day(cutoff)
    ensures k in SweepAsWritten(t, cutoff) <==> !DeletedAsWritten(createdDate, createdTime, cutoffDate, cutoffTime)
  {
    AsWrittenCoversIntended(createdDate, createdTime, cutoffDate, cutoffTime);
  }

  lemma DayMonotone(a: int, b: int)
    requires a <= b
    ensures Day(a) <= Day(b)
  {
  }

  /** Every row the sweep as written keeps, the intended sweep keeps too: as written it deletes a superset. */
  lemma AsWrittenSweepWithinIntended<P>(t: Table<P>, cutoff: int, k: string)
    requires k in SweepAsWritten(t, cutoff)
    ensures k in Sweep(t, cutoff) && Sweep(t, cutoff)[k] == SweepAsWritten(t, cutoff)[k]
  {
    if t[k].createdAt < cutoff {
      DayMonotone(t[k].createdAt, cutoff);
    }
  }

  /**
   * A row created later on the cutoff's date is live (a read at `now`
   * returns it), yet the sweep as written deletes it.
   */
  lemma AsWrittenSweepDeletesLiveRow<P>(t: Table<P>, key: string, model: string, ttl: int, now: int)
    requires key in t && t[key].modelName == model
    requires Day(t[key].createdAt) == Day(now - ttl) && t[key].createdAt > now - ttl
    ensures Select(t, key, model, ttl, now) == Some(t[key])
    ensures key !in SweepAsWritten(t, now - ttl)
  {
  }

  /** A row created exactly `ttl` seconds ago shares the cutoff's date, so the sweep as written deletes it. */
  lemma BoundaryRowDeletedAsWritten<P>(t: Table<P>, key: string, ttl: int, now: int)
    requires key in t && t[key].createdAt == now - ttl
    ensures key !in SweepAsWritten(t, now - ttl)
  {
  }

  /**
   * The example of `SameDayLiveRowIsDeleted` on a table: an answer stored at
   * 20:00 on 1 May 2024 (day 19844 since the epoch), swept at 09:00 the next
   * day with the one-day TTL, is read back but deleted.
   */
  lemma SameDayLiveRowLeavesTable(answer: string)
    ensures var created := 19844 * SecondsPerDay + 20 * 3600;
            var now := 19845 * SecondsPerDay + 9 * 3600;
            var t := map["k" := Row("q", answer, "openai/gpt-3.5-turbo", created, created, 1)];
            && Select(t, "k", "openai/gpt-3.5-turbo", SecondsPerDay, now).Some?
            && "k" !in SweepAsWritten(t, now - SecondsPerDay)
  {
    var created := 19844 * SecondsPerDay + 20 * 3600;
    var now := 19845 * SecondsPerDay + 9 * 3600;
    var t := map["k" := Row("q", answer, "openai/gpt-3.5-turbo", created, created, 1)];
    assert Day(created) == 19844 && Day(now - SecondsPerDay) == 19844;
    AsWrittenSweepDeletesLiveRow(t, "k", "openai/gpt-3.5-turbo", SecondsPerDay, now);
  }
}
