/**
 * The retention sweep (`clean_up_old_analytics_data` in app_analytics/tasks.py).
 *
 * Every analytics table loses the rows created strictly before its cutoff,
 * `now` minus the table's retention period. Raw tables and bucket tables
 * have separate retention periods.
 */
module Retention {
  import opened Bucketing
  import opened Analytics
  import opened Aggregation

  const SecondsPerDay: int := 86400

  /** `timezone.now() - timedelta(days=days)`. */
  function Cutoff(now: Instant, days: int): (c: Instant)
    ensures c + days * SecondsPerDay == now
    ensures 0 <= days ==> c <= now
  {
    now - days * SecondsPerDay
  }

  /** The rows of a raw table that survive the sweep: those created at or after `cutoff`. */
  function KeepRaw<D(==,!new)>(raw: seq<RawEvent<D>>, cutoff: Instant): (r: seq<RawEvent<D>>)
    ensures |r| <= |raw|
    ensures forall i :: 0 <= i < |r| ==> r[i] in raw && cutoff <= r[i].createdAt
    decreases |raw|
  {
    if |raw| == 0 then []
    else
      var init := raw[..|raw| - 1];
      var e := raw[|raw| - 1];
      assert raw == init + [e];
      KeepRaw(init, cutoff) + (if cutoff <= e.createdAt then [e] else [])
  }

  /** The rows of a bucket table that survive the sweep: those whose bucket starts at or after `cutoff`. */
  function KeepBuckets<D(==,!new)>(store: Store<D>, cutoff: Instant): (r: Store<D>)
    ensures forall k :: k in r <==> k in store && cutoff <= k.createdAt
    ensures forall k :: k in r ==> r[k] == store[k]
  {
    map k | k in store && cutoff <= k.createdAt :: store[k]
  }

  /**
   * The sweep over the four analytics tables. A single `now` stands for
   * the four `timezone.now()` calls of the source.
   */
  function CleanUp(db: AnalyticsDb, now: Instant, rawDays: int, bucketDays: int): (r: AnalyticsDb)
    ensures r.apiUsageRaw == KeepRaw(db.apiUsageRaw, Cutoff(now, rawDays))
    ensures r.featureEvaluationRaw == KeepRaw(db.featureEvaluationRaw, Cutoff(now, rawDays))
    ensures r.apiUsageBuckets == KeepBuckets(db.apiUsageBuckets, Cutoff(now, bucketDays))
    ensures r.featureEvaluationBuckets == KeepBuckets(db.featureEvaluationBuckets, Cutoff(now, bucketDays))
  {
    AnalyticsDb(
      KeepRaw(db.apiUsageRaw, Cutoff(now, rawDays)),
      KeepBuckets(db.apiUsageBuckets, Cutoff(now, bucketDays)),
      KeepRaw(db.featureEvaluationRaw, Cutoff(now, rawDays)),
      KeepBuckets(db.featureEvaluationBuckets, Cutoff(now, bucketDays)))
  }

  /** Each recent event survives as many times as it occurs; every older one is gone. */
  lemma {:induction false} KeepRawCounts<D(!new)>(raw: seq<RawEvent<D>>, cutoff: Instant, e: RawEvent<D>)
    ensures multiset(KeepRaw(raw, cutoff))[e] == if cutoff <= e.createdAt then multiset(raw)[e] else 0
    decreases |raw|
  {
    if |raw| > 0 {
      var init := raw[..|raw| - 1];
      var last := raw[|raw| - 1];
      assert raw == init + [last];
      KeepRawCounts(init, cutoff, e);
    }
  }

  /** An event survives the sweep exactly when it was in the table and is not older than the cutoff. */
  lemma KeptIff<D(!new)>(raw: seq<RawEvent<D>>, cutoff: Instant, e: RawEvent<D>)
    ensures e in KeepRaw(raw, cutoff) <==> e in raw && cutoff <= e.createdAt
  {
    var r := KeepRaw(raw, cutoff);
    KeepRawCounts(raw, cutoff, e);
    assert e in r <==> multiset(r)[e] > 0;
    assert e in raw <==> multiset(raw)[e] > 0;
  }

  /** The sweep keeps the surviving events in their original order. */
  lemma {:induction false} KeepRawIsSubsequence<D(!new)>(raw: seq<RawEvent<D>>, cutoff: Instant, i: int, j: int)
    requires 0 <= i < j < |KeepRaw(raw, cutoff)|
    ensures exists p, q :: 0 <= p < q < |raw| && raw[p] == KeepRaw(raw, cutoff)[i] && raw[q] == KeepRaw(raw, cutoff)[j]
    decreases |raw|
  {
    var init := raw[..|raw| - 1];
    var e := raw[|raw| - 1];
    var r := KeepRaw(raw, cutoff);
    var ri := KeepRaw(init, cutoff);
    if j < |ri| {
      assert r[i] == ri[i] && r[j] == ri[j];
      KeepRawIsSubsequence(init, cutoff, i, j);
      var p, q :| 0 <= p < q < |init| && init[p] == ri[i] && init[q] == ri[j];
      assert raw[p] == init[p] && raw[q] == init[q];
    } else {
      assert r[j] == e;
      assert r[i] == ri[i];
      assert ri[i] in multiset(ri);
      assert ri[i] in init by {
        KeptIff(init, cutoff, ri[i]);
      }
      var p :| 0 <= p < |init| && init[p] == ri[i];
      assert raw[p] == init[p] && raw[|raw| - 1] == e;
    }
  }

  /** Sweeping twice with the same cutoff deletes nothing more. */
  lemma KeepRawIdempotent<D(!new)>(raw: seq<RawEvent<D>>, cutoff: Instant)
    ensures KeepRaw(KeepRaw(raw, cutoff), cutoff) == KeepRaw(raw, cutoff)
  {
    KeepRawAllRecent(KeepRaw(raw, cutoff), cutoff);
  }

  /** A table whose events are all recent enough is left as it is. */
  lemma {:induction false} KeepRawAllRecent<D(!new)>(raw: seq<RawEvent<D>>, cutoff: Instant)
    requires forall i :: 0 <= i < |raw| ==> cutoff <= raw[i].createdAt
    ensures KeepRaw(raw, cutoff) == raw
    decreases |raw|
  {
    if |raw| > 0 {
      var init := raw[..|raw| - 1];
      assert forall i :: 0 <= i < |init| ==> init[i] == raw[i];
      KeepRawAllRecent(init, cutoff);
      assert raw == init + [raw[|raw| - 1]];
    }
  }

  /** Running the whole sweep twice at the same instant deletes nothing more. */
  lemma CleanUpIdempotent(db: AnalyticsDb, now: Instant, rawDays: int, bucketDays: int)
    ensures CleanUp(CleanUp(db, now, rawDays, bucketDays), now, rawDays, bucketDays) == CleanUp(db, now, rawDays, bucketDays)
  {
    var rawCutoff := Cutoff(now, rawDays);
    var bucketCutoff := Cutoff(now, bucketDays);
    KeepRawIdempotent(db.apiUsageRaw, rawCutoff);
    KeepRawIdempotent(db.featureEvaluationRaw, rawCutoff);
    KeepBucketsIdempotent(db.apiUsageBuckets, bucketCutoff);
    KeepBucketsIdempotent(db.featureEvaluationBuckets, bucketCutoff);
  }

  /** Sweeping a bucket table twice with the same cutoff deletes nothing more. */
  lemma KeepBucketsIdempotent<D(!new)>(store: Store<D>, cutoff: Instant)
    ensures KeepBuckets(KeepBuckets(store, cutoff), cutoff) == KeepBuckets(store, cutoff)
  {
  }

  /**
   * The sweep does not change any raw total over a window that starts at or
   * after the cutoff: every event counted there is recent enough to survive.
   */
  lemma {:induction false} RecentRawSumsSurvive<D(!new)>(raw: seq<RawEvent<D>>, cutoff: Instant, g: Group<D>, lo: Instant, hi: Instant)
    requires cutoff <= lo
    ensures RawSum(KeepRaw(raw, cutoff), g, lo, hi) == RawSum(raw, g, lo, hi)
    decreases |raw|
  {
    if |raw| > 0 {
      var init := raw[..|raw| - 1];
      var e := raw[|raw| - 1];
      RecentRawSumsSurvive(init, cutoff, g, lo, hi);
      var kept := KeepRaw(init, cutoff);
      if cutoff <= e.createdAt {
        var s := kept + [e];
        assert KeepRaw(raw, cutoff) == s;
        assert s[..|s| - 1] == kept;
      } else {
        assert KeepRaw(raw, cutoff) == kept;
      }
    }
  }

  /** Likewise for bucket totals over start ranges that begin at or after the cutoff. */
  lemma {:induction false} RecentBucketSumsSurvive<D(!new)>(store: Store<D>, cutoff: Instant, g: Group<D>, bucketSize: int, lo: Instant, hi: Instant)
    requires cutoff <= lo
    ensures BucketSum(KeepBuckets(store, cutoff), g, bucketSize, lo, hi) == BucketSum(store, g, bucketSize, lo, hi)
    decreases hi - lo
  {
    if lo < hi {
      RecentBucketSumsSurvive(store, cutoff, g, bucketSize, lo, hi - 1);
    }
  }
}
