/**
 * The rollup job (`populate_api_usage_bucket`, `populate_feature_evaluation_bucket`
 * and their source queries in app_analytics/tasks.py).
 *
 * For every window of a run, the job reads the source rows of the window,
 * groups them by (environment, dimension, labels), sums their counts, and
 * upserts one bucket row per group, overwriting `total_count`.
 */
module Aggregation {
  import opened Wrappers
  import opened Bucketing
  import opened Analytics

  /** Python truthiness of `source_bucket_size`: `None` and `0` both select the raw table. */
  predicate ReadsBuckets(sourceBucketSize: Option<int>) {
    sourceBucketSize.Some? && sourceBucketSize.value != 0
  }

  /** The groups that have a raw event in the window. */
  function RawGroups<D(==)>(raw: seq<RawEvent<D>>, w: Window): set<Group<D>> {
    set i | 0 <= i < |raw| && Contains(w, raw[i].createdAt) :: GroupOf(raw[i])
  }

  /**
   * The raw-table source query: the events created in `(w.start, w.end]`,
   * grouped and summed. A group appears exactly when one of its events lies
   * in the window, so different label sets always stay apart.
   */
  function RawSource<D(==,!new)>(raw: seq<RawEvent<D>>, w: Window): (agg: Aggregate<D>)
    ensures forall g :: g in agg <==> HasRawEvent(raw, g, w.start, w.end)
    ensures forall g :: g in agg ==> agg[g] == RawSum(raw, g, w.start, w.end)
  {
    var groups := RawGroups(raw, w);
    assert forall g :: g in groups <==> HasRawEvent(raw, g, w.start, w.end) by {
      forall g | HasRawEvent(raw, g, w.start, w.end) ensures g in groups {
        var i :| 0 <= i < |raw| && GroupOf(raw[i]) == g && w.start < raw[i].createdAt <= w.end;
        assert Contains(w, raw[i].createdAt);
      }
    }
    map g | g in groups :: RawSum(raw, g, w.start, w.end)
  }

  /** The groups that have a bucket row of size `sourceBucketSize` starting in `[w.start, w.end)`. */
  function BucketGroups<D(==)>(store: Store<D>, sourceBucketSize: int, w: Window): set<Group<D>> {
    set k | k in store && k.bucketSize == sourceBucketSize && w.start <= k.createdAt < w.end :: KeyGroup(k)
  }

  /**
   * The bucket-table source query of a cascading rollup: the finer bucket
   * rows whose own window lies inside `w`, that is, whose start is in
   * `[w.start, w.end)`, grouped and summed. (The source selects starts in
   * `(w.start, w.end]`; see `Cascade.AsWrittenBucketSource`.)
   */
  function BucketSource<D(==,!new)>(store: Store<D>, sourceBucketSize: int, w: Window): (agg: Aggregate<D>)
    ensures forall g :: g in agg <==>
      exists t :: w.start <= t < w.end && KeyFor(g, sourceBucketSize, t) in store
    ensures forall g :: g in agg ==> agg[g] == BucketSum(store, g, sourceBucketSize, w.start, w.end)
  {
    var groups := BucketGroups(store, sourceBucketSize, w);
    assert forall g :: g in groups <==> exists t :: w.start <= t < w.end && KeyFor(g, sourceBucketSize, t) in store by {
      forall g | g in groups ensures exists t :: w.start <= t < w.end && KeyFor(g, sourceBucketSize, t) in store {
        var k :| k in store && k.bucketSize == sourceBucketSize && w.start <= k.createdAt < w.end && KeyGroup(k) == g;
        assert KeyFor(g, sourceBucketSize, k.createdAt) == k;
      }
      forall g | exists t :: w.start <= t < w.end && KeyFor(g, sourceBucketSize, t) in store ensures g in groups {
        var t :| w.start <= t < w.end && KeyFor(g, sourceBucketSize, t) in store;
        assert KeyGroup(KeyFor(g, sourceBucketSize, t)) == g;
      }
    }
    map g | g in groups :: BucketSum(store, g, sourceBucketSize, w.start, w.end)
  }

  /** `_get_api_usage_source_data` / `_get_feature_evaluation_source_data`. */
  function SourceData<D(==,!new)>(raw: seq<RawEvent<D>>, store: Store<D>, w: Window, sourceBucketSize: Option<int>): (agg: Aggregate<D>)
    ensures ReadsBuckets(sourceBucketSize) ==> agg == BucketSource(store, sourceBucketSize.value, w)
    ensures !ReadsBuckets(sourceBucketSize) ==> agg == RawSource(raw, w)
  {
    if ReadsBuckets(sourceBucketSize) then BucketSource(store, sourceBucketSize.value, w)
    else RawSource(raw, w)
  }

  /** The rows one window writes: one key per group, at the window start, holding the group's sum. */
  function Upserts<D(==,!new)>(agg: Aggregate<D>, bucketSize: int, start: Instant): (m: Store<D>)
    ensures forall k :: k in m ==> k.bucketSize == bucketSize && k.createdAt == start && KeyGroup(k) in agg
    ensures forall g :: g in agg ==> KeyFor(g, bucketSize, start) in m && m[KeyFor(g, bucketSize, start)] == agg[g]
  {
    var keys := set g | g in agg :: KeyFor(g, bucketSize, start);
    assert forall k :: k in keys ==> KeyGroup(k) in agg;
    map k | k in keys :: agg[KeyGroup(k)]
  }

  /**
   * `update_or_create` of every group of one window: the group's key gets the
   * fresh sum, whatever it held before, and every other row keeps its count.
   */
  function UpsertWindow<D(==,!new)>(store: Store<D>, agg: Aggregate<D>, bucketSize: int, start: Instant): (r: Store<D>)
    ensures r.Keys == store.Keys + (set g | g in agg :: KeyFor(g, bucketSize, start))
    ensures forall g :: g in agg ==> r[KeyFor(g, bucketSize, start)] == agg[g]
    ensures forall k :: k in store && !(k.bucketSize == bucketSize && k.createdAt == start && KeyGroup(k) in agg) ==> r[k] == store[k]
  {
    var m := Upserts(agg, bucketSize, start);
    assert m.Keys == set g | g in agg :: KeyFor(g, bucketSize, start) by {
      forall k | k in m ensures k in set g | g in agg :: KeyFor(g, bucketSize, start) {
        assert KeyFor(KeyGroup(k), bucketSize, start) == k;
      }
    }
    store + m
  }

  /** Some window of `ws` starts at `t`. */
  predicate IsWindowStart(ws: seq<Window>, t: Instant) {
    exists i :: 0 <= i < |ws| && ws[i].start == t
  }

  /**
   * The body of the populate loop over the windows, in the order given. Each
   * window reads the store as the previous windows left it. Only rows of the
   * target size at some window start are ever added or changed.
   */
  function Populate<D(==,!new)>(store: Store<D>, raw: seq<RawEvent<D>>, ws: seq<Window>, bucketSize: int, sourceBucketSize: Option<int>): (r: Store<D>)
    ensures store.Keys <= r.Keys
    ensures forall k :: k in r && k !in store ==> k.bucketSize == bucketSize && IsWindowStart(ws, k.createdAt)
    ensures forall k :: k in store && !(k.bucketSize == bucketSize && IsWindowStart(ws, k.createdAt)) ==> r[k] == store[k]
    decreases |ws|
  {
    if |ws| == 0 then store
    else
      var next := UpsertWindow(store, SourceData(raw, store, ws[0], sourceBucketSize), bucketSize, ws[0].start);
      var r := Populate(next, raw, ws[1..], bucketSize, sourceBucketSize);
      assert forall t :: IsWindowStart(ws[1..], t) ==> IsWindowStart(ws, t) by {
        forall t | IsWindowStart(ws[1..], t) ensures IsWindowStart(ws, t) {
          var i :| 0 <= i < |ws[1..]| && ws[1..][i].start == t;
          assert ws[i + 1].start == t;
        }
      }
      assert IsWindowStart(ws, ws[0].start);
      r
  }

  /**
   * One populate call for one dimension: the windows of `TimeBuckets`, then
   * `Populate`. A bucket size above 60 minutes fails before anything is written.
   */
  function PopulateBucket<D(==,!new)>(store: Store<D>, raw: seq<RawEvent<D>>, bucketSize: int, runEvery: int, sourceBucketSize: Option<int>, now: Instant): (r: Result<Store<D>, ConfigError>)
    requires 0 < bucketSize
    ensures r.Failure? <==> bucketSize > MaxBucketSize
    ensures r.Success? ==> store.Keys <= r.value.Keys
    ensures r.Success? ==> forall k :: k in r.value && k !in store ==>
      && k.bucketSize == bucketSize
      && IsWindowStart(TimeBuckets(bucketSize, runEvery, now).value, k.createdAt)
      && k.createdAt <= StartOfCurrentBucket(bucketSize, now).value - bucketSize * SecondsPerMinute
    ensures r.Success? ==> forall k :: k in store && !(k.bucketSize == bucketSize && IsWindowStart(TimeBuckets(bucketSize, runEvery, now).value, k.createdAt)) ==>
      r.value[k] == store[k]
  {
    match TimeBuckets(bucketSize, runEvery, now)
    case Failure(e) => Failure(e)
    case Success(ws) =>
      var r := Populate(store, raw, ws, bucketSize, sourceBucketSize);
      assert forall t :: IsWindowStart(ws, t) ==> t <= StartOfCurrentBucket(bucketSize, now).value - bucketSize * SecondsPerMinute by {
        forall t | IsWindowStart(ws, t) ensures t <= StartOfCurrentBucket(bucketSize, now).value - bucketSize * SecondsPerMinute {
          var i :| 0 <= i < |ws| && ws[i].start == t;
          assert ws[i].start <= ws[0].start;
        }
      }
      Success(r)
  }

  /** The analytics tables of both dimensions. */
  datatype AnalyticsDb = AnalyticsDb(
    apiUsageRaw: seq<RawEvent<Resource>>,
    apiUsageBuckets: Store<Resource>,
    featureEvaluationRaw: seq<RawEvent<string>>,
    featureEvaluationBuckets: Store<string>)

  /** `populate_api_usage_bucket`: rolls API usage up; no other table changes. */
  function PopulateApiUsageBucket(db: AnalyticsDb, bucketSize: int, runEvery: int, sourceBucketSize: Option<int>, now: Instant): (r: Result<AnalyticsDb, ConfigError>)
    requires 0 < bucketSize
    ensures r.Failure? <==> bucketSize > MaxBucketSize
    ensures r.Success? ==> r.value == db.(apiUsageBuckets := r.value.apiUsageBuckets)
    ensures r.Success? ==> r.value.apiUsageBuckets == PopulateBucket(db.apiUsageBuckets, db.apiUsageRaw, bucketSize, runEvery, sourceBucketSize, now).value
  {
    match PopulateBucket(db.apiUsageBuckets, db.apiUsageRaw, bucketSize, runEvery, sourceBucketSize, now)
    case Failure(e) => Failure(e)
    case Success(s) => Success(db.(apiUsageBuckets := s))
  }

  /** `populate_feature_evaluation_bucket`: rolls feature evaluations up; no other table changes. */
  function PopulateFeatureEvaluationBucket(db: AnalyticsDb, bucketSize: int, runEvery: int, sourceBucketSize: Option<int>, now: Instant): (r: Result<AnalyticsDb, ConfigError>)
    requires 0 < bucketSize
    ensures r.Failure? <==> bucketSize > MaxBucketSize
    ensures r.Success? ==> r.value == db.(featureEvaluationBuckets := r.value.featureEvaluationBuckets)
    ensures r.Success? ==> r.value.featureEvaluationBuckets == PopulateBucket(db.featureEvaluationBuckets, db.featureEvaluationRaw, bucketSize, runEvery, sourceBucketSize, now).value
  {
    match PopulateBucket(db.featureEvaluationBuckets, db.featureEvaluationRaw, bucketSize, runEvery, sourceBucketSize, now)
    case Failure(e) => Failure(e)
    case Success(s) => Success(db.(featureEvaluationBuckets := s))
  }
}
