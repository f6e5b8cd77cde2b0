/**
 * The analytics tables the rollup job reads and writes (app_analytics/tasks.py).
 *
 * Both dimensions, API usage (keyed by a resource) and feature evaluation
 * (keyed by a feature name), have the same shape, so the tables are generic
 * in the dimension type `D`.
 */
module Analytics {
  import opened Bucketing

  /** A label set; two label sets are the same group key only when equal as maps. */
  type Labels = map<string, string>

  /** Code of an `app_analytics.models.Resource` member (that enum is not part of this model). */
  type Resource = int

  /** The grouping key of the rollup: (environment, resource or feature name, labels). */
  datatype Group<D> = Group(environment: int, dimension: D, labels: Labels)

  /** One row of a raw table (`APIUsageRaw.count` / `FeatureEvaluationRaw.evaluation_count`). */
  datatype RawEvent<D> = RawEvent(environment: int, dimension: D, count: nat, labels: Labels, createdAt: Instant)

  /** The unique key of a bucket row; `createdAt` is the start of the bucket's window. */
  datatype BucketKey<D> = BucketKey(environment: int, dimension: D, bucketSize: int, createdAt: Instant, labels: Labels)

  /** A bucket table: each key maps to its `total_count`. */
  type Store<D(==)> = map<BucketKey<D>, nat>

  /** A grouped-and-summed query result: each group maps to its summed count. */
  type Aggregate<D(==)> = map<Group<D>, nat>

  function GroupOf<D(==)>(e: RawEvent<D>): Group<D> {
    Group(e.environment, e.dimension, e.labels)
  }

  function KeyGroup<D(==)>(k: BucketKey<D>): Group<D> {
    Group(k.environment, k.dimension, k.labels)
  }

  /** The bucket key of group `g` for a bucket of `bucketSize` minutes starting at `createdAt`. */
  function KeyFor<D(==)>(g: Group<D>, bucketSize: int, createdAt: Instant): BucketKey<D> {
    BucketKey(g.environment, g.dimension, bucketSize, createdAt, g.labels)
  }

  /** Total count of the raw events of group `g` created in `(lo, hi]`. */
  function RawSum<D(==)>(raw: seq<RawEvent<D>>, g: Group<D>, lo: Instant, hi: Instant): nat
    decreases |raw|
  {
    if |raw| == 0 then 0
    else
      var e := raw[|raw| - 1];
      RawSum(raw[..|raw| - 1], g, lo, hi) + (if GroupOf(e) == g && lo < e.createdAt <= hi then e.count else 0)
  }

  /** Some raw event of group `g` was created in `(lo, hi]`. */
  predicate HasRawEvent<D(==)>(raw: seq<RawEvent<D>>, g: Group<D>, lo: Instant, hi: Instant) {
    exists i :: 0 <= i < |raw| && GroupOf(raw[i]) == g && lo < raw[i].createdAt <= hi
  }

  /** Total `total_count` of the bucket rows of group `g` and size `bucketSize` whose start is in `[lo, hi)`. */
  function BucketSum<D(==)>(store: Store<D>, g: Group<D>, bucketSize: int, lo: Instant, hi: Instant): nat
    decreases hi - lo
  {
    if hi <= lo then 0
    else
      var k := KeyFor(g, bucketSize, hi - 1);
      BucketSum(store, g, bucketSize, lo, hi - 1) + (if k in store then store[k] else 0)
  }

  /** A group's events in `(lo, hi]` sum to the events in `(lo, mid]` plus those in `(mid, hi]`. */
  lemma {:induction false} RawSumSplit<D>(raw: seq<RawEvent<D>>, g: Group<D>, lo: Instant, mid: Instant, hi: Instant)
    requires lo <= mid <= hi
    ensures RawSum(raw, g, lo, hi) == RawSum(raw, g, lo, mid) + RawSum(raw, g, mid, hi)
    decreases |raw|
  {
    if |raw| > 0 {
      RawSumSplit(raw[..|raw| - 1], g, lo, mid, hi);
    }
  }

  /** A group with no event in the window sums to zero. */
  lemma {:induction false} RawSumWithoutEvents<D>(raw: seq<RawEvent<D>>, g: Group<D>, lo: Instant, hi: Instant)
    requires !HasRawEvent(raw, g, lo, hi)
    ensures RawSum(raw, g, lo, hi) == 0
    decreases |raw|
  {
    if |raw| > 0 {
      var init := raw[..|raw| - 1];
      assert !HasRawEvent(init, g, lo, hi) by {
        forall i | 0 <= i < |init|
          ensures !(GroupOf(init[i]) == g && lo < init[i].createdAt <= hi)
        {
          assert init[i] == raw[i];
        }
      }
      RawSumWithoutEvents(init, g, lo, hi);
    }
  }

  /** The bucket rows starting in `[lo, hi)` sum to those in `[lo, mid)` plus those in `[mid, hi)`. */
  lemma {:induction false} BucketSumSplit<D>(store: Store<D>, g: Group<D>, bucketSize: int, lo: Instant, mid: Instant, hi: Instant)
    requires lo <= mid <= hi
    ensures BucketSum(store, g, bucketSize, lo, hi) == BucketSum(store, g, bucketSize, lo, mid) + BucketSum(store, g, bucketSize, mid, hi)
    decreases hi - mid
  {
    if mid < hi {
      BucketSumSplit(store, g, bucketSize, lo, mid, hi - 1);
    }
  }

  /** Only the rows of the summed size matter to a bucket sum. */
  lemma {:induction false} BucketSumOnlyReadsItsSize<D>(s1: Store<D>, s2: Store<D>, g: Group<D>, bucketSize: int, lo: Instant, hi: Instant)
    requires forall k: BucketKey<D> :: k.bucketSize == bucketSize ==> (k in s1 <==> k in s2) && (k in s1 ==> s1[k] == s2[k])
    ensures BucketSum(s1, g, bucketSize, lo, hi) == BucketSum(s2, g, bucketSize, lo, hi)
    decreases hi - lo
  {
    if lo < hi {
      BucketSumOnlyReadsItsSize(s1, s2, g, bucketSize, lo, hi - 1);
    }
  }

  /** A range holding no row of the group sums to zero. */
  lemma {:induction false} BucketSumWithoutRows<D>(store: Store<D>, g: Group<D>, bucketSize: int, lo: Instant, hi: Instant)
    requires forall t :: lo <= t < hi ==> KeyFor(g, bucketSize, t) !in store
    ensures BucketSum(store, g, bucketSize, lo, hi) == 0
    decreases hi - lo
  {
    if lo < hi {
      BucketSumWithoutRows(store, g, bucketSize, lo, hi - 1);
    }
  }
}
