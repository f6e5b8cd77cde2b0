/**
 * What a populate run guarantees: the sums it writes, what it leaves alone,
 * and that re-running it on unchanged source data changes nothing.
 */
module RollupProperties {
  import opened Wrappers
  import opened Bucketing
  import opened Analytics
  import opened Aggregation

  /** The pass reads bucket rows of the very size it writes. */
  predicate ReadsOwnOutput(bucketSize: int, sourceBucketSize: Option<int>) {
    ReadsBuckets(sourceBucketSize) && sourceBucketSize.value == bucketSize
  }

  /** Two stores hold the same rows of size `n`. */
  ghost predicate AgreeOnSize<D(!new)>(s1: Store<D>, s2: Store<D>, n: int) {
    forall k: BucketKey<D> :: k.bucketSize == n ==> (k in s1 <==> k in s2) && (k in s1 ==> s1[k] == s2[k])
  }

  /** Two stores look the same to the source query selected by `sourceBucketSize`. */
  ghost predicate SameSource<D(!new)>(s1: Store<D>, s2: Store<D>, sourceBucketSize: Option<int>) {
    !ReadsBuckets(sourceBucketSize) || AgreeOnSize(s1, s2, sourceBucketSize.value)
  }

  predicate DistinctStarts(ws: seq<Window>) {
    forall i, j :: 0 <= i < j < |ws| ==> ws[i].start != ws[j].start
  }

  /** The source query reads nothing but the rows it selects by size. */
  lemma SourceDataReadsOnlySourceRows<D(!new)>(raw: seq<RawEvent<D>>, s1: Store<D>, s2: Store<D>, w: Window, sourceBucketSize: Option<int>)
    requires SameSource(s1, s2, sourceBucketSize)
    ensures SourceData(raw, s1, w, sourceBucketSize) == SourceData(raw, s2, w, sourceBucketSize)
  {
    if ReadsBuckets(sourceBucketSize) {
      var n := sourceBucketSize.value;
      var a1, a2 := BucketSource(s1, n, w), BucketSource(s2, n, w);
      forall g ensures g in a1 <==> g in a2 {
        if g in a1 {
          var t :| w.start <= t < w.end && KeyFor(g, n, t) in s1;
          assert KeyFor(g, n, t) in s2;
        }
        if g in a2 {
          var t :| w.start <= t < w.end && KeyFor(g, n, t) in s2;
          assert KeyFor(g, n, t) in s1;
        }
      }
      forall g | g in a1 ensures a1[g] == a2[g] {
        BucketSumOnlyReadsItsSize(s1, s2, g, n, w.start, w.end);
      }
      assert a1 == a2;
    }
  }

  /**
   * Everything a run writes, each window reading `store` as given. Later
   * windows win on a shared key, as in `Populate`.
   */
  function Writes<D(==,!new)>(raw: seq<RawEvent<D>>, store: Store<D>, ws: seq<Window>, bucketSize: int, sourceBucketSize: Option<int>): (m: Store<D>)
    ensures forall k :: k in m ==> k.bucketSize == bucketSize
    decreases |ws|
  {
    if |ws| == 0 then map[]
    else Upserts(SourceData(raw, store, ws[0], sourceBucketSize), bucketSize, ws[0].start)
         + Writes(raw, store, ws[1..], bucketSize, sourceBucketSize)
  }

  lemma {:induction false} WritesReadOnlySourceRows<D(!new)>(raw: seq<RawEvent<D>>, s1: Store<D>, s2: Store<D>, ws: seq<Window>, bucketSize: int, sourceBucketSize: Option<int>)
    requires SameSource(s1, s2, sourceBucketSize)
    ensures Writes(raw, s1, ws, bucketSize, sourceBucketSize) == Writes(raw, s2, ws, bucketSize, sourceBucketSize)
    decreases |ws|
  {
    if |ws| > 0 {
      SourceDataReadsOnlySourceRows(raw, s1, s2, ws[0], sourceBucketSize);
      WritesReadOnlySourceRows(raw, s1, s2, ws[1..], bucketSize, sourceBucketSize);
    }
  }

  /** Writing rows of the target size does not disturb a source of another size. */
  lemma WritingOtherSizeKeepsSource<D(!new)>(s: Store<D>, m: Store<D>, bucketSize: int, sourceBucketSize: Option<int>)
    requires !ReadsOwnOutput(bucketSize, sourceBucketSize)
    requires forall k :: k in m ==> k.bucketSize == bucketSize
    ensures SameSource(s, s + m, sourceBucketSize)
  {
  }

  lemma MapUnionAssociative<K, V>(a: map<K, V>, b: map<K, V>, c: map<K, V>)
    ensures (a + b) + c == a + (b + c)
  {
  }

  lemma MapUnionAbsorbs<K, V>(a: map<K, V>, b: map<K, V>)
    ensures (a + b) + b == a + b
  {
  }

  /** When a pass does not read its own output, a run is the store overlaid with the run's writes. */
  lemma {:induction false} PopulateIsStorePlusWrites<D(!new)>(store: Store<D>, raw: seq<RawEvent<D>>, ws: seq<Window>, bucketSize: int, sourceBucketSize: Option<int>)
    requires !ReadsOwnOutput(bucketSize, sourceBucketSize)
    ensures Populate(store, raw, ws, bucketSize, sourceBucketSize) == store + Writes(raw, store, ws, bucketSize, sourceBucketSize)
    decreases |ws|
  {
    if |ws| == 0 {
      assert store + map[] == store;
    } else {
      var u := Upserts(SourceData(raw, store, ws[0], sourceBucketSize), bucketSize, ws[0].start);
      var next := store + u;
      assert next == UpsertWindow(store, SourceData(raw, store, ws[0], sourceBucketSize), bucketSize, ws[0].start);
      PopulateIsStorePlusWrites(next, raw, ws[1..], bucketSize, sourceBucketSize);
      WritingOtherSizeKeepsSource(store, u, bucketSize, sourceBucketSize);
      WritesReadOnlySourceRows(raw, store, next, ws[1..], bucketSize, sourceBucketSize);
      MapUnionAssociative(store, u, Writes(raw, store, ws[1..], bucketSize, sourceBucketSize));
    }
  }

  /**
   * Idempotence: running the same windows again over unchanged source data
   * leaves the store exactly as the first run left it, because counts are
   * overwritten, not added. (A pass that reads its own bucket size is excluded:
   * its second run would read the first run's output.)
   */
  lemma PopulateIdempotent<D(!new)>(store: Store<D>, raw: seq<RawEvent<D>>, ws: seq<Window>, bucketSize: int, sourceBucketSize: Option<int>)
    requires !ReadsOwnOutput(bucketSize, sourceBucketSize)
    ensures var once := Populate(store, raw, ws, bucketSize, sourceBucketSize);
            Populate(once, raw, ws, bucketSize, sourceBucketSize) == once
  {
    var w := Writes(raw, store, ws, bucketSize, sourceBucketSize);
    var once := Populate(store, raw, ws, bucketSize, sourceBucketSize);
    PopulateIsStorePlusWrites(store, raw, ws, bucketSize, sourceBucketSize);
    PopulateIsStorePlusWrites(once, raw, ws, bucketSize, sourceBucketSize);
    WritingOtherSizeKeepsSource(store, w, bucketSize, sourceBucketSize);
    WritesReadOnlySourceRows(raw, store, once, ws, bucketSize, sourceBucketSize);
    MapUnionAbsorbs(store, w);
  }

  /** `populate_api_usage_bucket` run twice at the same instant over unchanged data gives the same tables. */
  lemma PopulateApiUsageIdempotent(db: AnalyticsDb, bucketSize: int, runEvery: int, sourceBucketSize: Option<int>, now: Instant)
    requires 0 < bucketSize
    requires !ReadsOwnOutput(bucketSize, sourceBucketSize)
    ensures var once := PopulateApiUsageBucket(db, bucketSize, runEvery, sourceBucketSize, now);
            once.Success? ==> PopulateApiUsageBucket(once.value, bucketSize, runEvery, sourceBucketSize, now) == once
  {
    if bucketSize <= MaxBucketSize {
      PopulateIdempotent(db.apiUsageBuckets, db.apiUsageRaw, TimeBuckets(bucketSize, runEvery, now).value, bucketSize, sourceBucketSize);
    }
  }

  /** `populate_feature_evaluation_bucket` run twice at the same instant over unchanged data gives the same tables. */
  lemma PopulateFeatureEvaluationIdempotent(db: AnalyticsDb, bucketSize: int, runEvery: int, sourceBucketSize: Option<int>, now: Instant)
    requires 0 < bucketSize
    requires !ReadsOwnOutput(bucketSize, sourceBucketSize)
    ensures var once := PopulateFeatureEvaluationBucket(db, bucketSize, runEvery, sourceBucketSize, now);
            once.Success? ==> PopulateFeatureEvaluationBucket(once.value, bucketSize, runEvery, sourceBucketSize, now) == once
  {
    if bucketSize <= MaxBucketSize {
      PopulateIdempotent(db.featureEvaluationBuckets, db.featureEvaluationRaw, TimeBuckets(bucketSize, runEvery, now).value, bucketSize, sourceBucketSize);
    }
  }

  /**
   * A run over raw events leaves, for every window and every group with an
   * event in it, a row at the window start holding the group's total; a row
   * at a window start whose group had no event there keeps its old count.
   */
  lemma {:induction false} PopulateFromRaw<D(!new)>(store: Store<D>, raw: seq<RawEvent<D>>, ws: seq<Window>, bucketSize: int, sourceBucketSize: Option<int>)
    requires !ReadsBuckets(sourceBucketSize)
    requires DistinctStarts(ws)
    ensures var r := Populate(store, raw, ws, bucketSize, sourceBucketSize);
            forall i, g :: 0 <= i < |ws| && HasRawEvent(raw, g, ws[i].start, ws[i].end) ==>
              KeyFor(g, bucketSize, ws[i].start) in r && r[KeyFor(g, bucketSize, ws[i].start)] == RawSum(raw, g, ws[i].start, ws[i].end)
    ensures var r := Populate(store, raw, ws, bucketSize, sourceBucketSize);
            forall i, k :: (0 <= i < |ws| && k in store && k.bucketSize == bucketSize && k.createdAt == ws[i].start
              && !HasRawEvent(raw, KeyGroup(k), ws[i].start, ws[i].end)) ==> r[k] == store[k]
    decreases |ws|
  {
    if |ws| > 0 {
      var agg := SourceData(raw, store, ws[0], sourceBucketSize);
      var next := UpsertWindow(store, agg, bucketSize, ws[0].start);
      var rest := ws[1..];
      var r := Populate(next, raw, rest, bucketSize, sourceBucketSize);
      assert DistinctStarts(rest) by {
        forall i, j | 0 <= i < j < |rest| ensures rest[i].start != rest[j].start {
          assert rest[i] == ws[i + 1] && rest[j] == ws[j + 1];
        }
      }
      PopulateFromRaw(next, raw, rest, bucketSize, sourceBucketSize);
      assert !IsWindowStart(rest, ws[0].start) by {
        forall i | 0 <= i < |rest| ensures rest[i].start != ws[0].start {
          assert rest[i] == ws[i + 1];
        }
      }
      forall i, g | 0 <= i < |ws| && HasRawEvent(raw, g, ws[i].start, ws[i].end)
        ensures KeyFor(g, bucketSize, ws[i].start) in r && r[KeyFor(g, bucketSize, ws[i].start)] == RawSum(raw, g, ws[i].start, ws[i].end)
      {
        if i > 0 {
          assert rest[i - 1] == ws[i];
        }
      }
      forall i, k | 0 <= i < |ws| && k in store && k.bucketSize == bucketSize && k.createdAt == ws[i].start
          && !HasRawEvent(raw, KeyGroup(k), ws[i].start, ws[i].end)
        ensures r[k] == store[k]
      {
        if i > 0 {
          assert rest[i - 1] == ws[i];
          assert ws[i].start != ws[0].start;
        }
      }
    }
  }

  /** `PopulateFromRaw` for one window and one group. */
  lemma PopulateWritesWindowSum<D(!new)>(store: Store<D>, raw: seq<RawEvent<D>>, ws: seq<Window>, bucketSize: int, sourceBucketSize: Option<int>, i: int, g: Group<D>)
    requires !ReadsBuckets(sourceBucketSize)
    requires DistinctStarts(ws)
    requires 0 <= i < |ws| && HasRawEvent(raw, g, ws[i].start, ws[i].end)
    ensures var r := Populate(store, raw, ws, bucketSize, sourceBucketSize);
            KeyFor(g, bucketSize, ws[i].start) in r && r[KeyFor(g, bucketSize, ws[i].start)] == RawSum(raw, g, ws[i].start, ws[i].end)
  {
    PopulateFromRaw(store, raw, ws, bucketSize, sourceBucketSize);
  }

  /**
   * A run over raw events creates no row for a group without events: a row
   * of the target size at a window start whose group had no event in that
   * window is there after the run only if it was there before.
   */
  lemma {:induction false} PopulateAddsNoEmptyGroup<D(!new)>(store: Store<D>, raw: seq<RawEvent<D>>, ws: seq<Window>, bucketSize: int, sourceBucketSize: Option<int>, i: int, k: BucketKey<D>)
    requires !ReadsBuckets(sourceBucketSize)
    requires DistinctStarts(ws)
    requires 0 <= i < |ws| && k.bucketSize == bucketSize && k.createdAt == ws[i].start
    requires !HasRawEvent(raw, KeyGroup(k), ws[i].start, ws[i].end)
    ensures k in Populate(store, raw, ws, bucketSize, sourceBucketSize) ==> k in store
    decreases |ws|
  {
    var agg := SourceData(raw, store, ws[0], sourceBucketSize);
    var next := UpsertWindow(store, agg, bucketSize, ws[0].start);
    var rest := ws[1..];
    assert KeyFor(KeyGroup(k), bucketSize, k.createdAt) == k;
    assert !IsWindowStart(rest, ws[0].start) by {
      forall j | 0 <= j < |rest| ensures rest[j].start != ws[0].start {
        assert rest[j] == ws[j + 1];
      }
    }
    if i > 0 {
      assert DistinctStarts(rest) by {
        forall p, q | 0 <= p < q < |rest| ensures rest[p].start != rest[q].start {
          assert rest[p] == ws[p + 1] && rest[q] == ws[q + 1];
        }
      }
      assert rest[i - 1] == ws[i];
      PopulateAddsNoEmptyGroup(next, raw, rest, bucketSize, sourceBucketSize, i - 1, k);
      assert ws[i].start != ws[0].start;
    } else {
      assert KeyGroup(k) !in agg;
    }
  }

  /**
   * A run over raw events adds a row only for a group with events in a window
   * starting at the row's instant, and the row holds those events' total.
   */
  lemma PopulateNewRowFromEvents<D(!new)>(store: Store<D>, raw: seq<RawEvent<D>>, ws: seq<Window>, bucketSize: int, sourceBucketSize: Option<int>, k: BucketKey<D>)
    requires !ReadsBuckets(sourceBucketSize)
    requires DistinctStarts(ws)
    requires k in Populate(store, raw, ws, bucketSize, sourceBucketSize) && k !in store
    ensures exists i :: (0 <= i < |ws| && ws[i].start == k.createdAt
      && HasRawEvent(raw, KeyGroup(k), ws[i].start, ws[i].end)
      && Populate(store, raw, ws, bucketSize, sourceBucketSize)[k] == RawSum(raw, KeyGroup(k), ws[i].start, ws[i].end))
  {
    var i :| 0 <= i < |ws| && ws[i].start == k.createdAt;
    assert KeyFor(KeyGroup(k), bucketSize, ws[i].start) == k;
    if !HasRawEvent(raw, KeyGroup(k), ws[i].start, ws[i].end) {
      PopulateAddsNoEmptyGroup(store, raw, ws, bucketSize, sourceBucketSize, i, k);
    } else {
      PopulateWritesWindowSum(store, raw, ws, bucketSize, sourceBucketSize, i, KeyGroup(k));
    }
  }

  /** Every row `r` has and `store` had not is a row of size `bucketSize` for a group with events in a window starting there, holding their total. */
  ghost predicate NewRowsFromEvents<D(!new)>(r: Store<D>, store: Store<D>, raw: seq<RawEvent<D>>, ws: seq<Window>, bucketSize: int) {
    forall k :: k in r && k !in store ==>
      && k.bucketSize == bucketSize
      && exists i :: (0 <= i < |ws| && ws[i].start == k.createdAt
           && HasRawEvent(raw, KeyGroup(k), ws[i].start, ws[i].end)
           && r[k] == RawSum(raw, KeyGroup(k), ws[i].start, ws[i].end))
  }

  /** Every group with events in a window of `ws` has a row of size `bucketSize` at the window start. */
  ghost predicate EventsHaveRows<D(!new)>(r: Store<D>, raw: seq<RawEvent<D>>, ws: seq<Window>, bucketSize: int) {
    forall i, g :: 0 <= i < |ws| && HasRawEvent(raw, g, ws[i].start, ws[i].end) ==> KeyFor(g, bucketSize, ws[i].start) in r
  }

  /** A run over raw events: the rows it adds come from events, and every group with events gets its rows. */
  lemma PopulateRawRows<D(!new)>(store: Store<D>, raw: seq<RawEvent<D>>, ws: seq<Window>, bucketSize: int, sourceBucketSize: Option<int>)
    requires !ReadsBuckets(sourceBucketSize)
    requires DistinctStarts(ws)
    ensures NewRowsFromEvents(Populate(store, raw, ws, bucketSize, sourceBucketSize), store, raw, ws, bucketSize)
    ensures EventsHaveRows(Populate(store, raw, ws, bucketSize, sourceBucketSize), raw, ws, bucketSize)
  {
    var r := Populate(store, raw, ws, bucketSize, sourceBucketSize);
    forall k | k in r && k !in store
      ensures && k.bucketSize == bucketSize
              && exists i :: (0 <= i < |ws| && ws[i].start == k.createdAt
                   && HasRawEvent(raw, KeyGroup(k), ws[i].start, ws[i].end)
                   && r[k] == RawSum(raw, KeyGroup(k), ws[i].start, ws[i].end))
    {
      PopulateNewRowFromEvents(store, raw, ws, bucketSize, sourceBucketSize, k);
    }
    PopulateFromRaw(store, raw, ws, bucketSize, sourceBucketSize);
  }

  /** The windows of one run start at distinct instants. */
  lemma TimeBucketsDistinctStarts(bucketSize: int, runEvery: int, now: Instant)
    requires 0 < bucketSize <= MaxBucketSize
    ensures DistinctStarts(TimeBuckets(bucketSize, runEvery, now).value)
  {
    var ws := TimeBuckets(bucketSize, runEvery, now).value;
    forall i, j | 0 <= i < j < |ws| ensures ws[i].start != ws[j].start {
      assert ws[j].start < ws[j].end <= ws[i].start;
    }
  }

  /**
   * Summation through a whole populate call from raw events: after the call,
   * every elapsed window of the run holds, for each group with events in it,
   * the sum of those events' counts.
   */
  lemma PopulateBucketSums<D(!new)>(store: Store<D>, raw: seq<RawEvent<D>>, bucketSize: int, runEvery: int, sourceBucketSize: Option<int>, now: Instant, i: int, g: Group<D>)
    requires 0 < bucketSize <= MaxBucketSize
    requires !ReadsBuckets(sourceBucketSize)
    requires var ws := TimeBuckets(bucketSize, runEvery, now).value;
             0 <= i < |ws| && HasRawEvent(raw, g, ws[i].start, ws[i].end)
    ensures var ws := TimeBuckets(bucketSize, runEvery, now).value;
            var r := PopulateBucket(store, raw, bucketSize, runEvery, sourceBucketSize, now).value;
            KeyFor(g, bucketSize, ws[i].start) in r && r[KeyFor(g, bucketSize, ws[i].start)] == RawSum(raw, g, ws[i].start, ws[i].end)
  {
    var ws := TimeBuckets(bucketSize, runEvery, now).value;
    TimeBucketsDistinctStarts(bucketSize, runEvery, now);
    PopulateFromRaw(store, raw, ws, bucketSize, sourceBucketSize);
  }

  /** Two events of one group in one window, counts 3 and 4, give one row of 7. */
  lemma SummationExample(env: int, resource: Resource, labels: Labels, w: Window)
    requires w.start + 2 <= w.end
    ensures var e1 := RawEvent(env, resource, 3, labels, w.start + 1);
            var e2 := RawEvent(env, resource, 4, labels, w.start + 2);
            RawSource([e1, e2], w) == map[Group(env, resource, labels) := 7]
  {
    var e1 := RawEvent(env, resource, 3, labels, w.start + 1);
    var e2 := RawEvent(env, resource, 4, labels, w.start + 2);
    var raw := [e1, e2];
    var g := Group(env, resource, labels);
    assert raw[..1] == [e1];
    assert [e1][..0] == [];
    assert HasRawEvent(raw, g, w.start, w.end) by {
      assert GroupOf(raw[0]) == g;
    }
    assert RawSum(raw[..1], g, w.start, w.end) == 3 by {
      assert RawSum(raw[..1][..0], g, w.start, w.end) == 0;
    }
    assert RawSum(raw, g, w.start, w.end) == 7;
    var agg := RawSource(raw, w);
    forall h | h in agg ensures h == g {
      var i :| 0 <= i < |raw| && GroupOf(raw[i]) == h && w.start < raw[i].createdAt <= w.end;
    }
    assert agg == map[g := 7];
  }

  /**
   * Label partitioning: two events of the same environment and dimension in
   * the same window but with different label sets give two separate rows.
   */
  lemma LabelsNeverMerge<D(!new)>(e1: RawEvent<D>, e2: RawEvent<D>, w: Window)
    requires e1.environment == e2.environment && e1.dimension == e2.dimension
    requires e1.labels != e2.labels
    requires Contains(w, e1.createdAt) && Contains(w, e2.createdAt)
    ensures RawSource([e1, e2], w) == map[GroupOf(e1) := e1.count, GroupOf(e2) := e2.count]
  {
    var raw := [e1, e2];
    assert raw[..1] == [e1];
    assert [e1][..0] == [];
    assert GroupOf(e1) != GroupOf(e2);
    var agg := RawSource(raw, w);
    assert HasRawEvent(raw, GroupOf(e1), w.start, w.end) by { assert raw[0] == e1; }
    assert HasRawEvent(raw, GroupOf(e2), w.start, w.end) by { assert raw[1] == e2; }
    assert RawSum(raw[..1][..0], GroupOf(e1), w.start, w.end) == 0;
    assert RawSum(raw[..1][..0], GroupOf(e2), w.start, w.end) == 0;
    assert RawSum(raw[..1], GroupOf(e1), w.start, w.end) == e1.count;
    assert RawSum(raw[..1], GroupOf(e2), w.start, w.end) == 0;
    assert RawSum(raw, GroupOf(e1), w.start, w.end) == e1.count;
    assert RawSum(raw, GroupOf(e2), w.start, w.end) == e2.count;
    forall h | h in agg ensures h == GroupOf(e1) || h == GroupOf(e2) {
      var i :| 0 <= i < |raw| && GroupOf(raw[i]) == h && w.start < raw[i].createdAt <= w.end;
    }
    assert agg == map[GroupOf(e1) := e1.count, GroupOf(e2) := e2.count];
  }
}
