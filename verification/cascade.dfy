/**
 * Cascading rollups: building coarse buckets from finer bucket rows instead
 * of raw events (`source_bucket_size` in app_analytics/tasks.py).
 *
 * A bucket row is stamped with the START of its window `(s, s + width]`.
 * The source query selects bucket rows with the same `(start, end]` test it
 * uses for raw events, so a coarse window `(a, b]` reads the fine rows that
 * start in `(a, b]`, i.e. the raw events of `(a + fine, b + fine]`: the first
 * fine bucket of the window is dropped and the one after the window is taken.
 * `AsWrittenBucketSource` models the query as written and
 * `AsWrittenCascadeShifted` exhibits the shift; `Aggregation.BucketSource`
 * selects starts in `[a, b)` instead, and `CascadeMatchesDirect` and
 * `CascadeEndToEnd` prove that a coarse bucket built that way equals the one
 * built from the raw events directly.
 */
module Cascade {
  import opened Wrappers
  import opened Bucketing
  import opened Analytics
  import opened Aggregation
  import opened RollupProperties

  /** The groups that have a bucket row of size `sourceBucketSize` starting in `(w.start, w.end]`. */
  function AsWrittenBucketGroups<D(==)>(store: Store<D>, sourceBucketSize: int, w: Window): set<Group<D>> {
    set k | k in store && k.bucketSize == sourceBucketSize && Contains(w, k.createdAt) :: KeyGroup(k)
  }

  /**
   * The bucket-table source query as written: rows of size `sourceBucketSize`
   * with `w.start < created_at <= w.end`, grouped and summed.
   */
  function AsWrittenBucketSource<D(==,!new)>(store: Store<D>, sourceBucketSize: int, w: Window): (agg: Aggregate<D>)
    ensures forall g :: g in agg <==>
      exists t :: w.start < t <= w.end && KeyFor(g, sourceBucketSize, t) in store
    ensures forall g :: g in agg ==> agg[g] == BucketSum(store, g, sourceBucketSize, w.start + 1, w.end + 1)
  {
    var groups := AsWrittenBucketGroups(store, sourceBucketSize, w);
    assert forall g :: g in groups <==> exists t :: w.start < t <= w.end && KeyFor(g, sourceBucketSize, t) in store by {
      forall g | g in groups ensures exists t :: w.start < t <= w.end && KeyFor(g, sourceBucketSize, t) in store {
        var k :| k in store && k.bucketSize == sourceBucketSize && Contains(w, k.createdAt) && KeyGroup(k) == g;
        assert KeyFor(g, sourceBucketSize, k.createdAt) == k;
      }
      forall g | exists t :: w.start < t <= w.end && KeyFor(g, sourceBucketSize, t) in store ensures g in groups {
        var t :| w.start < t <= w.end && KeyFor(g, sourceBucketSize, t) in store;
        assert KeyGroup(KeyFor(g, sourceBucketSize, t)) == g;
      }
    }
    map g | g in groups :: BucketSum(store, g, sourceBucketSize, w.start + 1, w.end + 1)
  }

  /**
   * `_get_*_source_data` as written: the same `(start, end]` filter for
   * raw rows and for bucket rows.
   */
  function AsWrittenSourceData<D(==,!new)>(raw: seq<RawEvent<D>>, store: Store<D>, w: Window, sourceBucketSize: Option<int>): (agg: Aggregate<D>)
    ensures ReadsBuckets(sourceBucketSize) ==> agg == AsWrittenBucketSource(store, sourceBucketSize.value, w)
    ensures !ReadsBuckets(sourceBucketSize) ==> agg == RawSource(raw, w)
  {
    if ReadsBuckets(sourceBucketSize) then AsWrittenBucketSource(store, sourceBucketSize.value, w)
    else RawSource(raw, w)
  }

  /** A store with one row: `BucketSource` sees it exactly when its start is in `[w.start, w.end)`. */
  lemma OneRowBucketSource<D(!new)>(g: Group<D>, n: int, t0: Instant, c: nat, w: Window)
    requires w.start <= t0 < w.end
    ensures BucketSource(map[KeyFor(g, n, t0) := c], n, w) == map[g := c]
  {
    var store: Store<D> := map[KeyFor(g, n, t0) := c];
    var agg := BucketSource(store, n, w);
    assert g in agg by {
      assert KeyFor(g, n, t0) in store;
    }
    BucketSumSplit(store, g, n, w.start, t0, w.end);
    BucketSumSplit(store, g, n, t0, t0 + 1, w.end);
    BucketSumWithoutRows(store, g, n, w.start, t0);
    BucketSumWithoutRows(store, g, n, t0 + 1, w.end);
    assert BucketSum(store, g, n, t0, t0) == 0;
    forall h | h in agg ensures h == g {
      var t :| w.start <= t < w.end && KeyFor(h, n, t) in store;
      assert KeyFor(h, n, t) == KeyFor(g, n, t0);
    }
    assert agg == map[g := c];
  }

  /** A store with one row that starts at `w.start`: the query as written does not see it. */
  lemma OneRowAsWrittenMissesStart<D(!new)>(g: Group<D>, n: int, c: nat, w: Window)
    ensures AsWrittenBucketSource(map[KeyFor(g, n, w.start) := c], n, w) == map[]
  {
    var store: Store<D> := map[KeyFor(g, n, w.start) := c];
    var agg := AsWrittenBucketSource(store, n, w);
    forall h | h in agg ensures false {
      var t :| w.start < t <= w.end && KeyFor(h, n, t) in store;
    }
  }

  /**
   * The shift, on one event: an event at 00:05 (count 1) is rolled into the
   * 15-minute bucket stamped 00:00. For the hourly window `(00:00, 01:00]`
   * the raw events and `BucketSource` both give the group a count of 1, but
   * the query as written skips the 00:00 row and finds nothing.
   */
  lemma AsWrittenCascadeShifted<D(!new)>(env: int, dimension: D, labels: Labels)
    ensures var e := RawEvent(env, dimension, 1, labels, 5 * 60);
            var g := Group(env, dimension, labels);
            var fine := UpsertWindow(map[], RawSource([e], Window(0, 15 * 60)), 15, 0);
            var hour := Window(0, 60 * 60);
            && fine == map[KeyFor(g, 15, 0) := 1]
            && RawSource([e], hour) == map[g := 1]
            && SourceData([e], fine, hour, Some(15)) == map[g := 1]
            && AsWrittenSourceData([e], fine, hour, Some(15)) == map[]
  {
    var e := RawEvent(env, dimension, 1, labels, 5 * 60);
    var g := Group(env, dimension, labels);
    var hour := Window(0, 60 * 60);
    OneEventSource(e, Window(0, 15 * 60));
    assert GroupOf(e) == g;
    var fine := UpsertWindow(map[], RawSource([e], Window(0, 15 * 60)), 15, 0);
    assert fine.Keys == {KeyFor(g, 15, 0)};
    assert fine == map[KeyFor(g, 15, 0) := 1];
    OneEventSource(e, hour);
    OneRowBucketSource(g, 15, 0, 1, hour);
    OneRowAsWrittenMissesStart(g, 15, 1, hour);
  }

  /** A single event in a window forms a single group with the event's count. */
  lemma OneEventSource<D(!new)>(e: RawEvent<D>, w: Window)
    requires Contains(w, e.createdAt)
    ensures RawSource([e], w) == map[GroupOf(e) := e.count]
  {
    var raw := [e];
    assert raw[..0] == [];
    assert HasRawEvent(raw, GroupOf(e), w.start, w.end) by { assert raw[0] == e; }
    assert RawSum(raw, GroupOf(e), w.start, w.end) == e.count;
    var agg := RawSource(raw, w);
    forall h | h in agg ensures h == GroupOf(e) {
      var i :| 0 <= i < |raw| && GroupOf(raw[i]) == h && w.start < raw[i].createdAt <= w.end;
    }
    assert agg == map[GroupOf(e) := e.count];
  }

  /**
   * The fine rows of size `fine` (minutes) over the `blocks` fine windows
   * that tile `(a, a + blocks * fine minutes]` are exactly what a rollup of
   * the raw events wrote: every such row starts on a fine boundary, its group
   * has events in its window and it holds their total; and every group with
   * events in a fine window has a row for it.
   */
  ghost predicate FineRowsMatchRaw<D(!new)>(store: Store<D>, raw: seq<RawEvent<D>>, fine: int, a: Instant, blocks: nat)
    requires 0 < fine
  {
    FineRowsSound(store, raw, fine, a, blocks) && FineRowsComplete(store, raw, fine, a, blocks)
  }

  /** Every fine row of the span is on a fine boundary and holds the raw total of its window. */
  ghost predicate FineRowsSound<D(!new)>(store: Store<D>, raw: seq<RawEvent<D>>, fine: int, a: Instant, blocks: nat)
    requires 0 < fine
  {
    forall k :: FineRowSound(store, raw, fine, a, blocks, k)
  }

  /** If `k` is a fine row of the span, it is on a fine boundary and holds the raw total of its window. */
  ghost predicate FineRowSound<D(!new)>(store: Store<D>, raw: seq<RawEvent<D>>, fine: int, a: Instant, blocks: nat, k: BucketKey<D>)
    requires 0 < fine
  {
    var width := fine * SecondsPerMinute;
    k in store && k.bucketSize == fine && a <= k.createdAt < a + blocks * width ==>
      && (k.createdAt - a) % width == 0
      && HasRawEvent(raw, KeyGroup(k), k.createdAt, k.createdAt + width)
      && store[k] == RawSum(raw, KeyGroup(k), k.createdAt, k.createdAt + width)
  }

  /** Every group with events in a fine window of the span has a fine row there. */
  ghost predicate FineRowsComplete<D(!new)>(store: Store<D>, raw: seq<RawEvent<D>>, fine: int, a: Instant, blocks: nat)
    requires 0 < fine
  {
    forall g, t :: FineRowPresent(store, raw, fine, a, blocks, g, t)
  }

  /** If group `g` has events in the fine window of the span starting at `t`, it has a fine row at `t`. */
  ghost predicate FineRowPresent<D(!new)>(store: Store<D>, raw: seq<RawEvent<D>>, fine: int, a: Instant, blocks: nat, g: Group<D>, t: Instant)
    requires 0 < fine
  {
    var width := fine * SecondsPerMinute;
    a <= t < a + blocks * width && (t - a) % width == 0 && HasRawEvent(raw, g, t, t + width) ==>
      KeyFor(g, fine, t) in store
  }

  /** Inside one fine window, only its start can hold a fine row. */
  lemma OffBoundaryHasNoRow<D(!new)>(store: Store<D>, raw: seq<RawEvent<D>>, fine: int, a: Instant, blocks: nat, j: int, g: Group<D>)
    requires 0 < fine
    requires FineRowsMatchRaw(store, raw, fine, a, blocks)
    requires 0 <= j < blocks
    ensures var width := fine * SecondsPerMinute;
            forall t :: a + j * width + 1 <= t < a + j * width + width ==> KeyFor(g, fine, t) !in store
  {
    var width := fine * SecondsPerMinute;
    forall t | a + j * width + 1 <= t < a + j * width + width
      ensures KeyFor(g, fine, t) !in store
    {
      DivModUnique(t - a, width, j, t - (a + j * width));
      MulMonotone(width, j + 1, blocks);
      assert FineRowSound(store, raw, fine, a, blocks, KeyFor(g, fine, t));
    }
  }

  /** One fine window: the bucket sum over its starts equals the raw total over its span. */
  lemma OneBlock<D(!new)>(store: Store<D>, raw: seq<RawEvent<D>>, fine: int, a: Instant, blocks: nat, j: int, g: Group<D>)
    requires 0 < fine
    requires FineRowsMatchRaw(store, raw, fine, a, blocks)
    requires 0 <= j < blocks
    ensures var width := fine * SecondsPerMinute;
            var t := a + j * width;
            BucketSum(store, g, fine, t, t + width) == RawSum(raw, g, t, t + width)
  {
    var width := fine * SecondsPerMinute;
    var t := a + j * width;
    MulMonotone(width, j + 1, blocks);
    MulMonotone(width, 0, j);
    DivModUnique(t - a, width, j, 0);
    BucketSumSplit(store, g, fine, t, t + 1, t + width);
    OffBoundaryHasNoRow(store, raw, fine, a, blocks, j, g);
    BucketSumWithoutRows(store, g, fine, t + 1, t + width);
    var k := KeyFor(g, fine, t);
    assert KeyGroup(k) == g;
    assert FineRowSound(store, raw, fine, a, blocks, k);
    if k !in store {
      assert FineRowPresent(store, raw, fine, a, blocks, g, t);
      RawSumWithoutEvents(raw, g, t, t + width);
    }
  }

  /** The first `j` fine windows: bucket sum and raw total agree. */
  lemma {:induction false} FirstBlocks<D(!new)>(store: Store<D>, raw: seq<RawEvent<D>>, fine: int, a: Instant, blocks: nat, j: nat, g: Group<D>)
    requires 0 < fine
    requires FineRowsMatchRaw(store, raw, fine, a, blocks)
    requires j <= blocks
    ensures var width := fine * SecondsPerMinute;
            BucketSum(store, g, fine, a, a + j * width) == RawSum(raw, g, a, a + j * width)
  {
    var width := fine * SecondsPerMinute;
    if j == 0 {
      RawSumWithoutEvents(raw, g, a, a);
    } else {
      FirstBlocks(store, raw, fine, a, blocks, j - 1, g);
      var t := a + (j - 1) * width;
      assert t + width == a + j * width;
      MulMonotone(width, 0, j - 1);
      BucketSumSplit(store, g, fine, a, t, t + width);
      RawSumSplit(raw, g, a, t, t + width);
      OneBlock(store, raw, fine, a, blocks, j - 1, g);
    }
  }

  /** The fine window holding an instant of the span, and its row. */
  lemma EventHasFineRow<D(!new)>(store: Store<D>, raw: seq<RawEvent<D>>, fine: int, a: Instant, blocks: nat, i: int)
    requires 0 < fine
    requires FineRowsMatchRaw(store, raw, fine, a, blocks)
    requires 0 <= i < |raw| && a < raw[i].createdAt <= a + blocks * (fine * SecondsPerMinute)
    ensures exists t :: a <= t < a + blocks * (fine * SecondsPerMinute) && KeyFor(GroupOf(raw[i]), fine, t) in store
  {
    var width := fine * SecondsPerMinute;
    var c := raw[i].createdAt;
    var j := (c - a - 1) / width;
    DivModUnique(c - a - 1, width, j, (c - a - 1) % width);
    assert 0 <= j by {
      if j < 0 {
        MulMonotone(width, j, -1);
      }
    }
    assert j < blocks by {
      if j >= blocks {
        MulMonotone(width, blocks, j);
      }
    }
    var t := a + j * width;
    MulMonotone(width, j + 1, blocks);
    DivModUnique(t - a, width, j, 0);
    assert HasRawEvent(raw, GroupOf(raw[i]), t, t + width);
    assert FineRowPresent(store, raw, fine, a, blocks, GroupOf(raw[i]), t);
  }

  /** A fine row of the span covers raw events of the span. */
  lemma FineRowHasEvent<D(!new)>(store: Store<D>, raw: seq<RawEvent<D>>, fine: int, a: Instant, blocks: nat, g: Group<D>, t: Instant)
    requires 0 < fine
    requires FineRowsMatchRaw(store, raw, fine, a, blocks)
    requires a <= t < a + blocks * (fine * SecondsPerMinute) && KeyFor(g, fine, t) in store
    ensures HasRawEvent(raw, g, a, a + blocks * (fine * SecondsPerMinute))
  {
    var width := fine * SecondsPerMinute;
    var k := KeyFor(g, fine, t);
    assert KeyGroup(k) == g;
    assert FineRowSound(store, raw, fine, a, blocks, k);
    var j := (t - a) / width;
    DivModUnique(t - a, width, j, 0);
    assert j < blocks by {
      if j >= blocks {
        MulMonotone(width, blocks, j);
      }
    }
    MulMonotone(width, j + 1, blocks);
    var i :| 0 <= i < |raw| && GroupOf(raw[i]) == g && t < raw[i].createdAt <= t + width;
  }

  /** Both queries find the same groups over the span. */
  lemma CascadeSameGroups<D(!new)>(store: Store<D>, raw: seq<RawEvent<D>>, fine: int, a: Instant, blocks: nat, g: Group<D>)
    requires 0 < fine
    requires FineRowsMatchRaw(store, raw, fine, a, blocks)
    ensures var w := Window(a, a + blocks * (fine * SecondsPerMinute));
            g in BucketSource(store, fine, w) <==> g in RawSource(raw, w)
  {
    var width := fine * SecondsPerMinute;
    var w := Window(a, a + blocks * width);
    if g in BucketSource(store, fine, w) {
      var t :| a <= t < a + blocks * width && KeyFor(g, fine, t) in store;
      FineRowHasEvent(store, raw, fine, a, blocks, g, t);
    }
    if g in RawSource(raw, w) {
      var i :| 0 <= i < |raw| && GroupOf(raw[i]) == g && a < raw[i].createdAt <= a + blocks * width;
      EventHasFineRow(store, raw, fine, a, blocks, i);
    }
  }

  /**
   * Cascading rollup correctness (with the `[start, end)` selection): when
   * the fine rows of a coarse window are what a fine rollup of the raw events
   * wrote, the coarse window built from them equals the one built from the
   * raw events directly, group by group and count by count.
   */
  lemma CascadeMatchesDirect<D(!new)>(store: Store<D>, raw: seq<RawEvent<D>>, fine: int, a: Instant, blocks: nat)
    requires 0 < fine
    requires FineRowsMatchRaw(store, raw, fine, a, blocks)
    ensures var w := Window(a, a + blocks * (fine * SecondsPerMinute));
            BucketSource(store, fine, w) == RawSource(raw, w)
  {
    var w := Window(a, a + blocks * (fine * SecondsPerMinute));
    var fromBuckets := BucketSource(store, fine, w);
    var fromRaw := RawSource(raw, w);
    forall g ensures g in fromBuckets <==> g in fromRaw {
      CascadeSameGroups(store, raw, fine, a, blocks, g);
    }
    forall g | g in fromBuckets ensures fromBuckets[g] == fromRaw[g] {
      FirstBlocks(store, raw, fine, a, blocks, blocks, g);
    }
    assert fromBuckets == fromRaw;
  }

  /** No row of size `fine` starts in `[a, a + blocks * fine minutes)`. */
  ghost predicate NoFineRowsIn<D(!new)>(store: Store<D>, fine: int, a: Instant, blocks: nat) {
    forall k :: k in store && k.bucketSize == fine ==> !(a <= k.createdAt < a + blocks * (fine * SecondsPerMinute))
  }

  /** `ws` are the `blocks` fine windows of `[a, a + blocks * width)`, newest first. */
  predicate FineWindows(ws: seq<Window>, a: Instant, width: int, blocks: nat) {
    && |ws| == blocks
    && forall i :: 0 <= i < |ws| ==> IsFineBlock(ws, i, a, width)
  }

  /** Window `i` of `ws` is fine block `|ws| - 1 - i` of the span starting at `a`. */
  predicate IsFineBlock(ws: seq<Window>, i: int, a: Instant, width: int)
    requires 0 <= i < |ws|
  {
    ws[i].start == a + (|ws| - 1 - i) * width && ws[i].end == ws[i].start + width
  }

  /** The windows of a fine run over the span are its fine blocks. */
  lemma SpanWindows(a: Instant, width: int, blocks: nat)
    requires 0 < width
    ensures FineWindows(WindowsEndingAt(a + blocks * width, width, blocks), a, width, blocks)
  {
    var ws := WindowsEndingAt(a + blocks * width, width, blocks);
    forall i | 0 <= i < |ws| ensures IsFineBlock(ws, i, a, width) {
      assert blocks * width - (i + 1) * width == (blocks - 1 - i) * width;
    }
  }

  /** Fine blocks start at distinct instants. */
  lemma FineWindowsDistinct(ws: seq<Window>, a: Instant, width: int, blocks: nat)
    requires 0 < width
    requires FineWindows(ws, a, width, blocks)
    ensures DistinctStarts(ws)
  {
    forall i, j | 0 <= i < j < |ws| ensures ws[i].start != ws[j].start {
      assert IsFineBlock(ws, i, a, width) && IsFineBlock(ws, j, a, width);
      MulMonotone(width, blocks - j, blocks - 1 - i);
    }
  }

  /**
   * A row added at the start of fine block `i` for a group with events
   * there, holding their total, is on a fine boundary and holds the raw
   * total of its window.
   */
  lemma FineRowFromBlock<D(!new)>(raw: seq<RawEvent<D>>, fine: int, a: Instant, ws: seq<Window>, k: BucketKey<D>, v: nat, i: int)
    requires 0 < fine
    requires FineWindows(ws, a, fine * SecondsPerMinute, |ws|)
    requires 0 <= i < |ws| && ws[i].start == k.createdAt
    requires HasRawEvent(raw, KeyGroup(k), ws[i].start, ws[i].end)
    requires v == RawSum(raw, KeyGroup(k), ws[i].start, ws[i].end)
    ensures var width := fine * SecondsPerMinute;
            && (k.createdAt - a) % width == 0
            && HasRawEvent(raw, KeyGroup(k), k.createdAt, k.createdAt + width)
            && v == RawSum(raw, KeyGroup(k), k.createdAt, k.createdAt + width)
  {
    var width := fine * SecondsPerMinute;
    assert IsFineBlock(ws, i, a, width);
    DivModUnique(k.createdAt - a, width, |ws| - 1 - i, 0);
  }

  /** Rows added over the fine blocks, from the raw events, into a span with no fine rows: the fine rows of the span are sound. */
  lemma FineRunSound<D(!new)>(r: Store<D>, store: Store<D>, raw: seq<RawEvent<D>>, fine: int, a: Instant, ws: seq<Window>)
    requires 0 < fine
    requires FineWindows(ws, a, fine * SecondsPerMinute, |ws|)
    requires NoFineRowsIn(store, fine, a, |ws|)
    requires NewRowsFromEvents(r, store, raw, ws, fine)
    ensures FineRowsSound(r, raw, fine, a, |ws|)
  {
    var width := fine * SecondsPerMinute;
    forall k ensures FineRowSound(r, raw, fine, a, |ws|, k) {
      if k in r && k.bucketSize == fine && a <= k.createdAt < a + |ws| * width {
        FineRunRowSound(r, store, raw, fine, a, ws, k);
      }
    }
  }

  /** One fine row of the span after the fine run: it came from the raw events of its block. */
  lemma FineRunRowSound<D(!new)>(r: Store<D>, store: Store<D>, raw: seq<RawEvent<D>>, fine: int, a: Instant, ws: seq<Window>, k: BucketKey<D>)
    requires 0 < fine
    requires FineWindows(ws, a, fine * SecondsPerMinute, |ws|)
    requires NoFineRowsIn(store, fine, a, |ws|)
    requires NewRowsFromEvents(r, store, raw, ws, fine)
    requires k in r && k.bucketSize == fine && a <= k.createdAt < a + |ws| * (fine * SecondsPerMinute)
    ensures var width := fine * SecondsPerMinute;
            && (k.createdAt - a) % width == 0
            && HasRawEvent(raw, KeyGroup(k), k.createdAt, k.createdAt + width)
            && r[k] == RawSum(raw, KeyGroup(k), k.createdAt, k.createdAt + width)
  {
    assert k !in store;
    var i :| 0 <= i < |ws| && ws[i].start == k.createdAt
      && HasRawEvent(raw, KeyGroup(k), ws[i].start, ws[i].end)
      && r[k] == RawSum(raw, KeyGroup(k), ws[i].start, ws[i].end);
    FineRowFromBlock(raw, fine, a, ws, k, r[k], i);
  }

  /** Every group with events in fine block `t` of the span has its row. */
  lemma FineRunRowComplete<D(!new)>(r: Store<D>, raw: seq<RawEvent<D>>, fine: int, a: Instant, ws: seq<Window>, g: Group<D>, t: Instant)
    requires 0 < fine
    requires FineWindows(ws, a, fine * SecondsPerMinute, |ws|)
    requires EventsHaveRows(r, raw, ws, fine)
    requires var width := fine * SecondsPerMinute;
             a <= t < a + |ws| * width && (t - a) % width == 0 && HasRawEvent(raw, g, t, t + width)
    ensures KeyFor(g, fine, t) in r
  {
    var width := fine * SecondsPerMinute;
    var blocks := |ws|;
    var j := (t - a) / width;
    assert t - a == width * j;
    assert 0 <= j by {
      if j < 0 {
        MulMonotone(width, j, -1);
      }
    }
    assert j < blocks by {
      if j >= blocks {
        MulMonotone(width, blocks, j);
      }
    }
    assert IsFineBlock(ws, blocks - 1 - j, a, width);
  }

  /** Rows for every group with events in the fine blocks: the fine rows of the span are complete. */
  lemma FineRunComplete<D(!new)>(r: Store<D>, raw: seq<RawEvent<D>>, fine: int, a: Instant, ws: seq<Window>)
    requires 0 < fine
    requires FineWindows(ws, a, fine * SecondsPerMinute, |ws|)
    requires EventsHaveRows(r, raw, ws, fine)
    ensures FineRowsComplete(r, raw, fine, a, |ws|)
  {
    var width := fine * SecondsPerMinute;
    forall g, t ensures FineRowPresent(r, raw, fine, a, |ws|, g, t) {
      if a <= t < a + |ws| * width && (t - a) % width == 0 && HasRawEvent(raw, g, t, t + width) {
        FineRunRowComplete(r, raw, fine, a, ws, g, t);
      }
    }
  }

  /**
   * Cascading rollup end to end: run the fine rollup from raw events over
   * the fine windows of a coarse window, then let the coarse pass read those
   * fine rows (`source_bucket_size = fine`). It gets exactly what a coarse
   * pass over the raw events gets.
   */
  lemma CascadeEndToEnd<D(!new)>(store: Store<D>, raw: seq<RawEvent<D>>, fine: int, a: Instant, blocks: nat)
    requires 0 < fine
    requires NoFineRowsIn(store, fine, a, blocks)
    ensures SourceData(raw, Populate(store, raw, WindowsEndingAt(a + blocks * (fine * SecondsPerMinute), fine * SecondsPerMinute, blocks), fine, None),
                       Window(a, a + blocks * (fine * SecondsPerMinute)), Some(fine))
         == SourceData(raw, Populate(store, raw, WindowsEndingAt(a + blocks * (fine * SecondsPerMinute), fine * SecondsPerMinute, blocks), fine, None),
                       Window(a, a + blocks * (fine * SecondsPerMinute)), None)
  {
    SpanWindows(a, fine * SecondsPerMinute, blocks);
    CascadeFromFineBlocks(store, raw, fine, a, blocks, WindowsEndingAt(a + blocks * (fine * SecondsPerMinute), fine * SecondsPerMinute, blocks));
  }

  /** `CascadeEndToEnd` for any sequence of fine blocks of the span. */
  lemma CascadeFromFineBlocks<D(!new)>(store: Store<D>, raw: seq<RawEvent<D>>, fine: int, a: Instant, blocks: nat, ws: seq<Window>)
    requires 0 < fine
    requires FineWindows(ws, a, fine * SecondsPerMinute, blocks)
    requires NoFineRowsIn(store, fine, a, blocks)
    ensures SourceData(raw, Populate(store, raw, ws, fine, None), Window(a, a + blocks * (fine * SecondsPerMinute)), Some(fine))
         == SourceData(raw, Populate(store, raw, ws, fine, None), Window(a, a + blocks * (fine * SecondsPerMinute)), None)
  {
    FineWindowsDistinct(ws, a, fine * SecondsPerMinute, blocks);
    PopulateRawRows(store, raw, ws, fine, None);
    CascadeOverFineRows(Populate(store, raw, ws, fine, None), store, raw, fine, a, blocks, ws);
  }

  /**
   * Any store whose rows added over the fine blocks came from the raw events
   * of their block, and which has a row for every group with events in a
   * block, feeds the coarse pass exactly the raw totals.
   */
  lemma CascadeOverFineRows<D(!new)>(r: Store<D>, store: Store<D>, raw: seq<RawEvent<D>>, fine: int, a: Instant, blocks: nat, ws: seq<Window>)
    requires 0 < fine
    requires FineWindows(ws, a, fine * SecondsPerMinute, blocks)
    requires NoFineRowsIn(store, fine, a, blocks)
    requires NewRowsFromEvents(r, store, raw, ws, fine)
    requires EventsHaveRows(r, raw, ws, fine)
    ensures SourceData(raw, r, Window(a, a + blocks * (fine * SecondsPerMinute)), Some(fine))
         == SourceData(raw, r, Window(a, a + blocks * (fine * SecondsPerMinute)), None)
  {
    assert |ws| == blocks;
    FineRunSound(r, store, raw, fine, a, ws);
    FineRunComplete(r, raw, fine, a, ws);
    CascadeReadsMatchingRows(r, raw, fine, a, blocks);
  }

  /** `CascadeMatchesDirect`, stated on the two source queries of the coarse pass. */
  lemma CascadeReadsMatchingRows<D(!new)>(fineRows: Store<D>, raw: seq<RawEvent<D>>, fine: int, a: Instant, blocks: nat)
    requires 0 < fine
    requires FineRowsSound(fineRows, raw, fine, a, blocks)
    requires FineRowsComplete(fineRows, raw, fine, a, blocks)
    ensures SourceData(raw, fineRows, Window(a, a + blocks * (fine * SecondsPerMinute)), Some(fine))
         == SourceData(raw, fineRows, Window(a, a + blocks * (fine * SecondsPerMinute)), None)
  {
    CascadeMatchesDirect(fineRows, raw, fine, a, blocks);
  }
}
