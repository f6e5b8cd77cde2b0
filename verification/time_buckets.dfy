/**
 * Time bucketing for the analytics rollup job (app_analytics/tasks.py).
 *
 * Instants are UTC seconds since the Unix epoch. A bucket of `bucketSize`
 * minutes starts on a whole minute whose minute-of-hour is a multiple of
 * `bucketSize`; the rollup job processes the fully elapsed buckets that
 * precede the one containing "now".
 */
module Bucketing {
  import opened Wrappers

  type Instant = int

  const SecondsPerMinute: int := 60
  const MinutesPerHour: int := 60
  const SecondsPerHour: int := 3600

  /** Largest bucket size, in minutes, the job accepts. */
  const MaxBucketSize: int := 60

  /** The error raised for a bucket wider than an hour (a `ValueError` in the source). */
  datatype ConfigError = BucketSizeTooLarge(bucketSize: int)

  /** A time window `(start, end]`: open at the start, closed at the end. */
  datatype Window = Window(start: Instant, end: Instant)

  predicate Contains(w: Window, t: Instant) {
    w.start < t <= w.end
  }

  function MinuteOfHour(t: Instant): int {
    (t / SecondsPerMinute) % MinutesPerHour
  }

  /** An instant with zero seconds whose minute-of-hour is a multiple of `bucketSize`. */
  predicate IsBucketBoundary(t: Instant, bucketSize: int)
    requires 0 < bucketSize
  {
    t % SecondsPerMinute == 0 && MinuteOfHour(t) % bucketSize == 0
  }

  /** Euclidean division is determined by any quotient/remainder pair. */
  lemma DivModUnique(a: int, d: int, q: int, r: int)
    requires 0 < d
    requires a == d * q + r
    requires 0 <= r < d
    ensures a / d == q
    ensures a % d == r
  {
    var q0, r0 := a / d, a % d;
    assert d * (q0 - q) == r - r0;
    MulBounds(d, q0 - q);
  }

  /** A multiple of a positive `d` strictly between `-d` and `d` is zero. */
  lemma MulBounds(d: int, k: int)
    requires 0 < d
    ensures k >= 1 ==> d * k >= d
    ensures k <= -1 ==> d * k <= -d
  {
    if k >= 1 {
      MulMonotone(d, 1, k);
    } else if k <= -1 {
      MulMonotone(d, k, -1);
    }
  }

  lemma MulMonotone(a: int, x: int, y: int)
    requires 0 <= a
    requires x <= y
    ensures a * x <= a * y
  {
    assert a * y - a * x == a * (y - x);
  }

  /**
   * The start of the bucket containing `now` (`get_start_of_current_bucket`):
   * `now` truncated to the minute, moved back by `minute % bucketSize` minutes.
   * A bucket size above 60 minutes is refused. A size of zero or less makes
   * the source divide by zero or use a negative modulus, so it is excluded.
   */
  function StartOfCurrentBucket(bucketSize: int, now: Instant): (r: Result<Instant, ConfigError>)
    requires 0 < bucketSize
    ensures r.Failure? <==> bucketSize > MaxBucketSize
    ensures r.Failure? ==> r.error == BucketSizeTooLarge(bucketSize)
    ensures r.Success? ==> IsBucketBoundary(r.value, bucketSize)
    ensures r.Success? ==> r.value <= now < r.value + bucketSize * SecondsPerMinute
    ensures r.Success? ==> r.value / SecondsPerHour == now / SecondsPerHour
  {
    if bucketSize > MaxBucketSize then
      Failure(BucketSizeTooLarge(bucketSize))
    else
      var start := now - now % SecondsPerMinute - (MinuteOfHour(now) % bucketSize) * SecondsPerMinute;
      StartFacts(bucketSize, now, start);
      Success(start)
  }

  /** The arithmetic behind `StartOfCurrentBucket`'s contract. */
  lemma StartFacts(bucketSize: int, now: Instant, start: Instant)
    requires 0 < bucketSize <= MaxBucketSize
    requires start == now - now % 60 - (MinuteOfHour(now) % bucketSize) * 60
    ensures IsBucketBoundary(start, bucketSize)
    ensures start <= now < start + bucketSize * 60
    ensures start / 3600 == now / 3600
    ensures start / 60 == now / 60 - MinuteOfHour(now) % bucketSize
  {
    var m := MinuteOfHour(now);
    RoundDownFacts(m, bucketSize);
    StartInMinutes(now, m % bucketSize, bucketSize, start);
  }

  /** Rounding `m` down to a multiple of `b` moves it back by less than `b`, and not below zero. */
  lemma RoundDownFacts(m: int, b: int)
    requires 0 < b && 0 <= m
    ensures 0 <= m % b < b && m % b <= m
    ensures (m - m % b) % b == 0
  {
    DivModUnique(m - m % b, b, m / b, 0);
  }

  /** Moving `now`, truncated to the minute, back by `back` minutes of its hour, in linear arithmetic. */
  lemma StartInMinutes(now: Instant, back: int, bucketSize: int, start: Instant)
    requires 0 <= back < bucketSize && back <= MinuteOfHour(now)
    requires start == now - now % 60 - back * 60
    ensures start % 60 == 0 && start / 60 == now / 60 - back
    ensures MinuteOfHour(start) == MinuteOfHour(now) - back
    ensures start <= now < start + bucketSize * 60
    ensures start / 3600 == now / 3600
  {
    var q := now / 60;
    var h := q / 60;
    var m := q % 60;
    DivModUnique(start, 60, q - back, 0);
    DivModUnique(q - back, 60, h, m - back);
    DivModUnique(start, 3600, h, 60 * (m - back));
    DivModUnique(now, 3600, h, 60 * m + now % 60);
  }

  /**
   * No bucket boundary lies strictly between the bucket start and `now`:
   * the start is the latest boundary at or before `now`, for every size from
   * 1 to 60 minutes (not only the divisors of 60).
   */
  lemma StartIsLatestBoundary(bucketSize: int, now: Instant, t: Instant)
    requires 0 < bucketSize <= MaxBucketSize
    requires IsBucketBoundary(t, bucketSize)
    requires t <= now
    ensures t <= StartOfCurrentBucket(bucketSize, now).value
  {
    var m := MinuteOfHour(now);
    var back := m % bucketSize;
    var s := now - now % 60 - back * 60;
    assert StartOfCurrentBucket(bucketSize, now).value == s;
    RoundDownFacts(m, bucketSize);
    if t > s {
      var x := MinuteBetween(now, back, t);
      NoMultipleStrictlyBetween(bucketSize, m, x);
    }
  }

  /** A whole minute after `now`'s minute moved back by `back`, and not after `now`, lies in the same hour. */
  lemma MinuteBetween(now: Instant, back: int, t: Instant) returns (x: int)
    requires 0 <= back <= MinuteOfHour(now)
    requires t % 60 == 0
    requires now - now % 60 - back * 60 < t <= now
    ensures x == MinuteOfHour(t)
    ensures MinuteOfHour(now) - back < x <= MinuteOfHour(now)
  {
    var q := now / 60;
    var h := q / 60;
    var qt := t / 60;
    x := qt - 60 * h;
    DivModUnique(qt, 60, h, x);
  }

  /** Above the largest multiple of `b` not exceeding `m`, no number up to `m` is a multiple of `b`. */
  lemma NoMultipleStrictlyBetween(b: int, m: int, x: int)
    requires 0 < b
    requires m - m % b < x <= m
    ensures x % b != 0
  {
    var k := m / b;
    if x % b == 0 {
      var j := x / b;
      assert b * k < b * j <= b * k + m % b;
      if j <= k {
        MulMonotone(b, j, k);
      } else {
        MulMonotone(b, k + 1, j);
      }
    }
  }

  /** Number of windows one run processes: Python's `run_every // bucket_size`, and none when that is negative. */
  function WindowCount(runEvery: int, bucketSize: int): (n: nat)
    requires 0 < bucketSize
    ensures runEvery < bucketSize ==> n == 0
    ensures 0 <= runEvery ==> n * bucketSize <= runEvery < (n + 1) * bucketSize
  {
    if runEvery < 0 then 0
    else
      DivModUnique(runEvery, bucketSize, runEvery / bucketSize, runEvery % bucketSize);
      runEvery / bucketSize
  }

  /**
   * `count` windows of `width` seconds, most recent first, the first ending
   * at `end`: window `i` is `(end - (i+1)*width, end - i*width]`.
   */
  function WindowsEndingAt(end: Instant, width: int, count: nat): (ws: seq<Window>)
    ensures |ws| == count
    ensures forall i :: 0 <= i < count ==> ws[i].end - ws[i].start == width
    ensures count > 0 ==> ws[0].end == end
    ensures forall i :: 0 < i < count ==> ws[i].end == ws[i - 1].start
  {
    seq(count, i => Window(end - (i + 1) * width, end - i * width))
  }

  /**
   * `get_time_buckets`: the fully elapsed windows one run processes, most
   * recent first, ending at the start of the still-open bucket.
   */
  function TimeBuckets(bucketSize: int, runEvery: int, now: Instant): (r: Result<seq<Window>, ConfigError>)
    requires 0 < bucketSize
    ensures r.Failure? <==> bucketSize > MaxBucketSize
    ensures r.Failure? ==> r.error == BucketSizeTooLarge(bucketSize)
    ensures r.Success? ==> |r.value| == WindowCount(runEvery, bucketSize)
    ensures r.Success? ==> forall i :: 0 <= i < |r.value| ==>
      r.value[i].end - r.value[i].start == bucketSize * SecondsPerMinute && r.value[i].end <= now
    ensures r.Success? ==> forall i :: 0 <= i < |r.value| - 1 ==> r.value[i + 1].end == r.value[i].start
    ensures r.Success? ==> forall i, j :: 0 <= i < j < |r.value| ==> r.value[j].end <= r.value[i].start
    ensures r.Success? && |r.value| > 0 ==> r.value[0].end == StartOfCurrentBucket(bucketSize, now).value
  {
    match StartOfCurrentBucket(bucketSize, now)
    case Failure(e) => Failure(e)
    case Success(first) =>
      var ws := WindowsEndingAt(first, bucketSize * SecondsPerMinute, WindowCount(runEvery, bucketSize));
      WindowsGeometry(first, bucketSize * SecondsPerMinute, WindowCount(runEvery, bucketSize));
      Success(ws)
  }

  /** Each window is `width` wide and ends by `end`; each ends where the next-older one starts. */
  lemma WindowsGeometry(end: Instant, width: int, n: nat)
    requires 0 < width
    ensures var ws := WindowsEndingAt(end, width, n);
            && (forall i :: 0 <= i < n ==> ws[i].end - ws[i].start == width && ws[i].end <= end)
            && (forall i :: 0 <= i < n - 1 ==> ws[i + 1].end == ws[i].start)
            && (forall i, j :: 0 <= i < j < n ==> ws[j].end <= ws[i].start)
  {
    var ws := WindowsEndingAt(end, width, n);
    forall i | 0 <= i < n ensures ws[i].end - ws[i].start == width && ws[i].end <= end {
      MulMonotone(width, 0, i);
    }
    forall i, j | 0 <= i < j < n ensures ws[j].end <= ws[i].start {
      MulMonotone(width, i + 1, j);
    }
  }

  /**
   * The windows of a run tile `(S - n*width, S]` exactly, where `S` is the
   * current bucket start: every instant in that span lies in exactly one
   * window, and nothing outside it (in particular nothing in the still-open
   * bucket after `S`) lies in any window.
   */
  lemma WindowsTile(bucketSize: int, runEvery: int, now: Instant, t: Instant)
    requires 0 < bucketSize <= MaxBucketSize
    ensures var ws := TimeBuckets(bucketSize, runEvery, now).value;
            var s := StartOfCurrentBucket(bucketSize, now).value;
            var width := bucketSize * SecondsPerMinute;
            && ((exists i :: 0 <= i < |ws| && Contains(ws[i], t)) <==> s - |ws| * width < t <= s)
            && (forall i, j :: 0 <= i < |ws| && 0 <= j < |ws| && Contains(ws[i], t) && Contains(ws[j], t) ==> i == j)
  {
    var ws := TimeBuckets(bucketSize, runEvery, now).value;
    var s := StartOfCurrentBucket(bucketSize, now).value;
    var width := bucketSize * SecondsPerMinute;
    assert ws == WindowsEndingAt(s, width, |ws|);
    WindowsInsideSpan(s, width, |ws|, t);
    SpanCovered(s, width, |ws|, t);
    WindowsDisjoint(s, width, |ws|, t);
  }

  lemma WindowsInsideSpan(end: Instant, width: int, n: nat, t: Instant)
    requires 0 < width
    ensures var ws := WindowsEndingAt(end, width, n);
            forall i :: 0 <= i < n && Contains(ws[i], t) ==> end - n * width < t <= end
  {
    var ws := WindowsEndingAt(end, width, n);
    forall i | 0 <= i < n && Contains(ws[i], t)
      ensures end - n * width < t <= end
    {
      MulMonotone(width, 0, i);
      MulMonotone(width, i + 1, n);
    }
  }

  lemma SpanCovered(end: Instant, width: int, n: nat, t: Instant)
    requires 0 < width
    ensures var ws := WindowsEndingAt(end, width, n);
            end - n * width < t <= end ==> exists i :: 0 <= i < n && Contains(ws[i], t)
  {
    if end - n * width < t <= end {
      CoveringWindow(end, width, n, t);
    }
  }

  lemma CoveringWindow(end: Instant, width: int, n: nat, t: Instant)
    requires 0 < width
    requires end - n * width < t <= end
    ensures var ws := WindowsEndingAt(end, width, n);
            exists i :: 0 <= i < n && Contains(ws[i], t)
  {
    var ws := WindowsEndingAt(end, width, n);
    var i := (end - t) / width;
    var r := (end - t) % width;
    assert end - t == width * i + r;
    assert 0 <= i by {
      if i < 0 {
        MulMonotone(width, i, -1);
      }
    }
    assert i < n by {
      if i >= n {
        MulMonotone(width, n, i);
      }
    }
    assert Contains(ws[i], t);
  }

  lemma WindowsDisjoint(end: Instant, width: int, n: nat, t: Instant)
    requires 0 < width
    ensures var ws := WindowsEndingAt(end, width, n);
            forall i, j :: 0 <= i < n && 0 <= j < n && Contains(ws[i], t) && Contains(ws[j], t) ==> i == j
  {
    var ws := WindowsEndingAt(end, width, n);
    forall i, j | 0 <= i < n && 0 <= j < n && Contains(ws[i], t) && Contains(ws[j], t)
      ensures i == j
    {
      if i < j {
        MulMonotone(width, i + 1, j);
      } else if j < i {
        MulMonotone(width, j + 1, i);
      }
    }
  }

  /** The worked example: 15-minute buckets, hourly run, now = 10:47:00 on day 0. */
  lemma ExampleQuarterHours()
    ensures TimeBuckets(15, 60, 10 * 3600 + 47 * 60) == Success([
      Window(10 * 3600 + 30 * 60, 10 * 3600 + 45 * 60),
      Window(10 * 3600 + 15 * 60, 10 * 3600 + 30 * 60),
      Window(10 * 3600, 10 * 3600 + 15 * 60),
      Window(9 * 3600 + 45 * 60, 10 * 3600)])
  {
    var now := 10 * 3600 + 47 * 60;
    assert MinuteOfHour(now) == 47;
    assert StartOfCurrentBucket(15, now) == Success(10 * 3600 + 45 * 60);
    assert WindowCount(60, 15) == 4;
    var ws := TimeBuckets(15, 60, now).value;
    assert ws == WindowsEndingAt(10 * 3600 + 45 * 60, 900, 4);
    assert ws[0] == Window(10 * 3600 + 30 * 60, 10 * 3600 + 45 * 60);
    assert ws[1] == Window(10 * 3600 + 15 * 60, 10 * 3600 + 30 * 60);
    assert ws[2] == Window(10 * 3600, 10 * 3600 + 15 * 60);
    assert ws[3] == Window(9 * 3600 + 45 * 60, 10 * 3600);
    assert ws == [ws[0], ws[1], ws[2], ws[3]];
    assert TimeBuckets(15, 60, now) == Success(ws);
  }
}
