/** The rolling-window latency tracker: a circular buffer of the last 1024 samples. */
module Latency {
  import opened Wrappers
  import opened Statistics

  const MAX_SAMPLES: int := 1024
  const U64_MAX: int := 0xffff_ffff_ffff_ffff

  datatype LatencyStats =
    LatencyStats(count: nat, minNs: int, maxNs: int, avgNs: int, p50Ns: int, p95Ns: int, p99Ns: int)

  // ── What the tracker means, over everything recorded ───────────────────

  /** The last `min(n, 1024)` samples. */
  function Window(history: seq<Nanos>): seq<Nanos> {
    if |history| <= MAX_SAMPLES then history else history[|history| - MAX_SAMPLES..]
  }

  function Lowest(history: seq<Nanos>): int {
    if history == [] then U64_MAX else Min(Lowest(history[..|history| - 1]), history[|history| - 1])
  }

  function Highest(history: seq<Nanos>): int {
    if history == [] then 0 else Max(Highest(history[..|history| - 1]), history[|history| - 1])
  }

  /** Lifetime extremes, and the average and percentiles of the window. */
  function StatsOf(history: seq<Nanos>): LatencyStats
    requires history != []
  {
    SortSorts(Window(history));
    var window := Window(history);
    LatencyStats(|history|, Lowest(history), Highest(history), Sum(window) / |window|,
                 Percentile(Sorted(window), 50), Percentile(Sorted(window), 95), Percentile(Sorted(window), 99))
  }

  predicate IsU64(x: int) {
    0 <= x <= U64_MAX
  }

  lemma {:induction false} ExtremesBound(history: seq<Nanos>, i: nat)
    requires i < |history|
    ensures Lowest(history) <= history[i] <= Highest(history)
    decreases |history|
  {
    if i < |history| - 1 {
      ExtremesBound(history[..|history| - 1], i);
    }
  }

  lemma {:induction false} ExtremesAreReached(history: seq<Nanos>)
    requires history != [] && forall x :: x in history ==> IsU64(x)
    ensures Lowest(history) in history && Highest(history) in history
    decreases |history|
  {
    var front, last := history[..|history| - 1], history[|history| - 1];
    assert last in history;
    assert forall x :: x in front ==> x in history;
    if front != [] {
      ExtremesAreReached(front);
    }
  }

  /** `min <= p50 <= p95 <= p99 <= max` over any recording, and the average lies between
      any bounds of the window. */
  lemma {:induction false} StatsAreOrdered(history: seq<Nanos>, low: int, high: int)
    requires history != []
    requires forall i :: 0 <= i < |Window(history)| ==> low <= Window(history)[i] <= high
    ensures var stats := StatsOf(history);
            && stats.minNs <= stats.p50Ns <= stats.p95Ns <= stats.p99Ns <= stats.maxNs
            && low <= stats.avgNs <= high
  {
    var window := Window(history);
    PercentilesAscend(window, 50, 95);
    PercentilesAscend(window, 95, 99);
    WithinExtremes(history, 50);
    WithinExtremes(history, 99);
    AverageIsBetween(window, low, high);
  }

  /** Whether `v` is the nearest-rank percentile of a window. */
  predicate IsPercentile(v: int, window: seq<Nanos>, p: nat) {
    v in window && AtMost(window, v) * 100 >= |window| * p && AtMost(window, v - 1) * 100 < |window| * p
  }

  predicate IsLowest(v: int, history: seq<Nanos>) {
    v in history && forall x :: x in history ==> v <= x
  }

  predicate IsHighest(v: int, history: seq<Nanos>) {
    v in history && forall x :: x in history ==> x <= v
  }

  /** Field by field: how many samples there ever were and the extremes of them all; and of
      the last 1024 or fewer, the truncated average and the three percentiles. */
  predicate Describes(stats: LatencyStats, history: seq<Nanos>) {
    var window := if |history| <= 1024 then history else history[|history| - 1024..];
    && stats.count == |history|
    && IsLowest(stats.minNs, history) && IsHighest(stats.maxNs, history)
    && stats.avgNs * |window| <= Sum(window) < (stats.avgNs + 1) * |window|
    && IsPercentile(stats.p50Ns, window, 50)
    && IsPercentile(stats.p95Ns, window, 95)
    && IsPercentile(stats.p99Ns, window, 99)
  }

  lemma {:induction false} PercentilesOf(window: seq<Nanos>, p: nat)
    requires window != [] && 1 <= p <= 100
    ensures |Sorted(window)| == |window| && IsPercentile(Percentile(Sorted(window), p), window, p)
  {
    PercentileIsNearestRank(window, p);
  }

  lemma {:induction false} TheStatsDescribe(history: seq<Nanos>)
    requires history != [] && forall x :: x in history ==> IsU64(x)
    ensures Describes(StatsOf(history), history)
  {
    var window := Window(history);
    PercentilesOf(window, 50);
    PercentilesOf(window, 95);
    PercentilesOf(window, 99);
    ExtremesAreExtreme(history);
    AQuotient(Sum(window), |window|);
  }

  lemma {:induction false} AQuotient(sum: int, n: nat)
    requires n > 0
    ensures sum / n * n <= sum < (sum / n + 1) * n
  {
  }

  lemma {:induction false} ExtremesAreExtreme(history: seq<Nanos>)
    requires history != [] && forall x :: x in history ==> IsU64(x)
    ensures IsLowest(Lowest(history), history) && IsHighest(Highest(history), history)
  {
    ExtremesAreReached(history);
    forall x | x in history
      ensures Lowest(history) <= x <= Highest(history)
    {
      var i :| 0 <= i < |history| && history[i] == x;
      ExtremesBound(history, i);
    }
  }

  lemma {:induction false} WithinExtremes(history: seq<Nanos>, p: nat)
    requires history != [] && 1 <= p <= 100
    ensures |Sorted(Window(history))| == |Window(history)|
    ensures Lowest(history) <= Percentile(Sorted(Window(history)), p) <= Highest(history)
  {
    var window := Window(history);
    PercentileIsNearestRank(window, p);
    var v := Percentile(Sorted(window), p);
    var j :| 0 <= j < |window| && window[j] == v;
    ExtremesBound(history, |history| - |window| + j);
  }

  // ── The buffer ─────────────────────────────────────────────────────────

  /** Slot `k % 1024` holds sample `k`, for each of the last 1024. */
  predicate Holds(slots: seq<Nanos>, history: seq<Nanos>) {
    && |slots| == MAX_SAMPLES
    && forall k :: 0 <= k < |history| && |history| - MAX_SAMPLES <= k ==> slots[k % MAX_SAMPLES] == history[k]
  }

  lemma {:induction false} DifferentSlots(k: nat, n: nat)
    requires n - MAX_SAMPLES < k < n
    ensures k % MAX_SAMPLES != n % MAX_SAMPLES
  {
  }

  lemma {:induction false} OneMoreIsHeld(slots: seq<Nanos>, history: seq<Nanos>, index: nat, x: Nanos)
    requires Holds(slots, history)
    requires index == |history| % MAX_SAMPLES
    ensures Holds(slots[index := x], history + [x])
  {
    var n, longer := |history|, history + [x];
    forall k | 0 <= k < |longer| && |longer| - MAX_SAMPLES <= k
      ensures slots[index := x][k % MAX_SAMPLES] == longer[k]
    {
      if k < n {
        DifferentSlots(k, n);
        var slot := k % MAX_SAMPLES;
        assert slots[index := x][slot] == slots[slot];
        assert longer[k] == history[k];
      }
    }
  }

  /** The sample a full buffer's slot `j` holds: of this lap before the write index, of
      the lap before it from there on. */
  function SampleAt(n: nat, j: nat): int {
    if j < n % MAX_SAMPLES then n - n % MAX_SAMPLES + j else n - n % MAX_SAMPLES - MAX_SAMPLES + j
  }

  lemma {:induction false} SlotOfSample(n: nat, j: nat)
    requires n >= MAX_SAMPLES && j < MAX_SAMPLES
    ensures n - MAX_SAMPLES <= SampleAt(n, j) < n && SampleAt(n, j) % MAX_SAMPLES == j
  {
  }

  lemma {:induction false} SlotsOfAFullBuffer(slots: seq<Nanos>, history: seq<Nanos>, j: nat)
    requires Holds(slots, history)
    requires |history| >= MAX_SAMPLES && j < MAX_SAMPLES
    ensures 0 <= SampleAt(|history|, j) < |history| && slots[j] == history[SampleAt(|history|, j)]
  {
    SlotOfSample(|history|, j);
    var k := SampleAt(|history|, j);
    assert slots[k % MAX_SAMPLES] == history[k];
  }

  lemma {:induction false} SlotsOfAPartialBuffer(slots: seq<Nanos>, history: seq<Nanos>)
    requires Holds(slots, history)
    requires |history| <= MAX_SAMPLES
    ensures slots[..|history|] == history
  {
    forall k | 0 <= k < |history|
      ensures slots[k] == history[k]
    {
      assert k % MAX_SAMPLES == k;
    }
  }

  /** A full buffer is this lap's samples, and then the last lap's that they have not
      overwritten. */
  lemma {:induction false} AFullBufferIsTwoLaps(slots: seq<Nanos>, history: seq<Nanos>, lap: nat)
    requires Holds(slots, history) && |history| >= MAX_SAMPLES
    requires lap == |history| - |history| % MAX_SAMPLES
    ensures |history| - MAX_SAMPLES <= lap <= |history|
    ensures slots == history[lap..] + history[|history| - MAX_SAMPLES..lap]
  {
    var n := |history|;
    var newer, last := history[lap..], history[n - MAX_SAMPLES..lap];
    forall j | 0 <= j < MAX_SAMPLES
      ensures slots[j] == (newer + last)[j]
    {
      SlotsOfAFullBuffer(slots, history, j);
      assert SampleAt(n, j) == if j < n - lap then lap + j else lap - MAX_SAMPLES + j;
      if j < n - lap {
        assert (newer + last)[j] == newer[j] == history[lap + j];
      } else {
        assert (newer + last)[j] == last[j - (n - lap)] == history[n - MAX_SAMPLES + (j - (n - lap))];
      }
    }
  }

  lemma {:induction false} Halves(s: seq<Nanos>, from: nat, middle: nat)
    requires from <= middle <= |s|
    ensures s[from..] == s[from..middle] + s[middle..]
  {
  }

  lemma {:induction false} SwappingKeepsSamples(newer: seq<Nanos>, last: seq<Nanos>)
    ensures multiset(newer + last) == multiset(last + newer)
  {
  }

  lemma {:induction false} TwoLaps(slots: seq<Nanos>, history: seq<Nanos>) returns (newer: seq<Nanos>, last: seq<Nanos>)
    requires Holds(slots, history) && |history| >= MAX_SAMPLES
    ensures slots == newer + last
    ensures history[|history| - MAX_SAMPLES..] == last + newer
  {
    var n := |history|;
    var lap := n - n % MAX_SAMPLES;
    AFullBufferIsTwoLaps(slots, history, lap);
    newer, last := history[lap..], history[n - MAX_SAMPLES..lap];
    assert history[n - MAX_SAMPLES..] == last + newer by {
      Halves(history, n - MAX_SAMPLES, lap);
    }
  }

  lemma {:induction false} AFullBufferIsItsWindow(slots: seq<Nanos>, history: seq<Nanos>)
    requires Holds(slots, history) && |history| >= MAX_SAMPLES
    ensures multiset(slots) == multiset(history[|history| - MAX_SAMPLES..])
  {
    var newer, last := TwoLaps(slots, history);
    SwappingKeepsSamples(newer, last);
  }

  /** The live slots are the window, rotated. */
  lemma {:induction false} LiveSlotsAreTheWindow(slots: seq<Nanos>, history: seq<Nanos>)
    requires Holds(slots, history)
    ensures multiset(slots[..|Window(history)|]) == multiset(Window(history))
  {
    if |history| <= MAX_SAMPLES {
      SlotsOfAPartialBuffer(slots, history);
    } else {
      AFullBufferIsItsWindow(slots, history);
      assert slots[..MAX_SAMPLES] == slots;
    }
  }

  lemma {:induction false} OneMoreIsSeen(history: seq<Nanos>, x: Nanos)
    ensures Lowest(history + [x]) == Min(Lowest(history), x)
    ensures Highest(history + [x]) == Max(Highest(history), x)
  {
    assert (history + [x])[..|history|] == history;
  }

  lemma {:induction false} IndexAdvances(writeIndex: nat, n: nat)
    requires writeIndex % MAX_SAMPLES == n % MAX_SAMPLES
    ensures (writeIndex % MAX_SAMPLES + 1) % MAX_SAMPLES == (n + 1) % MAX_SAMPLES
  {
  }

  // ── The tracker ────────────────────────────────────────────────────────

  class LatencyTracker {
    const samples: array<Nanos>
    var sampleCount: nat
    var writeIndex: nat
    var totalCount: nat
    var minNs: int
    var maxNs: int
    /** Every sample since the start or the last reset. */
    ghost var history: seq<Nanos>

    ghost predicate Valid()
      reads this, samples
    {
      && samples.Length == MAX_SAMPLES
      && Holds(samples[..], history)
      && sampleCount == Min(|history|, MAX_SAMPLES)
      && writeIndex <= MAX_SAMPLES
      && writeIndex % MAX_SAMPLES == |history| % MAX_SAMPLES
      && totalCount == |history|
      && minNs == Lowest(history)
      && maxNs == Highest(history)
      && forall x :: x in history ==> IsU64(x)
    }

    constructor ()
      ensures Valid() && fresh(samples) && history == []
    {
      samples := new Nanos[MAX_SAMPLES](_ => 0);
      sampleCount := 0;
      writeIndex := 0;
      totalCount := 0;
      minNs := U64_MAX;
      maxNs := 0;
      history := [];
    }

    method Record(latencyNs: Nanos)
      requires Valid() && IsU64(latencyNs)
      modifies this, samples
      ensures Valid() && history == old(history) + [latencyNs]
    {
      var index := writeIndex % MAX_SAMPLES;
      ghost var longer := history + [latencyNs];
      assert Holds(samples[..][index := latencyNs], longer) by {
        OneMoreIsHeld(samples[..], history, index, latencyNs);
      }
      assert Lowest(longer) == Min(minNs, latencyNs) && Highest(longer) == Max(maxNs, latencyNs) by {
        OneMoreIsSeen(history, latencyNs);
      }
      assert (index + 1) % MAX_SAMPLES == |longer| % MAX_SAMPLES by {
        IndexAdvances(writeIndex, |history|);
      }
      ghost var slots := samples[..];
      samples[index] := latencyNs;
      assert samples[..] == slots[index := latencyNs];
      writeIndex := index + 1;
      if sampleCount < MAX_SAMPLES {
        sampleCount := sampleCount + 1;
      }
      totalCount := totalCount + 1;
      minNs := Min(minNs, latencyNs);
      maxNs := Max(maxNs, latencyNs);
      history := longer;
    }

    method RecordElapsed(startNs: Nanos, endNs: Nanos) returns (elapsed: Nanos)
      requires Valid() && IsU64(startNs) && IsU64(endNs)
      modifies this, samples
      ensures Valid() && history == old(history) + [elapsed]
      ensures elapsed == if endNs <= startNs then 0 else endNs - startNs
    {
      elapsed := Max(endNs - startNs, 0);
      Record(elapsed);
    }

    /** The statistics are those of the last `min(n, 1024)` samples. */
    method Stats() returns (stats: Option<LatencyStats>)
      requires Valid()
      ensures stats.None? <==> history == []
      ensures stats.Some? ==> Describes(stats.value, history)
      ensures stats.Some? ==> stats.value == StatsOf(history)
    {
      if sampleCount == 0 {
        return None;
      }
      var live := samples[..sampleCount];
      var sorted := Sorted(live);
      TheStatsDescribe(history);
      LiveSlotsAreTheWindow(samples[..], history);
      assert samples[..][..sampleCount] == live;
      SortOfAPermutation(live, Window(history));
      SortSorts(Window(history));
      SortKeepsSumsAndCounts(Window(history), 0);
      var windowSum := Sum(sorted);
      stats := Some(LatencyStats(totalCount, minNs, maxNs, windowSum / sampleCount,
                                 Percentile(sorted, 50), Percentile(sorted, 95), Percentile(sorted, 99)));
    }

    method Reset()
      requires Valid()
      modifies this, samples
      ensures Valid() && history == []
    {
      forall i | 0 <= i < samples.Length {
        samples[i] := 0;
      }
      sampleCount, writeIndex, totalCount, minNs, maxNs := 0, 0, 0, U64_MAX, 0;
      history := [];
    }
  }
}
