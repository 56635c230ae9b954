/** Sorting, summing and nearest-rank percentiles of a window of samples. */
module Statistics {
  type Nanos = int

  predicate Ascending(s: seq<Nanos>) {
    forall i, j :: 0 <= i < j < |s| ==> s[i] <= s[j]
  }

  function Insert(s: seq<Nanos>, x: Nanos): seq<Nanos> {
    if s == [] || x <= s[0] then [x] + s else [s[0]] + Insert(s[1..], x)
  }

  function Sorted(s: seq<Nanos>): seq<Nanos> {
    if s == [] then [] else Insert(Sorted(s[1..]), s[0])
  }

  lemma {:induction false} InsertKeepsSamples(s: seq<Nanos>, x: Nanos)
    ensures multiset(Insert(s, x)) == multiset(s) + multiset{x}
    ensures |Insert(s, x)| == |s| + 1
    decreases |s|
  {
    if s != [] && x > s[0] {
      InsertKeepsSamples(s[1..], x);
      assert s == [s[0]] + s[1..];
    }
  }

  lemma {:induction false} PrependKeepsOrder(x: Nanos, s: seq<Nanos>)
    requires Ascending(s) && forall y :: y in s ==> x <= y
    ensures Ascending([x] + s)
  {
    forall j | 0 <= j < |s|
      ensures x <= s[j]
    {
      assert s[j] in s;
    }
  }

  lemma {:induction false} InsertKeepsOrder(s: seq<Nanos>, x: Nanos)
    requires Ascending(s)
    ensures Ascending(Insert(s, x))
    ensures forall y :: y in Insert(s, x) <==> y in s || y == x
    decreases |s|
  {
    if s == [] || x <= s[0] {
      PrependKeepsOrder(x, s);
    } else {
      InsertKeepsOrder(s[1..], x);
      PrependKeepsOrder(s[0], Insert(s[1..], x));
      assert s == [s[0]] + s[1..];
    }
  }

  /** The sort is ascending and a permutation. */
  lemma {:induction false} SortSorts(s: seq<Nanos>)
    ensures Ascending(Sorted(s))
    ensures multiset(Sorted(s)) == multiset(s)
    ensures |Sorted(s)| == |s|
    decreases |s|
  {
    if s != [] {
      SortSorts(s[1..]);
      InsertKeepsOrder(Sorted(s[1..]), s[0]);
      InsertKeepsSamples(Sorted(s[1..]), s[0]);
      assert s == [s[0]] + s[1..];
    }
  }

  lemma {:induction false} SameFirst(a: seq<Nanos>, b: seq<Nanos>)
    requires a != [] && b != []
    requires Ascending(a) && Ascending(b) && multiset(a) == multiset(b)
    ensures a[0] == b[0]
  {
    assert a[0] in multiset(b) && b[0] in multiset(a);
  }

  lemma {:induction false} RestOfAMultiset(s: seq<Nanos>)
    requires s != []
    ensures multiset(s[1..]) == multiset(s) - multiset{s[0]}
  {
    assert s == [s[0]] + s[1..];
  }

  lemma {:induction false} SameLength(a: seq<Nanos>, b: seq<Nanos>)
    requires multiset(a) == multiset(b)
    ensures |a| == |b|
  {
    assert |multiset(a)| == |a|;
  }

  lemma {:induction false} SameParts(a: seq<Nanos>, b: seq<Nanos>)
    requires a != [] && b != [] && a[0] == b[0] && a[1..] == b[1..]
    ensures a == b
  {
    assert a == [a[0]] + a[1..] && b == [b[0]] + b[1..];
  }

  /** An ascending sequence is determined by what it holds. */
  lemma {:induction false} AscendingIsUnique(a: seq<Nanos>, b: seq<Nanos>)
    requires Ascending(a) && Ascending(b) && multiset(a) == multiset(b)
    ensures a == b
    decreases |a|
  {
    SameLength(a, b);
    if a != [] {
      RestOfAMultiset(a);
      RestOfAMultiset(b);
      SameFirst(a, b);
      AscendingIsUnique(a[1..], b[1..]);
      SameParts(a, b);
    }
  }

  lemma {:induction false} SortOfAPermutation(a: seq<Nanos>, b: seq<Nanos>)
    requires multiset(a) == multiset(b)
    ensures Sorted(a) == Sorted(b)
  {
    SortSorts(a);
    SortSorts(b);
    AscendingIsUnique(Sorted(a), Sorted(b));
  }

  // ── Sums and counts ────────────────────────────────────────────────────

  function Sum(s: seq<Nanos>): int {
    if s == [] then 0 else s[0] + Sum(s[1..])
  }

  /** How many samples are at most `v`. */
  function AtMost(s: seq<Nanos>, v: int): nat {
    if s == [] then 0 else (if s[0] <= v then 1 else 0) + AtMost(s[1..], v)
  }

  /** What a sum and a count are: of one sample, and of two sequences joined. */
  lemma {:induction false} SumsAndCountsJoin(a: seq<Nanos>, b: seq<Nanos>, x: Nanos, v: int)
    ensures Sum([x]) == x && AtMost([x], v) == if x <= v then 1 else 0
    ensures Sum(a + b) == Sum(a) + Sum(b) && AtMost(a + b, v) == AtMost(a, v) + AtMost(b, v)
    decreases |a|
  {
    if a == [] {
      assert a + b == b;
    } else {
      assert (a + b)[1..] == a[1..] + b;
      SumsAndCountsJoin(a[1..], b, x, v);
    }
  }

  lemma {:induction false} InsertAdds(s: seq<Nanos>, x: Nanos, v: int)
    ensures Sum(Insert(s, x)) == Sum(s) + x
    ensures AtMost(Insert(s, x), v) == AtMost(s, v) + if x <= v then 1 else 0
    decreases |s|
  {
    if s == [] || x <= s[0] {
      assert ([x] + s)[1..] == s;
    } else {
      InsertAdds(s[1..], x, v);
      assert ([s[0]] + Insert(s[1..], x))[1..] == Insert(s[1..], x);
    }
  }

  lemma {:induction false} SortKeepsSumsAndCounts(s: seq<Nanos>, v: int)
    ensures Sum(Sorted(s)) == Sum(s)
    ensures AtMost(Sorted(s), v) == AtMost(s, v)
    decreases |s|
  {
    if s != [] {
      SortKeepsSumsAndCounts(s[1..], v);
      InsertAdds(Sorted(s[1..]), s[0], v);
    }
  }

  /** In an ascending sequence, the samples at most `v` are the first ones. */
  lemma {:induction false} CountInOrder(s: seq<Nanos>, i: nat, v: int)
    requires Ascending(s) && i < |s|
    ensures v >= s[i] ==> AtMost(s, v) >= i + 1
    ensures v < s[i] ==> AtMost(s, v) <= i
    decreases |s|
  {
    if i > 0 {
      CountInOrder(s[1..], i - 1, v);
    } else if v < s[0] {
      NoneAtMost(s, v);
    }
  }

  lemma {:induction false} NoneAtMost(s: seq<Nanos>, v: int)
    requires forall i :: 0 <= i < |s| ==> v < s[i]
    ensures AtMost(s, v) == 0
    decreases |s|
  {
    if s != [] {
      NoneAtMost(s[1..], v);
    }
  }

  lemma {:induction false} SumIsBetween(s: seq<Nanos>, low: int, high: int)
    requires forall i :: 0 <= i < |s| ==> low <= s[i] <= high
    ensures low * |s| <= Sum(s) <= high * |s|
    decreases |s|
  {
    if s != [] {
      SumIsBetween(s[1..], low, high);
      assert low * |s| == low * (|s| - 1) + low;
      assert high * |s| == high * (|s| - 1) + high;
    }
  }

  // ── Nearest rank ───────────────────────────────────────────────────────

  function Min(a: int, b: int): int {
    if a <= b then a else b
  }

  function Max(a: int, b: int): int {
    if a >= b then a else b
  }

  /** `ceil(n * p / 100) - 1`, clamped into the samples. */
  function RankIndex(n: nat, p: nat): (index: nat)
    requires n > 0
    ensures index < n
  {
    var rank := (n * p + 99) / 100;
    Min(Max(rank - 1, 0), n - 1)
  }

  function Percentile(sorted: seq<Nanos>, p: nat): Nanos
    requires sorted != []
  {
    sorted[RankIndex(|sorted|, p)]
  }

  lemma {:induction false} RankIndexIsNearest(n: nat, p: nat)
    requires n > 0 && 1 <= p <= 100
    ensures (RankIndex(n, p) + 1) * 100 >= n * p
    ensures RankIndex(n, p) * 100 < n * p
  {
    var np := n * p;
    assert n * p <= n * 100 by { ProductIsMonotone(n, p, 100); }
    assert n * 1 <= n * p by { ProductIsMonotone(n, 1, p); }
    var rank := (np + 99) / 100;
    assert np <= rank * 100 < np + 100;
  }

  lemma {:induction false} ProductIsMonotone(n: nat, p: nat, q: nat)
    requires p <= q
    ensures n * p <= n * q
  {
    assert n * q == n * p + n * (q - p);
  }

  lemma {:induction false} RankGrows(n: nat, p: nat, q: nat)
    requires n > 0 && p <= q
    ensures RankIndex(n, p) <= RankIndex(n, q)
  {
    ProductIsMonotone(n, p, q);
  }

  /** The nearest-rank percentile of a window: a sample of the window with at least `p`
      percent of the samples at or below it, and fewer than `p` percent strictly below. */
  lemma {:induction false} PercentileIsNearestRank(window: seq<Nanos>, p: nat)
    requires window != [] && 1 <= p <= 100
    ensures |Sorted(window)| == |window|
    ensures var v := Percentile(Sorted(window), p);
            && v in window
            && AtMost(window, v) * 100 >= |window| * p
            && AtMost(window, v - 1) * 100 < |window| * p
  {
    SortSorts(window);
    RankIndexIsNearest(|window|, p);
    SampleAtARank(window, RankIndex(|window|, p));
  }

  /** The sample at a rank of the sorted window: it is in the window, more samples than
      its rank are at most it, and no more than its rank are below it. */
  lemma {:induction false} SampleAtARank(window: seq<Nanos>, i: nat)
    requires i < |window|
    ensures |Sorted(window)| == |window|
    ensures var v := Sorted(window)[i];
            v in window && AtMost(window, v) >= i + 1 && AtMost(window, v - 1) <= i
  {
    SortSorts(window);
    var v := Sorted(window)[i];
    CountAround(Sorted(window), i);
    SortKeepsSumsAndCounts(window, v);
    SortKeepsSumsAndCounts(window, v - 1);
    assert v in multiset(Sorted(window));
  }

  lemma {:induction false} CountAround(sorted: seq<Nanos>, i: nat)
    requires Ascending(sorted) && i < |sorted|
    ensures AtMost(sorted, sorted[i]) >= i + 1
    ensures AtMost(sorted, sorted[i] - 1) <= i
  {
    CountInOrder(sorted, i, sorted[i]);
    CountInOrder(sorted, i, sorted[i] - 1);
  }

  lemma {:induction false} PercentilesAscend(window: seq<Nanos>, p: nat, q: nat)
    requires window != [] && p <= q
    ensures |Sorted(window)| == |window|
    ensures Percentile(Sorted(window), p) <= Percentile(Sorted(window), q)
  {
    SortSorts(window);
    RankGrows(|window|, p, q);
  }

  /** The truncated average lies between any bounds of the window. */
  lemma {:induction false} AverageIsBetween(window: seq<Nanos>, low: int, high: int)
    requires window != []
    requires forall i :: 0 <= i < |window| ==> low <= window[i] <= high
    ensures low <= Sum(window) / |window| <= high
  {
    SumIsBetween(window, low, high);
    QuotientIsBetween(Sum(window), |window|, low, high);
  }

  lemma {:induction false} FactorCancels(a: int, b: int, n: nat)
    ensures a * n < b * n ==> a < b
  {
    if a >= b {
      assert a * n == b * n + (a - b) * n;
    }
  }

  lemma {:induction false} QuotientIsBetween(sum: int, n: nat, low: int, high: int)
    requires n > 0 && low * n <= sum <= high * n
    ensures low <= sum / n <= high
  {
    var q := sum / n;
    assert q * n <= sum < (q + 1) * n;
    assert (high + 1) * n == high * n + n;
    FactorCancels(low, q + 1, n);
    FactorCancels(q, high + 1, n);
  }
}
