/** The window estimator: how much to ask for, from the entries of the last
    seconds. Times and durations are in nanoseconds. */
module Estimator {
  import opened Arithmetic

  /** How many whole seconds ago, rounded towards zero as in Go. */
  function AgeInSeconds(entry: int, now: int): int {
    TruncDiv(now - entry, Seconds(1))
  }

  predicate Sorted(times: seq<int>) {
    forall i, j | 0 <= i < j < |times| :: times[i] <= times[j]
  }

  predicate Young(entry: int, now: int, window: int) {
    now - entry < window
  }

  /** No old entry comes after a young one. */
  predicate YoungLast(times: seq<int>, now: int, window: int) {
    forall i, j | 0 <= i < j < |times| && Young(times[i], now, window) :: Young(times[j], now, window)
  }

  lemma SortedIsYoungLast(times: seq<int>, now: int, window: int)
    requires Sorted(times)
    ensures YoungLast(times, now, window)
  {
  }

  /** No entry is a second or more from the future, and none has the age of the
      window or more. */
  predicate InWindow(times: seq<int>, now: int, n: int) {
    forall i | 0 <= i < |times| :: 0 <= AgeInSeconds(times[i], now) < n
  }

  /** The entries that are younger than the window, in their order. */
  function Recent(times: seq<int>, now: int, window: int): seq<int> {
    if times == [] then [] else
      var entry, rest := times[|times| - 1], Recent(times[..|times| - 1], now, window);
      if Young(entry, now, window) then rest + [entry] else rest
  }

  /** The weight of an entry in a window of n seconds: the more recent, the more.
      An entry that is a second or more from the future has none. */
  function Weight(entry: int, now: int, n: int): (w: nat)
    ensures w <= if 0 <= n then n else 0
  {
    if 0 <= AgeInSeconds(entry, now) < n then n - AgeInSeconds(entry, now) else 0
  }

  function TotalWeight(times: seq<int>, now: int, n: int): int {
    if times == [] then 0 else TotalWeight(times[..|times| - 1], now, n) + Weight(times[|times| - 1], now, n)
  }

  /** An entry of a whole seconds counts for what is left of the window, so that the
      latest count most; older ones and those from the future count for nothing. */
  lemma WeightOfOneMore(times: seq<int>, entry: int, now: int, n: nat, a: int)
    requires 1_000_000_000 * a <= now - entry < 1_000_000_000 * (a + 1)
    ensures TotalWeight(times + [entry], now, n) - TotalWeight(times, now, n) ==
            if 0 <= a < n then n - a
            else if a == -1 && 1_000_000_000 * a < now - entry then n
            else 0
  {
    assert (times + [entry])[..|times|] == times;
  }

  /** How many entries have a given age. */
  function Frequency(times: seq<int>, now: int, age: int): (f: nat) {
    if times == [] then 0 else
      Frequency(times[..|times| - 1], now, age) + if AgeInSeconds(times[|times| - 1], now) == age then 1 else 0
  }

  /** The histogram sum over the first so many ages. */
  function HistogramSum(times: seq<int>, now: int, n: int, ages: nat): int {
    if ages == 0 then 0 else HistogramSum(times, now, n, ages - 1) + Frequency(times, now, ages - 1) * (n - (ages - 1))
  }

  lemma {:induction false} SumOfNone(now: int, n: int, ages: nat)
    ensures HistogramSum([], now, n, ages) == 0
  {
    if ages != 0 {
      SumOfNone(now, n, ages - 1);
    }
  }

  /** One more entry adds its weight, if its age is among those summed over. */
  lemma {:induction false} SumOfOneMore(times: seq<int>, entry: int, now: int, n: int, ages: nat)
    requires ages <= n || ages == 0
    ensures HistogramSum(times + [entry], now, n, ages) ==
            HistogramSum(times, now, n, ages)
            + if 0 <= AgeInSeconds(entry, now) < ages then Weight(entry, now, n) else 0
  {
    if ages != 0 {
      SumOfOneMore(times, entry, now, n, ages - 1);
      assert (times + [entry])[..|times|] == times;
      var f, g := Frequency(times, now, ages - 1), Frequency(times + [entry], now, ages - 1);
      assert g == f + if AgeInSeconds(entry, now) == ages - 1 then 1 else 0;
      hide AgeInSeconds, Frequency;
      assert (f + 1) * (n - (ages - 1)) == f * (n - (ages - 1)) + (n - (ages - 1));
    }
  }

  /** The histogram sum over the window is the sum of weights, for any entries. */
  lemma {:induction false} HistogramIsTotalWeight(times: seq<int>, now: int, n: nat)
    ensures HistogramSum(times, now, n, n) == TotalWeight(times, now, n)
    decreases |times|
  {
    if times == [] {
      SumOfNone(now, n, n);
    } else {
      var init, entry := times[..|times| - 1], times[|times| - 1];
      assert times == init + [entry];
      HistogramIsTotalWeight(init, now, n);
      SumOfOneMore(init, entry, now, n, n);
    }
  }

  lemma {:induction false} TotalWeightBounds(times: seq<int>, now: int, n: nat)
    ensures 0 <= TotalWeight(times, now, n) <= |times| * n
    ensures InWindow(times, now, n) ==> |times| <= TotalWeight(times, now, n)
    decreases |times|
  {
    if times != [] {
      var init, entry := times[..|times| - 1], times[|times| - 1];
      TotalWeightBounds(init, now, n);
      assert InWindow(times, now, n) ==> InWindow(init, now, n) && 1 <= Weight(entry, now, n);
      hide InWindow, Weight, AgeInSeconds;
      OneMore(|init|, n);
    }
  }

  lemma OneMore(k: nat, n: nat)
    ensures (k + 1) * n == k * n + n
  {
  }

  // ---- Which entries a binary search keeps ----

  /** A place between an old entry, or the front, and a young one, or the end. */
  predicate IsEdge(times: seq<int>, now: int, window: int, i: int) {
    && 0 <= i <= |times|
    && (0 < i ==> !Young(times[i - 1], now, window))
    && (i < |times| ==> Young(times[i], now, window))
  }

  /** The entries are kept from an edge on. */
  ghost predicate KeptFromEdge(before: seq<int>, after: seq<int>, now: int, window: int) {
    exists i :: IsEdge(before, now, window, i) && after == before[i..]
  }

  /** If the young entries come last, they are a suffix. */
  lemma {:induction false} RecentIsSuffix(times: seq<int>, now: int, window: int, i: nat)
    requires i <= |times|
    requires forall k | 0 <= k < i :: !Young(times[k], now, window)
    requires forall k | i <= k < |times| :: Young(times[k], now, window)
    ensures times[i..] == Recent(times, now, window)
    decreases |times|
  {
    if times != [] {
      var init, entry := times[..|times| - 1], times[|times| - 1];
      if i == |times| {
        RecentIsSuffix(init, now, window, i - 1);
        assert init[i - 1..] == [] == times[i..];
      } else {
        RecentIsSuffix(init, now, window, i);
        assert times[i..] == init[i..] + [entry];
      }
    }
  }

  lemma {:induction false} RecentAreYoung(times: seq<int>, now: int, window: int)
    ensures forall entry :: entry in Recent(times, now, window) <==> entry in times && Young(entry, now, window)
    ensures |Recent(times, now, window)| <= |times|
    decreases |times|
  {
    if times != [] {
      RecentAreYoung(times[..|times| - 1], now, window);
      assert times == times[..|times| - 1] + [times[|times| - 1]];
    }
  }

  /** From an edge on there are exactly the young entries if and only if no old
      entry comes after a young one. */
  lemma EdgeIsExactWhen(times: seq<int>, now: int, window: int, i: nat)
    requires IsEdge(times, now, window, i)
    ensures times[i..] == Recent(times, now, window) <==> YoungLast(times, now, window)
  {
    if YoungLast(times, now, window) {
      RecentIsSuffix(times, now, window, i);
    }
    if times[i..] == Recent(times, now, window) {
      NoneYoungBefore(times, now, window, i);
    }
  }

  /** If the young entries are a suffix, none is before it. */
  lemma NoneYoungBefore(times: seq<int>, now: int, window: int, i: nat)
    requires i <= |times| && times[i..] == Recent(times, now, window)
    ensures YoungLast(times, now, window)
  {
    var p, q := times[..i], times[i..];
    RecentAreYoung(times, now, window);
    AllYoung(q, now, window);
    assert times == p + q;
    RecentOfParts(p, q, now, window);
    hide Recent;
    NoneRecent(Recent(p, now, window), q);
    OldThenYoung(p, q, now, window);
  }

  lemma NoneRecent(r: seq<int>, q: seq<int>)
    requires q == r + q
    ensures r == []
  {
    assert |q| == |r| + |q|;
  }

  lemma OldThenYoung(p: seq<int>, q: seq<int>, now: int, window: int)
    requires Recent(p, now, window) == [] && forall entry | entry in q :: Young(entry, now, window)
    ensures YoungLast(p + q, now, window)
  {
    hide Recent;
    forall j | 0 <= j < |p|
      ensures !Young(p[j], now, window)
    {
      OldIfNoneRecent(p, now, window, j);
    }
  }

  /** Of entries at 95 and 1 seconds, recorded in this order, a window of 10
      seconds should keep the first at 100 seconds; no edge keeps just that. */
  lemma OutOfOrderIsNotExact()
    ensures var times, now, window := [Seconds(95), Seconds(1)], Seconds(100), Seconds(10);
            && Recent(times, now, window) == [Seconds(95)]
            && forall i | IsEdge(times, now, window, i) :: times[i..] != Recent(times, now, window)
  {
    var times, now, window := [Seconds(95), Seconds(1)], Seconds(100), Seconds(10);
    assert times[..1] == [Seconds(95)] && times[..1][..0] == [];
    assert Recent([], now, window) == [];
    assert Recent(times[..1], now, window) == [Seconds(95)];
    assert times[2..] == [];
  }

  lemma {:induction false} RecentOfParts(p: seq<int>, q: seq<int>, now: int, window: int)
    ensures Recent(p + q, now, window) == Recent(p, now, window) + Recent(q, now, window)
    decreases |q|
  {
    if q == [] {
      assert p + q == p;
    } else {
      var init, entry := q[..|q| - 1], q[|q| - 1];
      assert (p + q)[..|p + q| - 1] == p + init;
      RecentOfParts(p, init, now, window);
    }
  }

  lemma {:induction false} AllYoung(times: seq<int>, now: int, window: int)
    requires forall entry | entry in times :: Young(entry, now, window)
    ensures Recent(times, now, window) == times
    decreases |times|
  {
    if times != [] {
      var init := times[..|times| - 1];
      assert forall entry | entry in init :: entry in times;
      AllYoung(init, now, window);
      assert times[|times| - 1] in times;
      assert times == init + [times[|times| - 1]];
    }
  }

  lemma {:induction false} OldIfNoneRecent(times: seq<int>, now: int, window: int, j: nat)
    requires j < |times| && Recent(times, now, window) == []
    ensures !Young(times[j], now, window)
    decreases |times|
  {
    if j < |times| - 1 {
      OldIfNoneRecent(times[..|times| - 1], now, window, j);
    }
  }

  /** Entries were recorded in order, none a second or more from the future. */
  predicate Orderly(times: seq<int>, now: int) {
    Sorted(times) && forall entry | entry in times :: entry < now + Seconds(1)
  }

  predicate WholeSeconds(window: int) {
    0 < window && window % Seconds(1) == 0
  }

  /** How many seconds the summation goes over. */
  function WindowSeconds(window: int): (n: nat)
    ensures if 0 <= window then 1_000_000_000 * n <= window < 1_000_000_000 * (n + 1) else n == 0
  {
    if 0 <= window then window / Seconds(1) else 0
  }

  lemma RecentAreInWindow(times: seq<int>, now: int, window: int)
    requires Orderly(times, now) && WholeSeconds(window)
    ensures YoungLast(times, now, window)
    ensures InWindow(Recent(times, now, window), now, WindowSeconds(window))
  {
    SortedIsYoungLast(times, now, window);
    RecentAreYoung(times, now, window);
    var kept := Recent(times, now, window);
    hide Recent;
    forall i | 0 <= i < |kept|
      ensures 0 <= AgeInSeconds(kept[i], now) < WindowSeconds(window)
    {
      assert kept[i] in kept;
    }
  }

  /** What the estimator computes: undefined if there are no recent entries. */
  datatype Estimate = Undefined | Wants(value: real)

  class Entries {
    var times: seq<int>

    constructor ()
      ensures times == []
    {
      times := [];
    }

    method Record(entry: int)
      modifies this
      ensures times == old(times) + [entry]
    {
      times := times + [entry];
    }

    /** A binary search for a young entry after an old one; what comes before goes.
        What is kept is exactly the young entries if those come last, as they do
        when entries were recorded in order. */
    method Clear(window: int, now: int)
      modifies this
      ensures KeptFromEdge(old(times), times, now, window)
      ensures times == Recent(old(times), now, window) <==> YoungLast(old(times), now, window)
      ensures Sorted(old(times)) ==>
              forall entry :: entry in times <==> entry in old(times) && now - entry < window
    {
      RecentAreYoung(times, now, window);
      var i, j := 0, |times|;
      while i < j
        invariant 0 <= i <= j <= |times|
        invariant 0 < i ==> !Young(times[i - 1], now, window)
        invariant j < |times| ==> Young(times[j], now, window)
      {
        var h := (i + j) / 2;
        if !Young(times[h], now, window) {
          i := h + 1;
        } else {
          j := h;
        }
      }
      assert IsEdge(times, now, window, i);
      EdgeIsExactWhen(times, now, window, i);
      if Sorted(times) {
        SortedIsYoungLast(times, now, window);
      }
      times := times[i..];
    }

    /** The estimate is the weighted mean of the entries that are kept: with k of
        them in n whole seconds at most 2n / (k + 1), and at least 2 / (k + 1)
        if all are in the window, as they are when entries were recorded in
        order and the window is in whole seconds. */
    method GetWants(window: int, now: int) returns (wants: Estimate)
      modifies this
      ensures KeptFromEdge(old(times), times, now, window)
      ensures times == Recent(old(times), now, window) <==> YoungLast(old(times), now, window)
      ensures Sorted(old(times)) ==>
              forall entry :: entry in times <==> entry in old(times) && now - entry < window
      ensures times == [] <==> wants.Undefined?
      ensures wants.Wants? ==>
              var k, n := |times|, WindowSeconds(window);
              && IsMean(wants.value, TotalWeight(times, now, n), k)
              && MeanAtMost(wants.value, k, n)
              && (InWindow(times, now, n) || (Orderly(old(times), now) && WholeSeconds(window)) ==>
                    MeanAtLeast(wants.value, k))
    {
      hide Mean, IsMean, MeanAtMost, MeanAtLeast, TotalWeight, Recent, InWindow, YoungLast, Seconds, KeptFromEdge;
      hide Sorted;
      hide WindowSeconds, Frequency, Orderly, WholeSeconds;
      if Orderly(times, now) && WholeSeconds(window) {
        RecentAreInWindow(times, now, window);
      }
      Clear(window, now);
      var n := WindowSeconds(window);
      var frequency := Histogram(times, now);
      var sum := WeightedSum(frequency, times, now, n);
      if times == [] {
        return Undefined;
      }
      TotalWeightBounds(times, now, n);
      wants := Wants(Mean(sum, |times|));
      MeanBounds(sum, |times|, n);
    }
  }

  /** A missing key counts as zero. */
  function CountOf(frequency: map<int, int>, age: int): int {
    if age in frequency then frequency[age] else 0
  }

  method Histogram(times: seq<int>, now: int) returns (frequency: map<int, int>)
    ensures forall age :: CountOf(frequency, age) == Frequency(times, now, age)
  {
    frequency := map[];
    for e := 0 to |times|
      invariant forall age :: CountOf(frequency, age) == Frequency(times[..e], now, age)
    {
      var age := AgeInSeconds(times[e], now);
      assert times[..e + 1][..e] == times[..e];
      frequency := frequency[age := CountOf(frequency, age) + 1];
    }
    assert times[..|times|] == times;
  }

  method WeightedSum(frequency: map<int, int>, ghost times: seq<int>, ghost now: int, n: nat) returns (sum: int)
    requires forall age :: CountOf(frequency, age) == Frequency(times, now, age)
    ensures sum == TotalWeight(times, now, n)
  {
    sum := 0;
    for i := 0 to n
      invariant sum == HistogramSum(times, now, n, i)
    {
      sum := sum + CountOf(frequency, i) * (n - i);
    }
    HistogramIsTotalWeight(times, now, n);
  }

  lemma {:induction false} Pairs(k: nat)
    requires 1 <= k
    ensures 1 <= k * (k + 1) / 2 && k * (k + 1) / 2 * 2 == k * (k + 1)
  {
    if 1 < k {
      Pairs(k - 1);
      assert k * (k + 1) == (k - 1) * k + 2 * k;
    }
  }

  function Mean(sum: int, k: nat): real
    requires 1 <= k
  {
    Pairs(k);
    sum as real / (k * (k + 1) / 2) as real
  }

  /** The mean of k summands where the i-th of them counts i times. */
  predicate IsMean(v: real, sum: int, k: nat) {
    v * (k * (k + 1) / 2) as real == sum as real
  }

  predicate MeanAtMost(v: real, k: nat, n: nat) {
    v * (k + 1) as real <= 2.0 * n as real
  }

  predicate MeanAtLeast(v: real, k: nat) {
    2.0 <= v * (k + 1) as real
  }

  /** A mean v over h, where twice h is x * y, compared with a bound. */
  lemma MeanTimes(v: real, h: real, x: real, y: real, sum: real, bound: real)
    requires 0.0 < x && v * h == sum && h * 2.0 == x * y
    ensures sum <= x * bound ==> v * y <= 2.0 * bound
    ensures x * bound <= sum ==> 2.0 * bound <= v * y
  {
    assert v * y * x == 2.0 * sum by {
      assert v * y * x == v * (x * y);
      assert v * (h * 2.0) == 2.0 * (v * h);
    }
    assert (2.0 * bound - v * y) * x == 2.0 * (x * bound - sum);
  }

  lemma MeanBounds(sum: int, k: nat, n: nat)
    requires 1 <= k && 0 <= sum <= k * n
    ensures IsMean(Mean(sum, k), sum, k)
    ensures MeanAtMost(Mean(sum, k), k, n)
    ensures k <= sum ==> MeanAtLeast(Mean(sum, k), k)
  {
    Pairs(k);
    var h, x, y := (k * (k + 1) / 2) as real, k as real, (k + 1) as real;
    assert sum as real <= x * n as real && h * 2.0 == x * y;
    MeanTimes(Mean(sum, k), h, x, y, sum as real, n as real);
    MeanTimes(Mean(sum, k), h, x, y, sum as real, 1.0);
  }
}
