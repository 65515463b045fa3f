/** The rate limiter that spreads a rate over subintervals. Intervals are in
    milliseconds. */
module QpsLimiter {
  import opened Arithmetic

  /** How a rate per interval is cut up: so many permits at every wake-up, some
      left over, a shorter interval, and the number of subintervals. */
  datatype Split = Split(rate: int, leftover: int, interval: int, subintervals: int)

  predicate Splits(rate: int, interval: int) {
    1 < rate && 20 <= interval
  }

  /** How many subintervals a split makes. */
  function Subintervals(rate: int, interval: int): int {
    MinInt(rate, interval / 20)
  }

  /** Without a split the number of subintervals stays what it was before. */
  function Recalculated(rate: int, interval: int, subintervals: int): Split {
    if Splits(rate, interval) then
      var n := Subintervals(rate, interval);
      Split(rate / n, rate % n, rate / n * interval / rate, n)
    else
      Split(rate, 0, interval, subintervals)
  }

  /** A split loses no permits, wastes no time, and never goes below 10 ms. */
  lemma SplitBounds(rate: int, interval: int, subintervals: int)
    requires Splits(rate, interval)
    ensures var s := Recalculated(rate, interval, subintervals);
            && 1 <= s.subintervals && 1 <= s.rate && 0 <= s.leftover < s.subintervals
            && s.rate * s.subintervals + s.leftover == rate
            && 10 <= s.interval
            && s.subintervals * s.interval <= interval
  {
    var n := Subintervals(rate, interval);
    var r, l := rate / n, rate % n;
    DivMod(rate, n);
    assert 20 * n <= interval;
    Product(r, n);
    Scaled(r, interval, 20 * n);
    assert 10 * rate <= r * interval by {
      assert 2 * (r * n) >= r * n + l;
      assert r * (20 * n) == 20 * (r * n);
    }
    DivMod(r * interval, rate);
    var i := r * interval / rate;
    QuotientAtLeast(r * interval, rate, 10);
    assert r * n <= rate;
    Scaled(interval, rate, r * n);
    assert i * rate <= r * interval;
    Scaled(n, r * interval, i * rate);
    assert n * (i * rate) == (n * i) * rate && n * (r * interval) == interval * (r * n) by {
      Associate(n, i, rate);
      Associate(n, r, interval);
    }
    MulGrows(n * i, interval, rate);
  }

  /** It makes as many subintervals as there are permits and whole 20 ms, and gives
      each the time for its permits, cut to whole milliseconds. */
  lemma SplitIsExact(rate: int, interval: int, subintervals: int)
    requires Splits(rate, interval)
    ensures var s := Recalculated(rate, interval, subintervals);
            && s.interval * rate <= s.rate * interval < (s.interval + 1) * rate
            && s.subintervals <= rate && 20 * s.subintervals <= interval
            && (forall k | k <= rate && 20 * k <= interval :: k <= s.subintervals)
  {
    var s := Recalculated(rate, interval, subintervals);
    SplitBounds(rate, interval, subintervals);
    RecalculatedInterval(rate, interval, subintervals);
    hide Recalculated;
    Scaled(s.rate, interval, 0);
    FloorBounds(s.rate * interval, rate);
  }

  lemma FloorBounds(a: int, b: int)
    requires 0 <= a && 1 <= b
    ensures a / b * b <= a < (a / b + 1) * b
  {
  }

  lemma Product(r: int, n: int)
    requires 1 <= r && 1 <= n
    ensures n <= r * n
  {
    assert 0 <= (r - 1) * n;
  }

  lemma Associate(a: int, b: int, c: int)
    ensures a * (b * c) == (a * b) * c == c * (b * a)
  {
  }

  /** The aim of at least 20 ms is met exactly when what is left over takes no
      more than what the interval has beyond whole subintervals; for the second
      that a limiter splits, exactly when the subintervals divide the rate. */
  lemma AimMetExactlyWhen(rate: int, interval: int, subintervals: int)
    requires Splits(rate, interval)
    ensures var s, n := Recalculated(rate, interval, subintervals), Subintervals(rate, interval);
            && (20 <= s.interval <==> 20 * (rate % n) <= rate / n * (interval % 20))
            && (interval % 20 == 0 ==> (20 <= s.interval <==> rate % n == 0))
  {
    SplitBounds(rate, interval, subintervals);
    var s, n, m := Recalculated(rate, interval, subintervals), interval / 20, interval % 20;
    RecalculatedInterval(rate, interval, subintervals);
    hide Recalculated;
    Scaled(s.rate, interval, 0);
    QuotientAtLeast(s.rate * interval, rate, 20);
    if s.subintervals == n {
      assert s.rate * interval == 20 * (s.rate * n) + s.rate * m by {
        assert interval == 20 * n + m;
        Distribute(s.rate, n, m);
      }
    } else {
      Scaled(20, n, rate);
      Scaled(s.rate, m, 0);
    }
  }

  lemma RecalculatedInterval(rate: int, interval: int, subintervals: int)
    requires Splits(rate, interval)
    ensures var s := Recalculated(rate, interval, subintervals);
            && s.rate == rate / Subintervals(rate, interval) && s.leftover == rate % Subintervals(rate, interval)
            && s.subintervals == Subintervals(rate, interval)
            && s.interval == s.rate * interval / rate
            && (s.subintervals == interval / 20 || (rate < interval / 20 && s.rate == 1 && s.leftover == 0))
  {
  }

  lemma Distribute(a: int, n: int, m: int)
    ensures a * (20 * n + m) == 20 * (a * n) + a * m
  {
  }

  // ---- One cycle of wake-ups ----

  /** Where the limiter is in its cycle. */
  datatype Progress = Progress(released: int, leftover: int)

  /** What one wake-up does, and how many permits it tries to hand out. */
  function WokenUp(s: Split, c: Progress): (Progress, int)
    requires 1 <= s.rate
  {
    if c.released < s.subintervals then
      if 0 < c.leftover then
        var step := c.leftover / s.rate + 1;
        (Progress(c.released + 1, c.leftover - step), s.rate + step)
      else
        (Progress(c.released + 1, c.leftover), s.rate)
    else
      (Progress(0, s.leftover), s.rate)
  }

  /** After so many wake-ups from the start of a cycle: the progress, and the
      permits tried in all. */
  function WakeUps(s: Split, k: nat): (Progress, int)
    requires 1 <= s.rate
  {
    if k == 0 then (Progress(0, s.leftover), 0) else
      var (c, total) := WakeUps(s, k - 1);
      var (d, attempts) := WokenUp(s, c);
      (d, total + attempts)
  }

  /** A cycle tries one more round than the subintervals, and a permit more when
      it hands out single permits and has any left over. */
  function Surplus(s: Split): int {
    s.rate + if s.rate == 1 && 0 < s.leftover then 1 else 0
  }

  /** Within the cycle the leftover falls by at least one at every wake-up until
      it is used up, and all of it is handed out. */
  lemma {:induction false} PartialCycle(s: Split, k: nat)
    requires 1 <= s.rate && 0 <= s.leftover && k <= s.subintervals
    ensures var (c, total) := WakeUps(s, k);
            && c.released == k
            && total == k * s.rate + (s.leftover - c.leftover)
            && (k == 0 || s.leftover == 0 ==> c.leftover == s.leftover)
            && (0 < k && 0 < s.leftover && s.rate == 1 ==> c.leftover == -1)
            && (2 <= s.rate ==> 0 <= c.leftover && (c.leftover == 0 || c.leftover <= s.leftover - k))
  {
    if k != 0 {
      PartialCycle(s, k - 1);
      var (c, total) := WakeUps(s, k - 1);
      assert k * s.rate == (k - 1) * s.rate + s.rate;
      if 0 < c.leftover && 2 <= s.rate {
        StepIsSmall(c.leftover, s.rate);
      }
    }
  }

  lemma StepIsSmall(x: int, r: int)
    requires 1 <= x && 2 <= r
    ensures 1 <= x / r + 1 <= x
  {
    DivMod(x, r);
    Scaled(x / r, r, 2);
  }

  /** Every full cycle starts afresh, has used up the leftover before it ends,
      and tries the original rate and the surplus. */
  lemma FullCycle(rate: int, interval: int, subintervals: int)
    requires Splits(rate, interval)
    ensures var s := Recalculated(rate, interval, subintervals);
            && 1 <= s.subintervals && 1 <= s.rate
            && WakeUps(s, s.subintervals).0.leftover <= 0
            && WakeUps(s, s.subintervals + 1) == (Progress(0, s.leftover), rate + Surplus(s))
            && rate <= rate + Surplus(s) <= rate + s.rate + 1
  {
    SplitBounds(rate, interval, subintervals);
    var s := Recalculated(rate, interval, subintervals);
    hide Recalculated;
    PartialCycle(s, s.subintervals);
    hide WakeUps;
    LastWakeUp(s);
    assert s.subintervals * s.rate == s.rate * s.subintervals;
  }

  lemma LastWakeUp(s: Split)
    requires 1 <= s.rate && 0 <= s.subintervals && WakeUps(s, s.subintervals).0.released == s.subintervals
    ensures WakeUps(s, s.subintervals + 1) == (Progress(0, s.leftover), WakeUps(s, s.subintervals).1 + s.rate)
  {
  }

  /** Per unit of time, a full cycle stays within the original rate if and only
      if nothing is left over and no time is lost. */
  lemma KeepsRateWhenNothingIsLost(rate: int, interval: int, subintervals: int)
    requires Splits(rate, interval)
    ensures var s := Recalculated(rate, interval, subintervals);
            (rate + Surplus(s)) * interval <= rate * ((s.subintervals + 1) * s.interval) <==>
            s.leftover == 0 && s.rate * interval % rate == 0
  {
    SplitBounds(rate, interval, subintervals);
    RecalculatedInterval(rate, interval, subintervals);
    var s := Recalculated(rate, interval, subintervals);
    hide Recalculated, Subintervals;
    var r, n, l, x := s.rate, s.subintervals, s.leftover, s.rate * interval;
    Scaled(r, interval, 0);
    DivMod(x, rate);
    var m := x % rate;
    SurplusBounds(s);
    hide Surplus;
    assert rate * ((n + 1) * s.interval) == (n + 1) * (x - m) by {
      Associate(rate, n + 1, s.interval);
      Regroup(n + 1, s.interval, rate);
    }
    assert (n + 1) * x == (rate - l + r) * interval by { Expand(r, n, interval); }
    Differences(rate, Surplus(s), l, r, interval, n + 1, x, m);
    NothingLost(l + Surplus(s) - r, interval, n + 1, m);
  }

  lemma SurplusBounds(s: Split)
    ensures s.rate <= Surplus(s) && (s.leftover == 0 ==> Surplus(s) == s.rate)
  {
  }

  lemma NothingLost(k: int, interval: int, n: int, m: int)
    requires 0 <= k && 1 <= interval && 1 <= n && 0 <= m
    ensures k * interval + n * m <= 0 <==> k == 0 && m == 0
  {
    Scaled(k, interval, 1);
    Scaled(m, n, 1);
  }

  lemma Regroup(a: int, b: int, c: int)
    ensures a * (b * c) == c * (a * b)
  {
  }

  lemma Expand(r: int, n: int, i: int)
    ensures (n + 1) * (r * i) == (r * n + r) * i
  {
  }

  lemma Differences(rate: int, surplus: int, l: int, r: int, i: int, n: int, x: int, m: int)
    requires n * x == (rate - l + r) * i
    ensures (rate + surplus) * i - n * (x - m) == (l + surplus - r) * i + n * m
  {
  }

  /** Per unit of time, a full cycle stays within the original rate if and only
      if the number of subintervals divides both the rate and the interval. */
  lemma KeepsRateExactlyWhenEven(rate: int, interval: int, subintervals: int)
    requires Splits(rate, interval)
    ensures var s, n := Recalculated(rate, interval, subintervals), Subintervals(rate, interval);
            (rate + Surplus(s)) * interval <= rate * ((s.subintervals + 1) * s.interval) <==>
            rate % n == 0 && interval % n == 0
  {
    SplitBounds(rate, interval, subintervals);
    KeepsRateWhenNothingIsLost(rate, interval, subintervals);
    RecalculatedInterval(rate, interval, subintervals);
    var s, n := Recalculated(rate, interval, subintervals), Subintervals(rate, interval);
    hide Recalculated, Surplus;
    if s.leftover == 0 {
      CommonFactor(s.rate, interval, n);
    }
  }

  /** A factor common to dividend and divisor does not matter for divisibility. */
  lemma CommonFactor(r: int, x: int, n: int)
    requires 1 <= r && 0 <= x && 1 <= n
    ensures 1 <= r * n && (r * x % (r * n) == 0 <==> x % n == 0)
  {
    Product(r, n);
    var q, m := x / n, x % n;
    assert x == q * n + m;
    assert r * x == q * (r * n) + r * m by { Spread(r, q, n, m); }
    assert 0 <= r * m < r * n by { Scaled(r, m, 0); Scaled(r, n, m + 1); }
    QuotientIs(r * x, r * n, q, r * m);
    assert r * m == 0 <==> m == 0 by { if 1 <= m { Product(r, m); } }
  }

  lemma Spread(r: int, q: int, n: int, m: int)
    ensures r * (q * n + m) == q * (r * n) + r * m
  {
  }

  lemma QuotientIs(x: int, d: int, q: int, m: int)
    requires 0 <= x && 1 <= d && x == q * d + m && 0 <= m < d
    ensures x % d == m
  {
    DivMod(x, d);
    MulGrows(q + 1, x / d, d);
    MulGrows(x / d + 1, q, d);
  }

  /** A rate of 75 per second is cut into 50 subintervals of 13 ms, below the 20
      that it aims for, and hands out 77 permits in 663 ms. */
  lemma SeventyFivePerSecond()
    ensures Recalculated(75, 1000, 0) == Split(1, 25, 13, 50)
    ensures 75 + Surplus(Recalculated(75, 1000, 0)) == 77
    ensures 77 * 1000 > 75 * (51 * 13)
  {
  }

  // ---- The limiter itself ----

  class Limiter {
    var rate: int
    var interval: int
    var subintervals: int
    var released: int
    var leftoverRate: int
    var leftoverRateOriginal: int

    constructor ()
      ensures rate == 0 && subintervals == 0 && AsProgress() == Progress(0, 0) && leftoverRateOriginal == 0
    {
      rate, interval, subintervals, released, leftoverRate, leftoverRateOriginal := 0, 0, 0, 0, 0, 0;
    }

    function AsSplit(): Split
      reads this
    {
      Split(rate, leftoverRateOriginal, interval, subintervals)
    }

    function AsProgress(): Progress
      reads this
    {
      Progress(released, leftoverRate)
    }

    method Recalculate(rate: int, interval: int) returns (newRate: int, leftover: int, newInterval: int)
      requires 1 <= rate
      modifies this`subintervals
      ensures Split(newRate, leftover, newInterval, subintervals) == Recalculated(rate, interval, old(subintervals))
    {
      newRate, leftover, newInterval := rate, 0, interval;
      if rate > 1 && interval >= 20 {
        subintervals := Subintervals(rate, interval);
        newRate := rate / subintervals;
        leftover := rate % subintervals;
        newInterval := newRate * interval / rate;
      }
    }

    /** A new capacity starts a new cycle. A negative one means no limit, zero
        blocks, and a small one becomes single permits at longer intervals. */
    method Update(capacity: real)
      modifies this
      ensures AsProgress() == Progress(0, leftoverRateOriginal)
      ensures capacity < 0.0 ==> AsSplit() == Split(-1, 0, old(interval), old(subintervals))
      ensures capacity == 0.0 ==> AsSplit() == Split(0, 0, old(interval), old(subintervals))
      ensures 0.0 < capacity <= 10.0 ==> AsSplit() == Split(1, 0, (1000.0 / capacity).Floor, old(subintervals))
      ensures 10.0 < capacity ==> AsSplit() == Recalculated(capacity.Floor, 1000, old(subintervals))
    {
      leftoverRateOriginal := 0;
      if capacity < 0.0 {
        rate := -1;
      } else if capacity == 0.0 {
        rate := 0;
      } else if capacity <= 10.0 {
        rate, leftoverRateOriginal, interval := Recalculate(1, (1000.0 / capacity).Floor);
      } else {
        rate, leftoverRateOriginal, interval := Recalculate(capacity.Floor, 1000);
      }
      released, leftoverRate := 0, leftoverRateOriginal;
    }

    /** The timer fires only while there is a positive rate. */
    method WakeUp() returns (attempts: int)
      requires 1 <= rate
      modifies this`released, this`leftoverRate
      ensures (AsProgress(), attempts) == WokenUp(AsSplit(), old(AsProgress()))
      ensures var extra := attempts - rate;
              if old(released) < subintervals then
                && released == old(released) + 1 && leftoverRate == old(leftoverRate) - extra
                && (if old(leftoverRate) <= 0 then extra == 0
                    else (extra - 1) * rate <= old(leftoverRate) < extra * rate)
              else
                released == 0 && leftoverRate == leftoverRateOriginal && extra == 0
    {
      attempts := rate;
      if released < subintervals {
        if leftoverRate > 0 {
          DivMod(leftoverRate, rate);
          var step := leftoverRate / rate + 1;
          attempts := attempts + step;
          leftoverRate := leftoverRate - step;
        }
        released := released + 1;
      } else {
        released := 0;
        leftoverRate := leftoverRateOriginal;
      }
    }
  }
}
