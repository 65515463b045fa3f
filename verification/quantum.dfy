/** How a token bucket finds a quantum and a fill interval for a rate. */
module QuantumSearch {
  import opened Arithmetic
  import opened TokenBucket

  /** Rates may be off by one percent. */
  const RATE_MARGIN := 0.01

  /** The search gives up at 2 to the power of 50. */
  const LAST_QUANTUM := 0x4_0000_0000_0000

  function NextQuantum(q: int): (next: int)
    requires 1 <= q
    ensures q < next && if q < 10 then next == q + 1 else 10 * next <= 11 * q < 10 * next + 10
  {
    var q1 := q * 11 / 10;
    if q1 == q then q1 + 1 else q1
  }

  /** The quanta in the order in which the search visits them. */
  function Visited(k: nat): (q: int)
    ensures 1 <= q
  {
    if k == 0 then 1 else NextQuantum(Visited(k - 1))
  }

  function FillInterval(timeRange: int, rate: real, quantum: int): int
    requires 0.0 < rate
  {
    Truncate(timeRange as real / rate * quantum as real)
  }

  function RateOf(timeRange: int, quantum: int, fillInterval: int): real
    requires fillInterval != 0
  {
    timeRange as real * quantum as real / fillInterval as real
  }

  function Abs(x: real): real {
    if x < 0.0 then -x else x
  }

  /** The rate that quantum and interval yield is near enough to the one asked for. */
  predicate WithinMargin(timeRange: int, rate: real, quantum: int, fillInterval: int)
    requires 0.0 < rate && 0 < fillInterval
  {
    Abs(RateOf(timeRange, quantum, fillInterval) - rate) / rate <= RATE_MARGIN
  }

  predicate Suits(timeRange: int, rate: real, quantum: int)
    requires 0.0 < rate
  {
    var f := FillInterval(timeRange, rate, quantum);
    0 < f && WithinMargin(timeRange, rate, quantum, f)
  }

  /** The interval is cut to whole nanoseconds, and quantum per interval is within
      one percent of the rate per time range. */
  predicate IsNearRate(timeRange: int, rate: real, quantum: int, fillInterval: int) {
    var given := timeRange as real * quantum as real;
    && fillInterval as real * rate <= given < (fillInterval as real + 1.0) * rate
    && 0.99 * (fillInterval as real * rate) <= given <= 1.01 * (fillInterval as real * rate)
  }

  lemma NearRate(timeRange: int, rate: real, quantum: int, f: int)
    requires 0.0 < rate && 0 < f
    ensures FillInterval(timeRange, rate, quantum) == f && WithinMargin(timeRange, rate, quantum, f) <==>
            IsNearRate(timeRange, rate, quantum, f)
  {
    IntervalIsCut(timeRange, rate, quantum, f);
    MarginIsOnePercent(timeRange, rate, quantum, f);
    hide FillInterval, WithinMargin;
  }

  lemma SuitsExactlyWhen(timeRange: int, rate: real, quantum: int)
    requires 0.0 < rate
    ensures Suits(timeRange, rate, quantum) <==> exists f: int :: 0 < f && IsNearRate(timeRange, rate, quantum, f)
  {
    var f := FillInterval(timeRange, rate, quantum);
    if 0 < f {
      NearRate(timeRange, rate, quantum, f);
    }
    if g: int :| 0 < g && IsNearRate(timeRange, rate, quantum, g) {
      NearRate(timeRange, rate, quantum, g);
    }
    hide FillInterval, WithinMargin, IsNearRate;
  }

  lemma TruncatesTo(y: real, f: int)
    requires 0 < f
    ensures Truncate(y) == f <==> f as real <= y < f as real + 1.0
  {
  }

  lemma IntervalIsCut(timeRange: int, rate: real, quantum: int, f: int)
    requires 0.0 < rate && 0 < f
    ensures FillInterval(timeRange, rate, quantum) == f <==>
            f as real * rate <= timeRange as real * quantum as real < (f as real + 1.0) * rate
  {
    var t, q, n := timeRange as real, quantum as real, f as real;
    var y := t / rate * q;
    TruncatesTo(y, f);
    assert FillInterval(timeRange, rate, quantum) == Truncate(y);
    hide FillInterval, Truncate;
    TimesBoth(t / rate, rate, t, q);
    CutTimes(y, n, n + 1.0, rate, t * q, n * rate, (n + 1.0) * rate);
  }

  lemma CutTimes(y: real, n: real, m: real, rate: real, given: real, lo: real, hi: real)
    requires 0.0 < rate && y * rate == given && n * rate == lo && m * rate == hi
    ensures n <= y < m <==> lo <= given < hi
  {
    TimesCompare(n, y, rate);
    TimesCompare(m, y, rate);
  }

  lemma TimesBoth(x: real, rate: real, t: real, q: real)
    requires x * rate == t
    ensures x * q * rate == t * q
  {
    assert x * q * rate == x * rate * q by { Rearrange(x, rate, q); }
  }

  lemma MarginIsOnePercent(timeRange: int, rate: real, quantum: int, f: int)
    requires 0.0 < rate && 0 < f
    ensures WithinMargin(timeRange, rate, quantum, f) <==>
            0.99 * (f as real * rate) <= timeRange as real * quantum as real <= 1.01 * (f as real * rate)
  {
    var r, n := RateOf(timeRange, quantum, f), f as real;
    assert r * n == timeRange as real * quantum as real;
    assert WithinMargin(timeRange, rate, quantum, f) <==> Abs(r - rate) / rate <= 0.01;
    hide RateOf, WithinMargin, Abs;
    MarginTimes(r, rate, n);
  }

  lemma TimesCompare(a: real, b: real, c: real)
    requires 0.0 < c
    ensures a <= b <==> a * c <= b * c
  {
    assert (b - a) * c == b * c - a * c;
    assert a <= b ==> 0.0 <= (b - a) * c;
    assert b < a ==> (b - a) * c < 0.0;
  }

  lemma MarginTimes(r: real, rate: real, n: real)
    requires 0.0 < rate && 0.0 < n
    ensures Abs(r - rate) / rate <= 0.01 <==> 0.99 * (n * rate) <= r * n <= 1.01 * (n * rate)
  {
    var m := Abs(r - rate) / rate;
    assert m * rate == Abs(r - rate);
    TimesCompare(m, 0.01, rate);
    TimesCompare(0.99 * rate, r, n);
    TimesCompare(r, 1.01 * rate, n);
  }

  predicate RangeIsLong(timeRange: int, rate: real) {
    100.0 * rate <= timeRange as real * 0x2_0000_0000_0000 as real
  }

  /** A fill interval of at least 100 is precise enough. */
  lemma LongIntervalSuits(timeRange: int, rate: real, quantum: int)
    requires 0.0 < rate && 1 <= quantum && 100.0 <= timeRange as real / rate * quantum as real
    ensures Suits(timeRange, rate, quantum)
  {
    var x := timeRange as real / rate * quantum as real;
    var f := FillInterval(timeRange, rate, quantum) as real;
    assert 100.0 <= f <= x < f + 1.0;
    var r := RateOf(timeRange, quantum, FillInterval(timeRange, rate, quantum));
    assert timeRange as real / rate * rate == timeRange as real;
    assert timeRange as real * quantum as real == x * rate by {
      Rearrange(timeRange as real / rate, quantum as real, rate);
    }
    RateError(r, rate, x, f);
  }

  lemma Rearrange(a: real, b: real, c: real)
    ensures a * c * b == a * b * c
  {
  }

  lemma RateError(r: real, rate: real, x: real, f: real)
    requires 0.0 < rate && 100.0 <= f <= x < f + 1.0 && r == x * rate / f
    ensures Abs(r - rate) / rate <= 0.01
  {
    var e := (x - f) / f;
    assert e * f == x - f;
    assert 0.0 <= e;
    assert e <= 0.01 by {
      assert (0.01 - e) * f == 0.01 * f - (x - f);
      assert 0.0 <= (0.01 - e) * f;
    }
    assert r * f == x * rate;
    assert (r - rate) * f == e * f * rate;
    assert (r - rate - e * rate) * f == 0.0;
    assert r - rate == e * rate;
    assert 0.0 <= e * rate;
    assert e * rate / rate == e;
  }

  /** The last quantum that the search visits suits any rate for which the time
      range is long enough. */
  lemma LastQuantumSuits(timeRange: int, rate: real, quantum: int)
    requires 0.0 < rate && RangeIsLong(timeRange, rate)
    requires 1 <= quantum < LAST_QUANTUM <= NextQuantum(quantum)
    ensures Suits(timeRange, rate, quantum)
  {
    assert 0x2_0000_0000_0000 <= quantum;
    var y := timeRange as real / rate;
    assert y * rate == timeRange as real;
    TimeRangeCovers(y, rate, quantum as real, 0x2_0000_0000_0000 as real);
    LongIntervalSuits(timeRange, rate, quantum);
  }

  lemma TimeRangeCovers(y: real, rate: real, q: real, n: real)
    requires 0.0 < rate && 0.0 < n <= q && 100.0 * rate <= y * rate * n
    ensures 100.0 <= y * q
  {
    assert (y * n - 100.0) * rate >= 0.0 by { Rearrange(y, n, rate); }
    assert y * n >= 100.0;
    assert y > 0.0;
    assert y * (q - n) >= 0.0;
  }

  /** The search ends with the first visited quantum that suits, if there is one
      before the limit; and there is one whenever the time range is long enough
      for the rate. */
  method FindQuantum(timeRange: int, rate: real)
    returns (found: bool, quantum: int, fillInterval: int, ghost steps: nat)
    requires 0.0 < rate
    ensures quantum == Visited(steps)
    ensures forall j: nat | j < steps :: Visited(j) < LAST_QUANTUM && !Suits(timeRange, rate, Visited(j))
    ensures found <==> quantum < 0x4_0000_0000_0000
    ensures found ==>
              && fillInterval == FillInterval(timeRange, rate, quantum) && 0 < fillInterval
              && WithinMargin(timeRange, rate, quantum, fillInterval)
    ensures RangeIsLong(timeRange, rate) ==> found
  {
    hide Suits, FillInterval, RangeIsLong;
    quantum, fillInterval, steps := 1, 1, 0;
    while quantum < LAST_QUANTUM
      invariant quantum == Visited(steps)
      invariant forall j: nat | j < steps :: Visited(j) < LAST_QUANTUM && !Suits(timeRange, rate, Visited(j))
      decreases LAST_QUANTUM - quantum
    {
      var f := Truncate(timeRange as real / rate * quantum as real);
      SuitsMeans(timeRange, rate, quantum, f);
      if 0 < f {
        fillInterval := f;
        if Abs(RateOf(timeRange, quantum, f) - rate) / rate <= RATE_MARGIN {
          return true, quantum, fillInterval, steps;
        }
      }
      quantum, steps := NextQuantum(quantum), steps + 1;
    }
    if RangeIsLong(timeRange, rate) {
      LastQuantumSuits(timeRange, rate, Visited(steps - 1));
      assert false;
    }
    found := false;
  }

  lemma SuitsMeans(timeRange: int, rate: real, quantum: int, f: int)
    requires 0.0 < rate && f == Truncate(timeRange as real / rate * quantum as real)
    ensures f == FillInterval(timeRange, rate, quantum)
    ensures Suits(timeRange, rate, quantum) <==> 0 < f && WithinMargin(timeRange, rate, quantum, f)
  {
  }

  /** What the constructor yields: a bucket, or a panic for an unusable capacity
      or rate, or for a rate that no quantum suits. At rate zero the relative
      error of every quantum is infinite or undefined, so none is accepted. */
  method NewBucketWithRate(rate: real, capacity: int, timeRange: int, now: int) returns (tb: Bucket?)
    ensures tb != null ==>
            && fresh(tb) && tb.AsLevel() == Level(0, 0)
            && tb.startTime == now && tb.capacity == capacity && tb.timeRange == timeRange
            && ValidSettings(tb.AsSettings())
            && 0.0 < rate && WithinMargin(timeRange, rate, tb.quantum, tb.fillInterval)
            && IsNearRate(timeRange, rate, tb.quantum, tb.fillInterval)
    ensures capacity <= 0 || rate <= 0.0 ==> tb == null
    ensures 0 < capacity && 0.0 < rate && RangeIsLong(timeRange, rate) ==> tb != null
  {
    hide FillInterval, WithinMargin, RangeIsLong, Suits;
    if capacity <= 0 || rate < 0.0 || rate == 0.0 {
      return null;
    }
    var found, quantum, fillInterval, steps := FindQuantum(timeRange, rate);
    if !found {
      return null;
    }
    NearRate(timeRange, rate, quantum, fillInterval);
    tb := new Bucket(capacity, quantum, fillInterval, timeRange, now);
  }
}
