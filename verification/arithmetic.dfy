/** Arithmetic that several modules share. */
module Arithmetic {

  /** Times and durations are in nanoseconds since the Unix epoch. */
  function Seconds(n: int): int {
    1_000_000_000 * n
  }

  function Min(left: real, right: real): real {
    if left > right then right else left
  }

  function MinInt(left: int, right: int): int {
    if left > right then right else left
  }

  /** Go's integer division by a positive number, towards zero. */
  function TruncDiv(a: int, b: int): int
    requires 0 < b
  {
    if 0 <= a then a / b else -((-a) / b)
  }

  /** Go's conversion of a floating-point number to an integer. */
  function Truncate(x: real): int {
    if 0.0 <= x then x.Floor else -(-x).Floor
  }

  /** What zero divided by zero yields; nothing is known of it. */
  const NOT_A_NUMBER: real

  lemma DivMod(a: int, b: int)
    requires 0 <= a && 1 <= b
    ensures a / b * b + a % b == a && 0 <= a % b < b && 0 <= a / b
    ensures b <= a ==> 1 <= a / b
  {
  }

  lemma Scaled(k: int, x: int, y: int)
    requires 0 <= k && y <= x
    ensures k * y <= k * x
  {
    assert 0 <= k * (x - y);
  }

  lemma MulGrows(a: int, b: int, d: int)
    requires 1 <= d
    ensures a <= b <==> a * d <= b * d
  {
    if a <= b {
      assert 0 <= (b - a) * d;
    } else {
      assert 0 < (a - b) * d;
    }
  }

  lemma QuotientAtLeast(a: int, b: int, k: int)
    requires 0 <= a && 1 <= b
    ensures k <= a / b <==> k * b <= a
  {
    DivMod(a, b);
    MulGrows(k, a / b, b);
    MulGrows(a / b + 1, k, b);
  }

  lemma TimesOrdered(a: real, x: real, y: real)
    requires 0.0 <= a && x <= y
    ensures a * x <= a * y
  {
    assert 0.0 <= a * (y - x);
  }
}
