/** Exact arithmetic, and its conversion to whole nanoseconds. */
module Reals {
  const INT64_MIN: int := -0x8000_0000_0000_0000
  const INT64_MAX: int := 0x7fff_ffff_ffff_ffff

  /** Products get a name so that a proof can treat them as atoms. */
  function Times(x: real, y: real): real {
    x * y
  }

  lemma TimesNonNegative(x: real, y: real)
    requires x >= 0.0 && y >= 0.0
    ensures Times(x, y) >= 0.0
  {
  }

  function Abs(x: real): real {
    if x >= 0.0 then x else -x
  }

  function Max(x: real, y: real): real {
    if x >= y then x else y
  }

  /** Conversion to an integer drops the fraction, towards zero. */
  function Truncate(x: real): int {
    if x >= 0.0 then x.Floor else -(-x).Floor
  }

  lemma FloorMonotone(x: real, y: real)
    requires x <= y
    ensures x.Floor <= y.Floor
  {
    assert x.Floor as real <= x && y < (y.Floor + 1) as real;
  }

  lemma TruncateMonotone(x: real, y: real)
    requires x <= y
    ensures Truncate(x) <= Truncate(y)
  {
    if x >= 0.0 {
      FloorMonotone(x, y);
    } else if y < 0.0 {
      FloorMonotone(-y, -x);
    }
  }

  lemma TruncateWhole(n: int)
    ensures Truncate(n as real) == n
  {
  }

  /** Truncation keeps the sign and loses less than one unit. */
  lemma TruncateBounds(x: real)
    ensures x >= 0.0 ==> 0.0 <= Truncate(x) as real <= x < Truncate(x) as real + 1.0
    ensures x <= 0.0 ==> Truncate(x) as real - 1.0 < x <= Truncate(x) as real <= 0.0
  {
  }
}
