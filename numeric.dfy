/**
 * Real-number arithmetic with missing values, as pandas and numpy apply it to
 * float columns: NaN propagates through `*` and `+`, `clip` and rounding to a
 * fixed number of decimals. Numbers are exact reals; floating-point error is
 * not modelled.
 */
module Numeric {
  import opened Wrappers

  function Abs(x: real): real { if x < 0.0 then -x else x }
  function Min(x: real, y: real): real { if x <= y then x else y }
  function Max(x: real, y: real): real { if x <= y then y else x }

  /** `x * k` on an entry that may be NaN. */
  function Mul(x: Option<real>, k: real): Option<real> {
    match x
    case None => None
    case Some(v) => Some(v * k)
  }

  /** `x + y` on entries that may be NaN: NaN if either is. */
  function Add(x: Option<real>, y: Option<real>): Option<real> {
    if x.Some? && y.Some? then Some(x.value + y.value) else None
  }

  /** `Series.clip(lo, hi)` on one finite value. */
  function Clip(x: real, lo: real, hi: real): (r: real)
    requires lo <= hi
    ensures lo <= r <= hi
    ensures lo <= x <= hi ==> r == x
    ensures x < lo ==> r == lo
    ensures hi < x ==> r == hi
  {
    if x < lo then lo else if hi < x then hi else x
  }

  /** The integer nearest to `y`, ties to the even neighbour (numpy's `rint`). */
  function RoundHalfEven(y: real): (n: int)
    ensures -0.5 <= n as real - y <= 0.5
    ensures (n as real - y == 0.5 || y - n as real == 0.5) ==> n % 2 == 0
  {
    var f := y.Floor;
    var frac := y - f as real;
    if frac < 0.5 then f
    else if frac > 0.5 then f + 1
    else if f % 2 == 0 then f
    else f + 1
  }

  /** `round(2)` on one value: the nearest multiple of 0.01, ties to even. */
  function Round2(x: real): (r: real)
    ensures -0.005 <= r - x <= 0.005
  {
    RoundHalfEven(x * 100.0) as real / 100.0
  }

  lemma RoundHalfEvenMonotone(y: real, z: real)
    requires y <= z
    ensures RoundHalfEven(y) <= RoundHalfEven(z)
  {
    var fy, fz := y.Floor, z.Floor;
    if fy == fz {
      assert y - fy as real <= z - fz as real;
    } else {
      assert fy < fz;
    }
  }

  /** Rounding never reverses the order of two scores. */
  lemma Round2Monotone(x: real, y: real)
    requires x <= y
    ensures Round2(x) <= Round2(y)
  {
    RoundHalfEvenMonotone(x * 100.0, y * 100.0);
  }

  /** A value that already has two decimals is left as it is. */
  lemma Round2Exact(k: int)
    ensures Round2(k as real / 100.0) == k as real / 100.0
  {
    assert (k as real / 100.0) * 100.0 == k as real;
    assert (k as real).Floor == k;
  }

  /** Rounding keeps a score inside [0, 100], and brings one slightly above 100 back to 100. */
  lemma Round2InRange(x: real)
    requires 0.0 <= x <= 100.004
    ensures 0.0 <= Round2(x) <= 100.0
  {
    Round2Monotone(0.0, x);
    Round2Monotone(x, 100.004);
    Round2Exact(0);
    assert (100.004 * 100.0).Floor == 10000;
  }
}
