/** The arithmetic helper of Extensions.kt that the button's geometry rests on. */
module Extensions {

  function Min(a: real, b: real): real { if a <= b then a else b }

  function Max(a: real, b: real): real { if a <= b then b else a }

  /**
   * Linear interpolation from `a` (at `t == 0`) to `b` (at `t == 1`).
   * Real arithmetic stands in for the source's 32-bit floats.
   */
  function Lerp(a: real, b: real, t: real): (r: real)
    ensures t == 0.0 ==> r == a
    ensures t == 1.0 ==> r == b
    ensures a == b ==> r == a
    ensures 0.0 <= t <= 1.0 ==> Min(a, b) <= r <= Max(a, b)
  {
    var d := b - a;
    assert 0.0 <= t <= 1.0 && 0.0 <= d ==> 0.0 <= d * t <= d;
    assert 0.0 <= t <= 1.0 && d <= 0.0 ==> d <= d * t <= 0.0;
    a + d * t
  }

  /** Moving `t` forward moves `Lerp(a, b, t)` towards `b`: up when `a <= b`, down when `b <= a`. */
  lemma LerpMonotone(a: real, b: real, s: real, t: real)
    requires s <= t
    ensures a <= b ==> Lerp(a, b, s) <= Lerp(a, b, t)
    ensures b <= a ==> Lerp(a, b, t) <= Lerp(a, b, s)
  {
    var d := b - a;
    assert d * t - d * s == d * (t - s);
    assert 0.0 <= d ==> 0.0 <= d * (t - s);
    assert d <= 0.0 ==> d * (t - s) <= 0.0;
  }
}
