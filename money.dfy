/** Money is a `real`; the source rounds to cents with `Math.round(x * 100) / 100.0`,
    and `Math.round` is the floor of its argument plus one half. */
module Money {

  /** True when `r` is a whole number of cents. */
  predicate IsCents(r: real) {
    (r * 100.0).Floor as real == r * 100.0
  }

  /** `Math.round(x * 100) / 100.0`: round half up to the nearest cent. */
  function Round2(x: real): (r: real)
    ensures IsCents(r)
    ensures x - 0.005 < r <= x + 0.005
  {
    var k := (x * 100.0 + 0.5).Floor;
    assert (k as real / 100.0) * 100.0 == k as real;
    k as real / 100.0
  }

  /** The result of rounding is never negative when the amount is not. */
  lemma Round2NonNegative(x: real)
    requires x >= 0.0
    ensures Round2(x) >= 0.0
  {
    var k := (x * 100.0 + 0.5).Floor;
    assert k >= 0;
  }

  /** Rounding an amount that is already in whole cents changes nothing. */
  lemma Round2OfCents(x: real)
    requires IsCents(x)
    ensures Round2(x) == x
  {
    var n := (x * 100.0).Floor;
    assert (x * 100.0 + 0.5).Floor == n;
  }

  /** Rounding keeps the order of amounts. */
  lemma Round2Monotone(x: real, y: real)
    requires x <= y
    ensures Round2(x) <= Round2(y)
  {
    assert (x * 100.0 + 0.5).Floor <= (y * 100.0 + 0.5).Floor;
  }

  /** Sums of whole cents are whole cents. */
  lemma CentsAdd(a: real, b: real)
    requires IsCents(a) && IsCents(b)
    ensures IsCents(a + b)
  {
    var m, n := (a * 100.0).Floor, (b * 100.0).Floor;
    assert (a + b) * 100.0 == (m + n) as real;
  }
}
