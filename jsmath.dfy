/// Integer arithmetic the application performs with JavaScript numbers.
module JsMath {

  /** Cancelling a positive factor from a strict inequality. */
  lemma {:induction false} CancelLess(c: int, x: int, y: int)
    requires c > 0 && c * x < c * y
    ensures x < y
  {
    if x >= y {
      assert c * x - c * y == c * (x - y);
      MulNonNegative(c, x - y);
    }
  }

  lemma {:induction false} MulNonNegative(a: int, b: int)
    requires a >= 0 && b >= 0
    ensures a * b >= 0
    decreases a
  {
    if a > 0 {
      MulNonNegative(a - 1, b);
      assert a * b == (a - 1) * b + b;
    }
  }

  /** `Math.round(num / den)` for a positive denominator: the nearest
      integer, halves rounded up (towards +infinity, as `Math.round` does). */
  function RoundRatio(num: int, den: int): (r: int)
    requires den > 0
    ensures 2 * den * r <= 2 * num + den < 2 * den * (r + 1)
  {
    (2 * num + den) / (2 * den)
  }

  /** The rounding is unique: any integer within half a unit of the ratio is it. */
  lemma {:induction false} RoundRatioUnique(num: int, den: int, k: int)
    requires den > 0
    requires 2 * den * k <= 2 * num + den < 2 * den * (k + 1)
    ensures RoundRatio(num, den) == k
  {
    var r := RoundRatio(num, den);
    assert (2 * den) * r < (2 * den) * (k + 1);
    CancelLess(2 * den, r, k + 1);
    assert (2 * den) * k < (2 * den) * (r + 1);
    CancelLess(2 * den, k, r + 1);
  }

  /** `total > 0 ? Math.round(part / total * 100) : 0`, the accuracy and
      percentage formula used throughout the application. */
  function Percent(part: int, total: int): (r: int)
    ensures total <= 0 ==> r == 0
  {
    if total > 0 then RoundRatio(100 * part, total) else 0
  }

  /** A percentage of a part between nothing and the whole lies in 0..100;
      nothing gives 0 and the whole gives 100. */
  lemma {:induction false} PercentBounds(part: int, total: int)
    requires 0 <= part <= total
    ensures 0 <= Percent(part, total) <= 100
    ensures part == 0 ==> Percent(part, total) == 0
    ensures 0 < part == total ==> Percent(part, total) == 100
  {
    if total > 0 {
      var r := Percent(part, total);
      assert (2 * total) * 0 < (2 * total) * (r + 1);
      CancelLess(2 * total, 0, r + 1);
      assert (2 * total) * r < (2 * total) * 101;
      CancelLess(2 * total, r, 101);
      if part == 0 {
        RoundRatioUnique(0, total, 0);
      }
      if part == total {
        RoundRatioUnique(100 * total, total, 100);
      }
    }
  }

  /** JavaScript's `a % b`: the remainder of truncating division, with the
      sign of the dividend. */
  function JsRem(a: int, b: int): (r: int)
    requires b != 0
    ensures a >= 0 ==> 0 <= r < (if b > 0 then b else -b)
    ensures a < 0 ==> -(if b > 0 then b else -b) < r <= 0
  {
    var m := if b > 0 then b else -b;
    if a >= 0 then a % m else -((-a) % m)
  }
}
