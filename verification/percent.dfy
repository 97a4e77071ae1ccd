/** The integer forms of the rounding the backend does with `Math.round` and
    `toFixed(1)`. */
module Percent {

  /** `a <= c` scaled by a positive factor. */
  lemma MulMonotone(a: int, c: int, b: int)
    requires a <= c && b > 0
    ensures a * b <= c * b
  {
    assert c * b - a * b == (c - a) * b;
  }

  /** `Math.round(100 * part / whole)` for a positive `whole`: the integer nearest
      to the exact percentage, a half rounded up. */
  function RoundedPercent(part: int, whole: int): (r: int)
    requires whole > 0
    ensures -whole < 2 * (r * whole - 100 * part) <= whole
    ensures 0 <= part <= whole ==> 0 <= r <= 100
  {
    var n, d := 200 * part + whole, 2 * whole;
    var q := n / d;
    assert n == d * q + n % d && 0 <= n % d < d;
    assert d * q == 2 * (q * whole);
    assert 2 * (q * whole - 100 * part) == whole - n % d;
    BoundedPercent(part, whole, q);
    q
  }

  lemma BoundedPercent(part: int, whole: int, r: int)
    requires whole > 0
    requires -whole < 2 * (r * whole - 100 * part) <= whole
    ensures 0 <= part <= whole ==> 0 <= r <= 100
  {
    if 0 <= part <= whole {
      if r < 0 {
        MulMonotone(r, -1, whole);
      }
      if r > 100 {
        MulMonotone(101, r, whole);
        MulMonotone(part, whole, 100);
      }
    }
  }

  /** The completion rate every handler computes:
      `total > 0 ? Math.round((completed / total) * 100) : 0`. */
  function CompletionRate(total: nat, completed: nat): (r: int)
    ensures total == 0 ==> r == 0
    ensures completed <= total ==> 0 <= r <= 100
    ensures 0 < total && completed == total ==> r == 100
    ensures completed == 0 ==> r == 0
    ensures 0 < total ==> -(total as int) < 2 * (r * total - 100 * completed) <= total
  {
    if total > 0 then
      var r := RoundedPercent(completed, total);
      ExactPercent(completed, total, r);
      r
    else 0
  }

  /** The rounding leaves 0 % and 100 % exact. */
  lemma ExactPercent(part: int, whole: int, r: int)
    requires whole > 0
    requires -whole < 2 * (r * whole - 100 * part) <= whole
    ensures part == 0 ==> r == 0
    ensures part == whole ==> r == 100
  {
    if part == 0 {
      if r >= 1 { MulMonotone(1, r, whole); }
      if r <= -1 { MulMonotone(r, -1, whole); }
    }
    if part == whole {
      if r >= 101 { MulMonotone(101, r, whole); }
      if r <= 99 { MulMonotone(r, 99, whole); }
    }
  }

  /** The integer nearest to `n / d` with a half rounded away from zero, the rule
      `toFixed` applies to the decimal it prints. */
  function RoundHalfAway(n: int, d: int): (r: int)
    requires d > 0
    ensures n >= 0 ==> -d < 2 * (r * d - n) <= d
    ensures n < 0 ==> -d <= 2 * (r * d - n) < d
    ensures n >= 0 ==> r >= 0
    ensures n <= 0 ==> r <= 0
  {
    var m := if n >= 0 then n else -n;
    var q := (2 * m + d) / (2 * d);
    HalfUpQuotient(m, d);
    if n >= 0 then q else
      assert (-q) * d == -(q * d);
      -q
  }

  lemma HalfUpQuotient(m: int, d: int)
    requires m >= 0 && d > 0
    ensures var q := (2 * m + d) / (2 * d); -d < 2 * (q * d - m) <= d && q >= 0
  {
    var q := (2 * m + d) / (2 * d);
    assert 2 * m + d == 2 * d * q + (2 * m + d) % (2 * d);
    assert 2 * d * q == 2 * (q * d);
    if q < 0 {
      MulMonotone(q, -1, d);
    }
  }

  /** `Number((minutes / 60).toFixed(1))` kept in tenths of an hour. */
  function TenthsOfHours(minutes: int): (r: int)
    ensures minutes >= 0 ==> -6 < 2 * (6 * r - minutes) <= 6
    ensures minutes < 0 ==> -6 <= 2 * (6 * r - minutes) < 6
    ensures minutes >= 0 ==> r >= 0
  {
    RoundHalfAway(minutes, 6)
  }

  /** Completing one more session never lowers the completion rate. */
  lemma {:induction false} CompletionRateMonotone(total: nat, c1: nat, c2: nat)
    requires c1 <= c2 <= total
    ensures CompletionRate(total, c1) <= CompletionRate(total, c2)
  {
    if total > 0 {
      var r1, r2 := CompletionRate(total, c1), CompletionRate(total, c2);
      if r1 > r2 {
        MulMonotone(r2 + 1, r1, total);
        MulMonotone(c1, c2, 100);
        assert false;
      }
    }
  }
}
