/** The concessionary overtime tax of StatutoryRate in app/models.py: two flat rates around
    a share of the basic salary, rounded once at the end. */
module Overtime {
  import opened Money
  import opened Bonus

  /** The tax before rounding. */
  function Exact(pay: real, cap: real, low: real, high: real): real {
    Times(Min(pay, cap), low) + Times(Max(pay - cap, 0.0), high)
  }

  /** `compute_overtime_tax`, the cap being basic salary x threshold. */
  function OvertimeTax(pay: real, cap: real, low: real, high: real): real {
    if pay <= 0.0 then 0.0 else RoundHalfUp(Exact(pay, cap, low, high))
  }

  lemma ExactMonotone(x: real, y: real, cap: real, low: real, high: real)
    requires 0.0 <= x <= y && 0.0 <= cap && 0.0 <= low && 0.0 <= high
    ensures 0.0 <= Exact(x, cap, low, high) <= Exact(y, cap, low, high)
  {
    TimesBounds(Min(x, cap), Min(y, cap), low);
    TimesBounds(Max(x - cap, 0.0), Max(y - cap, 0.0), high);
    hide Times;
  }

  /** Each cedi of overtime up to the cap is taxed at the low rate, each one above it at the
      high rate. */
  lemma CediByCedi(x: real, y: real, cap: real, low: real, high: real)
    requires 0.0 <= x <= y && 0.0 <= cap
    ensures Exact(0.0, cap, low, high) == 0.0
    ensures y <= cap ==> Exact(y, cap, low, high) - Exact(x, cap, low, high) == low * (y - x)
    ensures cap <= x ==> Exact(y, cap, low, high) - Exact(x, cap, low, high) == high * (y - x)
  {
  }

  /** More overtime never lowers the tax, and the tax is within half a pesewa of the exact
      two-rate sum; no overtime is not taxed. */
  lemma OvertimeMonotone(x: real, y: real, cap: real, low: real, high: real)
    requires x <= y && 0.0 <= cap && 0.0 <= low && 0.0 <= high
    ensures OvertimeTax(x, cap, low, high) <= OvertimeTax(y, cap, low, high)
    ensures y > 0.0 ==> Abs(OvertimeTax(y, cap, low, high) - Exact(y, cap, low, high)) <= 0.005
    ensures y <= 0.0 ==> OvertimeTax(y, cap, low, high) == 0.0
  {
    hide RoundHalfUp, Times;
    if y > 0.0 {
      var before := Max(x, 0.0);
      ExactMonotone(before, y, cap, low, high);
      ExactMonotone(0.0, before, cap, low, high);
      RoundHalfUpLaws(Exact(before, cap, low, high), Exact(y, cap, low, high));
      RoundHalfUpLaws(0.0, Exact(y, cap, low, high));
      RoundHalfUpLaws(Exact(y, cap, low, high), 0.0);
      RoundHalfUpLaws(0.0, 0.0);
      ZeroIsWhole();
    }
  }

  lemma ZeroIsWhole()
    ensures IsPesewas(0.0)
  {
    assert 0.0 * 100.0 == 0.0;
  }

  /** The tax with each portion rounded by itself. */
  function PartByPart(pay: real, cap: real, low: real, high: real): real {
    if pay <= 0.0 then 0.0
    else RoundHalfUp(Times(Min(pay, cap), low)) + RoundHalfUp(Times(Max(pay - cap, 0.0), high))
  }

  /** Rounding the two portions apart would differ by at most a pesewa... */
  lemma PartsWithinPesewa(pay: real, cap: real, low: real, high: real)
    ensures Abs(OvertimeTax(pay, cap, low, high) - PartByPart(pay, cap, low, high)) <= 0.01
  {
    hide RoundHalfUp;
    if pay > 0.0 {
      RoundedApart(Times(Min(pay, cap), low), Times(Max(pay - cap, 0.0), high));
    }
  }

  lemma RoundedApart(a: real, b: real)
    ensures Abs(RoundHalfUp(a + b) - (RoundHalfUp(a) + RoundHalfUp(b))) <= 0.01
  {
    hide RoundHalfUp, IsPesewas;
    RoundHalfUpLaws(a, b);
    RoundHalfUpLaws(b, a);
    RoundHalfUpLaws(a + b, a);
    RoundedIsPesewas(a);
    RoundedIsPesewas(b);
    RoundedIsPesewas(a + b);
    PesewaSum(RoundHalfUp(a), RoundHalfUp(b));
    PesewaSum(RoundHalfUp(a + b), RoundHalfUp(a) + RoundHalfUp(b));
    WholeGap(RoundHalfUp(a + b) - (RoundHalfUp(a) + RoundHalfUp(b)));
  }

  lemma WholeGap(gap: real)
    requires IsPesewas(gap) && -0.015 <= gap <= 0.015
    ensures Abs(gap) <= 0.01
  {
    var n := (gap * 100.0).Floor;
    assert gap * 100.0 == n as real && -1.5 <= n as real <= 1.5;
    assert -1 <= n <= 1;
  }

  /** ...and does: 0.15 of overtime over a cap of 0.10, at 5% and 10%, is taxed one pesewa,
      and two if each portion is rounded. */
  lemma PartsDiffer()
    ensures OvertimeTax(0.15, 0.1, 0.05, 0.1) == 0.01 && PartByPart(0.15, 0.1, 0.05, 0.1) == 0.02
  {
    assert Times(0.1, 0.05) == 0.005 && Times(Max(0.15 - 0.1, 0.0), 0.1) == 0.005;
    assert HalfUp(0.5) == 1 && HalfUp(1.0) == 1;
  }
}
