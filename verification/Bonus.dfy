/** The flat-rate concessions of StatutoryRate in app/models.py: one bonus split
    against the annual cap, and the cap over a whole tax year. */
module Bonus {
  import opened Money

  /** `split_bonus`: (concessionary tax, excess), given the annual cap, which is
      basic salary x 12 x threshold. */
  function SplitBonus(bonus: real, cap: real, rate: real, used: real): (real, real) {
    if bonus <= 0.0 then (0.0, 0.0)
    else
      var remaining := Max(cap - used, 0.0);
      var concession := Min(bonus, remaining);
      var excess := Max(bonus - remaining, 0.0);
      (RoundHalfUp(Times(concession, rate)), RoundHalfUp(excess))
  }

  /** `bonus_concession_used_ytd` after paying the bonuses in order: each run's
      bonus less its stored excess, summed. (The code's round(total, 2) changes
      nothing: SumsArePesewas shows the sum is a whole number of pesewas.) */
  function Used(bonuses: seq<real>, cap: real, rate: real): real {
    if bonuses == [] then 0.0
    else
      var before := bonuses[..|bonuses| - 1];
      var bonus := bonuses[|bonuses| - 1];
      var used := Used(before, cap, rate);
      used + (bonus - SplitBonus(bonus, cap, rate, used).1)
  }

  function Total(bonuses: seq<real>): real {
    if bonuses == [] then 0.0 else Total(bonuses[..|bonuses| - 1]) + bonuses[|bonuses| - 1]
  }

  /** Bonuses in whole pesewas; clawbacks are negative. */
  ghost predicate InPesewas(bonuses: seq<real>) { forall i | 0 <= i < |bonuses| :: IsPesewas(bonuses[i]) }

  predicate NonNegative(bonuses: seq<real>) { forall i | 0 <= i < |bonuses| :: bonuses[i] >= 0.0 }

  /** Nothing is clawed back once the total paid has passed the cap by half a pesewa, which
      for a cap in whole pesewas is once it has passed the cap. */
  predicate NoLateClawback(bonuses: seq<real>, cap: real) {
    forall i | 0 <= i < |bonuses| :: bonuses[i] < 0.0 ==> Total(bonuses[..i]) < cap + 0.005
  }

  lemma WholeInt(y: real, n: int)
    requires y == n as real
    ensures IsWhole(y)
  {
  }

  lemma PesewaSum(x: real, y: real)
    requires IsPesewas(x) && IsPesewas(y)
    ensures IsPesewas(x + y) && IsPesewas(x - y)
  {
    var m, n := (x * 100.0).Floor, (y * 100.0).Floor;
    WholeInt((x + y) * 100.0, m + n);
    WholeInt((x - y) * 100.0, m - n);
  }

  lemma RoundedIsPesewas(x: real)
    ensures IsPesewas(RoundHalfUp(x))
  {
    assert RoundHalfUp(x) * 100.0 == HalfUp(x * 100.0) as real;
  }

  /** A whole bonus less at most half a pesewa rounds back to the bonus. */
  lemma HalfPesewaVanishes(b: real, rem: real)
    requires IsPesewas(b) && b >= 0.01 && 0.0 <= rem <= 0.005
    ensures RoundHalfUp(b - rem) == b
  {
    var m := (b * 100.0).Floor;
    assert (b - rem) * 100.0 == m as real - rem * 100.0;
    assert ((b - rem) * 100.0 + 0.5).Floor == m;
  }

  lemma PositivePesewas(b: real)
    requires IsPesewas(b) && b > 0.0
    ensures b >= 0.01
  {
    assert (b * 100.0).Floor >= 1;
  }

  /** Either nothing has been left over the cap so far, or something has and the cap is
      used up to half a pesewa, the half itself never being exceeded upwards. */
  ghost predicate OnTrack(used: real, total: real, cap: real) {
    || (used == total < cap + 0.005)
    || (cap + 0.005 <= total && used < total && -0.005 <= used - cap < 0.005)
  }

  /** The concession used is the smaller of the total and the cap, to half a pesewa. */
  predicate OnCap(used: real, total: real, cap: real) { Abs(used - Min(total, cap)) <= 0.005 }

  function NextUsed(b: real, cap: real, rate: real, used: real): real {
    used + (b - SplitBonus(b, cap, rate, used).1)
  }

  lemma NextIsPesewas(b: real, cap: real, rate: real, used: real)
    requires IsPesewas(b) && IsPesewas(used)
    ensures IsPesewas(NextUsed(b, cap, rate, used))
  {
    var excess := SplitBonus(b, cap, rate, used).1;
    ZeroIsPesewas();
    RoundedIsPesewas(Max(b - Max(cap - used, 0.0), 0.0));
    assert IsPesewas(excess);
    hide IsPesewas, RoundHalfUp;
    PesewaSum(b, excess);
    PesewaSum(used, b - excess);
  }

  /** Rounding a non-negative excess: nothing below half a pesewa, else within half a
      pesewa, the upper half included. */
  lemma RoundedExcess(x: real)
    requires x >= 0.0
    ensures x < 0.005 ==> RoundHalfUp(x) == 0.0
    ensures x >= 0.005 ==> RoundHalfUp(x) >= 0.01 && -0.005 < RoundHalfUp(x) - x <= 0.005
  {
    var y := x * 100.0;
    assert y + 0.5 - 1.0 < (y + 0.5).Floor as real <= y + 0.5;
  }

  /** A bonus paid while everything has fitted so far. */
  lemma BonusWithinCap(b: real, cap: real, rate: real, used: real)
    requires IsPesewas(b) && b > 0.0 && used < cap + 0.005
    ensures OnTrack(NextUsed(b, cap, rate, used), used + b, cap)
  {
    PositivePesewas(b);
    var rem := Max(cap - used, 0.0);
    RoundedExcess(Max(b - rem, 0.0));
    if rem == 0.0 {
      HalfPesewaVanishes(b, 0.0);
    }
    hide RoundHalfUp, IsPesewas;
  }

  /** A bonus paid once the cap is used up is excess entirely. */
  lemma BonusPastCap(b: real, cap: real, rate: real, used: real, total: real)
    requires IsPesewas(b) && b > 0.0
    requires cap + 0.005 <= total && used < total && -0.005 <= used - cap < 0.005
    ensures OnTrack(NextUsed(b, cap, rate, used), total + b, cap)
  {
    PositivePesewas(b);
    HalfPesewaVanishes(b, Max(cap - used, 0.0));
    hide RoundHalfUp, IsPesewas;
  }

  lemma NegativePesewas(b: real)
    requires IsPesewas(b) && b < 0.0
    ensures b <= -0.01
  {
    assert (b * 100.0).Floor <= -1;
  }

  /** One more bonus: the year stays on track unless it is a clawback past the cap, and then
      the cap is missed. */
  lemma NextBonus(b: real, cap: real, rate: real, used: real, total: real)
    requires IsPesewas(b) && IsPesewas(used) && IsPesewas(total) && OnTrack(used, total, cap)
    ensures b < 0.0 && total >= cap + 0.005 ==> !OnCap(NextUsed(b, cap, rate, used), total + b, cap)
    ensures !(b < 0.0 && total >= cap + 0.005) ==> OnTrack(NextUsed(b, cap, rate, used), total + b, cap)
  {
    if b > 0.0 {
      if used == total < cap + 0.005 {
        BonusWithinCap(b, cap, rate, used);
      } else {
        BonusPastCap(b, cap, rate, used, total);
      }
    } else if b < 0.0 {
      NegativePesewas(b);
      if used < total {
        PesewaSum(total, used);
        PositivePesewas(total - used);
      }
    }
    hide RoundHalfUp, IsPesewas;
  }

  lemma OnTrackIsOnCap(used: real, total: real, cap: real)
    requires OnTrack(used, total, cap)
    ensures OnCap(used, total, cap)
  {
  }

  lemma ZeroIsPesewas()
    ensures IsPesewas(0.0)
  {
    assert 0.0 * 100.0 == 0.0;
  }

  lemma {:induction false} SumsArePesewas(bonuses: seq<real>, cap: real, rate: real)
    requires InPesewas(bonuses)
    ensures IsPesewas(Used(bonuses, cap, rate)) && IsPesewas(Total(bonuses))
  {
    hide IsPesewas, SplitBonus;
    if bonuses == [] {
      ZeroIsPesewas();
    } else {
      var n := |bonuses| - 1;
      var before := bonuses[..n];
      assert IsPesewas(bonuses[n]);
      assert forall i | 0 <= i < n :: before[i] == bonuses[i];
      SumsArePesewas(before, cap, rate);
      NextIsPesewas(bonuses[n], cap, rate, Used(before, cap, rate));
      PesewaSum(Total(before), bonuses[n]);
    }
  }

  /** A year without late clawbacks keeps on track. */
  lemma {:induction false} YearOnTrack(bonuses: seq<real>, cap: real, rate: real)
    requires InPesewas(bonuses) && cap >= 0.0 && NoLateClawback(bonuses, cap)
    ensures OnTrack(Used(bonuses, cap, rate), Total(bonuses), cap)
  {
    hide IsPesewas, SplitBonus;
    if bonuses != [] {
      var n := |bonuses| - 1;
      var before := bonuses[..n];
      assert forall i | 0 <= i < n :: before[i] == bonuses[i] && before[..i] == bonuses[..i];
      YearOnTrack(before, cap, rate);
      SumsArePesewas(before, cap, rate);
      NextBonus(bonuses[n], cap, rate, Used(before, cap, rate), Total(before));
    }
  }

  ghost predicate AlwaysOnCap(bonuses: seq<real>, cap: real, rate: real) {
    forall n | 0 <= n <= |bonuses| :: OnCap(Used(bonuses[..n], cap, rate), Total(bonuses[..n]), cap)
  }

  /** Throughout a year of bonuses and clawbacks the concession used is min(total, cap) to
      half a pesewa exactly if nothing is clawed back once the total has passed the cap. */
  lemma AlwaysOnCapIffNoLateClawback(bonuses: seq<real>, cap: real, rate: real)
    requires InPesewas(bonuses) && cap >= 0.0
    ensures AlwaysOnCap(bonuses, cap, rate) <==> NoLateClawback(bonuses, cap)
  {
    hide IsPesewas, OnCap, Used, Total;
    if NoLateClawback(bonuses, cap) {
      forall n | 0 <= n <= |bonuses| ensures OnCap(Used(bonuses[..n], cap, rate), Total(bonuses[..n]), cap) {
        var part := bonuses[..n];
        assert forall i | 0 <= i < n :: part[i] == bonuses[i] && part[..i] == bonuses[..i];
        YearOnTrack(part, cap, rate);
        OnTrackIsOnCap(Used(part, cap, rate), Total(part), cap);
      }
    } else {
      var i :| 0 <= i < |bonuses| && bonuses[i] < 0.0 && Total(bonuses[..i]) >= cap + 0.005;
      LateClawbackMisses(bonuses, cap, rate, i);
    }
  }

  /** The first late clawback takes the year off the cap. */
  lemma {:induction false} LateClawbackMisses(bonuses: seq<real>, cap: real, rate: real, i: nat)
    requires InPesewas(bonuses) && cap >= 0.0
    requires i < |bonuses| && bonuses[i] < 0.0 && Total(bonuses[..i]) >= cap + 0.005
    ensures !AlwaysOnCap(bonuses, cap, rate)
    decreases i
  {
    hide IsPesewas, OnCap, SplitBonus;
    var before := bonuses[..i];
    if NoLateClawback(before, cap) {
      assert forall j | 0 <= j < i :: before[j] == bonuses[j];
      YearOnTrack(before, cap, rate);
      SumsArePesewas(before, cap, rate);
      NextBonus(bonuses[i], cap, rate, Used(before, cap, rate), Total(before));
      var next := bonuses[..i + 1];
      assert next[..i] == before && next[i] == bonuses[i];
      assert !OnCap(Used(next, cap, rate), Total(next), cap);
    } else {
      var j :| 0 <= j < i && before[j] < 0.0 && Total(before[..j]) >= cap + 0.005;
      assert before[..j] == bonuses[..j];
      LateClawbackMisses(bonuses, cap, rate, j);
    }
  }

  /** Where the cap or the bonuses leave no room for a late clawback. */
  predicate Cappable(bonuses: seq<real>, cap: real) {
    NonNegative(bonuses) || (cap >= 0.0 && NoLateClawback(bonuses, cap))
  }

  lemma CapBelowZero(b: real, cap: real, rate: real, used: real)
    requires used >= 0.0
    ensures NextUsed(b, cap, rate, used) == NextUsed(b, Max(cap, 0.0), rate, used)
  {
  }

  lemma {:induction false} NegativeCapIsZero(bonuses: seq<real>, cap: real, rate: real)
    requires InPesewas(bonuses) && NonNegative(bonuses)
    ensures Used(bonuses, cap, rate) == Used(bonuses, Max(cap, 0.0), rate) >= 0.0
  {
    hide IsPesewas, SplitBonus;
    if bonuses != [] {
      var n := |bonuses| - 1;
      var before := bonuses[..n];
      assert forall i | 0 <= i < n :: before[i] == bonuses[i];
      NegativeCapIsZero(before, cap, rate);
      CapBelowZero(bonuses[n], cap, rate, Used(before, cap, rate));
      NeverGivenBack(bonuses[n], Max(cap, 0.0), rate, Used(before, cap, rate));
    }
  }

  lemma NeverGivenBack(b: real, cap: real, rate: real, used: real)
    requires IsPesewas(b) && b >= 0.0
    ensures NextUsed(b, cap, rate, used) >= used
  {
    if b > 0.0 {
      RoundHalfUpLaws(Max(b - Max(cap - used, 0.0), 0.0), b);
      RoundHalfUpLaws(b, b);
    }
    hide RoundHalfUp;
  }

  /** However a year's bonuses are split over runs, the concession granted is the
      smaller of their total and the annual cap, to half a pesewa. */
  lemma ConcessionIsCapped(bonuses: seq<real>, cap: real, rate: real)
    requires InPesewas(bonuses) && Cappable(bonuses, cap)
    ensures OnCap(Used(bonuses, cap, rate), Total(bonuses), Max(cap, 0.0))
  {
    hide IsPesewas, Used, Total, OnCap;
    if NonNegative(bonuses) {
      NegativeCapIsZero(bonuses, cap, rate);
    }
    YearOnTrack(bonuses, Max(cap, 0.0), rate);
    OnTrackIsOnCap(Used(bonuses, Max(cap, 0.0), rate), Total(bonuses), Max(cap, 0.0));
  }

  /** So two ways of splitting one total differ by at most a pesewa. */
  lemma SplitDoesNotMatter(a: seq<real>, b: seq<real>, cap: real, rate: real)
    requires InPesewas(a) && InPesewas(b) && Cappable(a, cap) && Cappable(b, cap) && Total(a) == Total(b)
    ensures Abs(Used(a, cap, rate) - Used(b, cap, rate)) <= 0.01
  {
    hide IsPesewas, Used, Total, Cappable;
    ConcessionIsCapped(a, cap, rate);
    ConcessionIsCapped(b, cap, rate);
  }

  /** A late clawback gives back concession although the total still exceeds the cap. */
  lemma ClawbackExample(rate: real)
    ensures var bonuses := [20.0, -5.0];
            Used(bonuses, 10.0, rate) == 5.0 && Min(Total(bonuses), 10.0) == 10.0
  {
    var bonuses := [20.0, -5.0];
    assert bonuses[..1] == [20.0] && [20.0][..0] == [];
    RoundsTo(10.0, 1000);
    assert Used([20.0], 10.0, rate) == 10.0;
    assert Total([20.0]) == 20.0;
  }

  // ------------------------------------------------------------------ the tax on it

  /** c is as much of the bonus as the cap, of which `used` is gone, has room for. */
  predicate Conceded(c: real, bonus: real, cap: real, used: real) {
    && 0.0 <= c <= bonus
    && (c == 0.0 || used + c <= cap)
    && (c == bonus || used + c >= cap)
  }

  /** A bonus is taxed at the rate as far as there is room under the cap, and the rest is
      excess; both are in whole pesewas, half a pesewa off at most. */
  lemma BonusIsSplit(bonus: real, cap: real, rate: real, used: real)
    ensures var (tax, excess) := SplitBonus(bonus, cap, rate, used);
      && (bonus <= 0.0 ==> tax == 0.0 && excess == 0.0)
      && (bonus > 0.0 ==> exists c :: Conceded(c, bonus, cap, used)
                            && Abs(tax - Times(c, rate)) <= 0.005 && Abs(excess - (bonus - c)) <= 0.005)
      && IsPesewas(tax) && IsPesewas(excess)
  {
    hide RoundHalfUp, IsPesewas, Times;
    var remaining := Max(cap - used, 0.0);
    var c, rest := Min(bonus, remaining), Max(bonus - remaining, 0.0);
    ZeroIsPesewas();
    RoundedIsPesewas(Times(c, rate));
    RoundedIsPesewas(rest);
    RoundHalfUpLaws(Times(c, rate), 0.0);
    RoundHalfUpLaws(rest, 0.0);
    if bonus > 0.0 {
      var (tax, excess) := SplitBonus(bonus, cap, rate, used);
      assert tax == RoundHalfUp(Times(c, rate)) && excess == RoundHalfUp(rest) && rest == bonus - c;
      assert Conceded(c, bonus, cap, used);
      assert Abs(tax - Times(c, rate)) <= 0.005 && Abs(excess - (bonus - c)) <= 0.005;
    }
  }

  /** The concessionary tax of a year's bonuses. */
  function TaxPaid(bonuses: seq<real>, cap: real, rate: real): real {
    if bonuses == [] then 0.0
    else
      var before, bonus := bonuses[..|bonuses| - 1], bonuses[|bonuses| - 1];
      TaxPaid(before, cap, rate) + SplitBonus(bonus, cap, rate, Used(before, cap, rate)).0
  }

  /** What the negative bonuses take back. */
  function TakenBack(bonuses: seq<real>): real {
    if bonuses == [] then 0.0
    else TakenBack(bonuses[..|bonuses| - 1]) + Max(-bonuses[|bonuses| - 1], 0.0)
  }

  /** Over any year the tax is the rate on the concession granted, to half a pesewa on each
      tax and each concession. A clawback reduces the concession used, but refunds no tax. */
  lemma {:induction false} TaxIsRateOfConcession(bonuses: seq<real>, cap: real, rate: real)
    requires rate >= 0.0
    ensures Abs(TaxPaid(bonuses, cap, rate) - Times(rate, Used(bonuses, cap, rate) + TakenBack(bonuses)))
         <= Times(0.005 + Times(rate, 0.005), |bonuses| as real)
  {
    hide SplitBonus, Times;
    if bonuses == [] {
      TimesZero(rate, 0.005 + Times(rate, 0.005));
    } else {
      var before, bonus := bonuses[..|bonuses| - 1], bonuses[|bonuses| - 1];
      TaxIsRateOfConcession(before, cap, rate);
      var used := Used(before, cap, rate);
      OneTax(bonus, cap, rate, used);
      var granted := NextUsed(bonus, cap, rate, used) - used + Max(-bonus, 0.0);
      TimesPlus(rate, used + TakenBack(before), granted);
      assert used + TakenBack(before) + granted == Used(bonuses, cap, rate) + TakenBack(bonuses);
      OneMore(0.005 + Times(rate, 0.005), |before|);
    }
  }

  lemma TimesZero(a: real, b: real)
    ensures Times(a, 0.0) == 0.0 && Times(b, 0.0) == 0.0
  {
  }

  lemma OneMore(w: real, n: nat)
    ensures Times(w, (n + 1) as real) == Times(w, n as real) + w
  {
  }

  lemma OneTax(bonus: real, cap: real, rate: real, used: real)
    requires rate >= 0.0
    ensures var granted := NextUsed(bonus, cap, rate, used) - used + Max(-bonus, 0.0);
      Abs(SplitBonus(bonus, cap, rate, used).0 - Times(rate, granted)) <= 0.005 + Times(rate, 0.005)
  {
    hide SplitBonus, Times;
    BonusIsSplit(bonus, cap, rate, used);
    var (tax, excess) := SplitBonus(bonus, cap, rate, used);
    if bonus <= 0.0 {
      TimesZero(rate, rate);
      TimesNonNegative(rate, 0.005);
    } else {
      var c :| Conceded(c, bonus, cap, used)
               && Abs(tax - Times(c, rate)) <= 0.005 && Abs(excess - (bonus - c)) <= 0.005;
      NearProducts(rate, c, bonus - excess);
    }
  }

  lemma TimesNonNegative(a: real, b: real)
    requires a >= 0.0 && b >= 0.0
    ensures Times(a, b) >= 0.0
  {
  }

  lemma NearProducts(rate: real, c: real, d: real)
    requires rate >= 0.0 && Abs(c - d) <= 0.005
    ensures Abs(Times(c, rate) - Times(rate, d)) <= Times(rate, 0.005)
  {
    assert Times(c, rate) - Times(rate, d) == rate * (c - d);
    if c >= d {
      TimesNonNegative(rate, 0.005 - (c - d));
      TimesNonNegative(rate, c - d);
      assert rate * 0.005 == rate * (0.005 - (c - d)) + rate * (c - d);
    } else {
      TimesNonNegative(rate, 0.005 - (d - c));
      TimesNonNegative(rate, d - c);
      assert rate * 0.005 == rate * (0.005 - (d - c)) + rate * (d - c);
      assert rate * (c - d) == -(rate * (d - c));
    }
  }
}
