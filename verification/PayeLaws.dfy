/** What the PAYE engine promises: the stored bands reproduce the marginal-slice
    tax to the pesewa, the tax is monotone to the pesewa, and the bands do not
    depend on the order or the round trip of the editor's rows. */
module PayeLaws {
  import opened Money
  import opened Paye

  // ------------------------------------------------- the tax, and its reference

  /** The formula of one stored band, before rounding. */
  function TaxAt(b: Band, x: real): real { Times(x - b.over, b.rate) + b.base }

  /** `compute_paye`: the first band, from the top, that starts at or below x. */
  function ComputePaye(bands: seq<Band>, x: real): real {
    if bands == [] then 0.0
    else if x >= bands[0].over then RoundHalfUp(TaxAt(bands[0], x))
    else ComputePaye(bands[1..], x)
  }

  /** Income falling in slice i of ascending slices. */
  function Overlap(s: seq<Slice>, i: nat, x: real): real
    requires i < |s|
  {
    if x <= s[i].over then 0.0
    else if i + 1 < |s| && x >= s[i + 1].over then s[i + 1].over - s[i].over
    else x - s[i].over
  }

  /** The marginal-slice tax, slice by slice and unrounded, from slice i up. */
  function MarginalFrom(s: seq<Slice>, i: nat, x: real): real
    requires i <= |s|
    decreases |s| - i
  {
    if i == |s| then 0.0 else Times(Overlap(s, i, x), s[i].rate) + MarginalFrom(s, i + 1, x)
  }

  function MarginalTax(s: seq<Slice>, x: real): real { MarginalFrom(s, 0, x) }

  /** The highest slice starting at or below x; |s| when there is none. */
  function BandOf(s: seq<Slice>, x: real): (k: nat)
    ensures k <= |s|
    ensures k < |s| ==> s[k].over <= x && forall j | k < j < |s| :: x < s[j].over
    ensures k == |s| ==> forall j | 0 <= j < |s| :: x < s[j].over
  {
    ScanDown(s, x, |s|)
  }

  lemma BandOfIs(s: seq<Slice>, x: real, k: nat)
    requires Ascending(s) && k < |s| && s[k].over <= x && (k + 1 < |s| ==> x < s[k + 1].over)
    ensures BandOf(s, x) == k
  {
    hide ScanDown;
  }

  function ScanDown(s: seq<Slice>, x: real, m: nat): (k: nat)
    requires m <= |s| && forall j | m <= j < |s| :: x < s[j].over
    ensures k <= |s|
    ensures k < |s| ==> s[k].over <= x && forall j | k < j < |s| :: x < s[j].over
    ensures k == |s| ==> forall j | 0 <= j < |s| :: x < s[j].over
  {
    if m == 0 then |s| else if s[m - 1].over <= x then m - 1 else ScanDown(s, x, m - 1)
  }

  // ------------------------------------------------------------- what is stored

  ghost predicate Good(s: seq<Slice>) { s != [] && Ascending(s) && Rated(s) }

  lemma SlicesFacts(rows: seq<Row>)
    requires Accepted(rows)
    ensures |Slices(rows)| == |rows| && Good(Slices(rows))
    ensures Bands(rows) == StoredBands(Slices(rows))
    ensures forall i | 0 <= i < |Slices(rows)| ::
              exists j :: 0 <= j < |rows| && ValidRow(rows[j]) && Slices(rows)[i] == Clean(rows[j])
  {
    var c := CleanAll(rows);
    var s := SortSlices(c);
    SortedSlicesFacts(c, seq(|s|, i requires 0 <= i < |s| => s[i].over));
    forall i | 0 <= i < |s|
      ensures exists j :: 0 <= j < |rows| && ValidRow(rows[j]) && s[i] == Clean(rows[j])
    {
      assert s[i] in multiset(c);
      var j :| 0 <= j < |c| && c[j] == s[i];
      assert ValidRow(rows[j]) && s[i] == Clean(rows[j]);
    }
  }

  lemma StoredSane(s: seq<Slice>, i: nat)
    requires Good(s) && i < |s|
    ensures Base(s, i) >= 0.0 && Stored(s, i).base >= 0.0 && 0.0 <= Stored(s, i).rate <= 1.0
  {
    BaseNonNegative(s, i);
    PyRound2NonNegative(Base(s, i));
    PyRound6Fraction(s[i].rate);
  }

  lemma {:induction false} BaseNonNegative(s: seq<Slice>, i: nat)
    requires Good(s) && i < |s|
    ensures Base(s, i) >= 0.0
  {
    if i > 0 {
      BaseNonNegative(s, i - 1);
      TimesBounds(s[i].over - s[i - 1].over, s[i].over - s[i - 1].over, s[i - 1].rate);
    }
  }

  /** compute_paye uses the band of x, and is 0 below the lowest threshold. */
  lemma {:induction false} PayeUsesBand(s: seq<Slice>, x: real)
    requires Ascending(s)
    ensures BandOf(s, x) == |s| ==> ComputePaye(StoredBands(s), x) == 0.0
    ensures BandOf(s, x) < |s| ==>
              ComputePaye(StoredBands(s), x) == RoundHalfUp(TaxAt(Stored(s, BandOf(s, x)), x))
  {
    var k := BandOf(s, x);
    ScanFinds(StoredBands(s), x, if k == |s| then |s| else |s| - 1 - k);
  }

  lemma {:induction false} ScanFinds(bands: seq<Band>, x: real, i: nat)
    requires i <= |bands|
    requires forall j | 0 <= j < i :: x < bands[j].over
    requires i < |bands| ==> bands[i].over <= x
    ensures ComputePaye(bands, x) == if i == |bands| then 0.0 else RoundHalfUp(TaxAt(bands[i], x))
  {
    if i > 0 {
      ScanFinds(bands[1..], x, i - 1);
    }
  }

  /** The band formula with the unrounded base and rate is the marginal tax. */
  lemma BaseIsMarginal(s: seq<Slice>, x: real)
    requires Ascending(s)
    ensures BandOf(s, x) == |s| ==> MarginalTax(s, x) == 0.0
    ensures var k := BandOf(s, x);
      k < |s| ==> MarginalTax(s, x) == Base(s, k) + Times(x - s[k].over, s[k].rate)
  {
    var k := BandOf(s, x);
    if k == |s| {
      NoneAbove(s, 0, x);
    } else {
      FullBelow(s, k, x);
      NoneAbove(s, k + 1, x);
      assert x == s[k].over ==> Times(x - s[k].over, s[k].rate) == 0.0 == Times(0.0, s[k].rate);
    }
  }

  lemma {:induction false} FullBelow(s: seq<Slice>, k: nat, x: real)
    requires Ascending(s) && k < |s| && s[k].over <= x
    ensures MarginalTax(s, x) == Base(s, k) + MarginalFrom(s, k, x)
  {
    if k > 0 {
      assert s[k - 1].over < s[k].over;
      FullBelow(s, k - 1, x);
    }
  }

  lemma {:induction false} NoneAbove(s: seq<Slice>, i: nat, x: real)
    requires i <= |s| && forall j | i <= j < |s| :: x < s[j].over
    ensures MarginalFrom(s, i, x) == 0.0
    decreases |s| - i
  {
    if i < |s| {
      NoneAbove(s, i + 1, x);
    }
  }

  // ------------------------------------------------------------------- accuracy

  /** What rounding a rate to six places changes. */
  function Drift(s: seq<Slice>, k: nat): real
    requires k < |s|
  {
    PyRound(s[k].rate, MICRO) - s[k].rate
  }

  /** The cost of that rounding at income x: the drift over the width of x's slice. */
  function RateError(s: seq<Slice>, x: real): real {
    var k := BandOf(s, x);
    if k == |s| then 0.0 else Times(x - s[k].over, Abs(Drift(s, k)))
  }

  /** The code's tax is the marginal tax, plus the drift of the rounded rate over
      the width of the slice, plus half a pesewa each from the base and the result. */
  lemma CodeError(s: seq<Slice>, x: real) returns (p: real, e: real, r: real)
    requires Ascending(s) && BandOf(s, x) < |s|
    ensures p == Times(x - s[BandOf(s, x)].over, Drift(s, BandOf(s, x)))
    ensures -0.005 <= e <= 0.005 && -0.005 <= r <= 0.005
    ensures TaxAt(Stored(s, BandOf(s, x)), x) == MarginalTax(s, x) + p + e
    ensures ComputePaye(StoredBands(s), x) == MarginalTax(s, x) + p + e + r
  {
    hide Times, PyRound, RoundHalfUp, ComputePaye, MarginalTax, Base;
    var k := BandOf(s, x);
    PayeUsesBand(s, x);
    BaseIsMarginal(s, x);
    e := BaseError(s, k);
    r := ResultError(TaxAt(Stored(s, k), x));
    p := Times(x - s[k].over, Drift(s, k));
    TimesPlus(x - s[k].over, s[k].rate, Drift(s, k));
    assert Stored(s, k).rate == s[k].rate + Drift(s, k);
  }

  lemma BaseError(s: seq<Slice>, k: nat) returns (e: real)
    requires k < |s|
    ensures -0.005 <= e <= 0.005 && Stored(s, k).base == Base(s, k) + e
  {
    e := PyRound(Base(s, k), 100.0) - Base(s, k);
    PyRoundNear(Base(s, k), 100.0);
  }

  lemma ResultError(raw: real) returns (r: real)
    ensures -0.005 <= r <= 0.005 && RoundHalfUp(raw) == raw + r
  {
    r := RoundHalfUp(raw) - raw;
    RoundHalfUpLaws(raw, 0.0);
  }

  /** For every accepted row list and every income, the error does not grow with
      the number of bands: one pesewa, plus the rate rounding on one slice. */
  lemma PayeErrorBound(rows: seq<Row>, x: real)
    requires Accepted(rows)
    ensures Abs(ComputePaye(Bands(rows), x) - MarginalTax(Slices(rows), x))
         <= PESEWA + RateError(Slices(rows), x)
  {
    hide Times, PyRound, ComputePaye, MarginalTax, Slices, Bands, Drift;
    var s := Slices(rows);
    SlicesFacts(rows);
    if BandOf(s, x) == |s| {
      PayeUsesBand(s, x);
      BaseIsMarginal(s, x);
    } else {
      var p, e, r := CodeError(s, x);
      TimesAbs(x - s[BandOf(s, x)].over, Drift(s, BandOf(s, x)));
    }
  }

  /** A percent with at most four decimals. */
  ghost predicate FourDecimals(row: Row) {
    row.percent.Fin? && IsWhole(row.percent.v * TENTHOU)
  }

  ghost predicate ShortPercents(rows: seq<Row>) {
    forall i | 0 <= i < |rows| :: FourDecimals(rows[i])
  }

  ghost predicate ExactRates(s: seq<Slice>) {
    forall i | 0 <= i < |s| :: Drift(s, i) == 0.0
  }

  lemma ShortPercentsExact(rows: seq<Row>)
    requires Accepted(rows) && ShortPercents(rows)
    ensures ExactRates(Slices(rows))
  {
    var s := Slices(rows);
    SlicesFacts(rows);
    forall i | 0 <= i < |s| ensures Drift(s, i) == 0.0 {
      var j :| 0 <= j < |rows| && ValidRow(rows[j]) && s[i] == Clean(rows[j]);
      assert FourDecimals(rows[j]);
      assert s[i].rate * MICRO == rows[j].percent.v * TENTHOU;
      PyRoundNear(s[i].rate, MICRO);
    }
  }

  lemma NoDriftNoError(s: seq<Slice>, x: real)
    requires ExactRates(s)
    ensures RateError(s, x) == 0.0
    ensures BandOf(s, x) < |s| ==> Times(x - s[BandOf(s, x)].over, Drift(s, BandOf(s, x))) == 0.0
  {
  }

  /** With percents of at most four decimals the computed PAYE is within one
      pesewa of the true marginal-slice tax, at every income. */
  lemma PayeAccurate(rows: seq<Row>, x: real)
    requires Accepted(rows) && ShortPercents(rows)
    ensures Abs(ComputePaye(Bands(rows), x) - MarginalTax(Slices(rows), x)) <= PESEWA
  {
    PayeErrorBound(rows, x);
    ShortPercentsExact(rows);
    NoDriftNoError(Slices(rows), x);
  }

  ghost predicate ErrorWithin(rows: seq<Row>, c: real)
    requires Accepted(rows)
  {
    forall x: real :: Abs(ComputePaye(Bands(rows), x) - MarginalTax(Slices(rows), x)) <= c
  }

  ghost predicate TopRateExact(rows: seq<Row>)
    requires Accepted(rows)
  {
    var s := Slices(rows);
    s != [] && Drift(s, |s| - 1) == 0.0
  }

  /** Longer percents break that bound, without limit: the error over all incomes
      is bounded exactly when the top band's rate survives rounding to six places. */
  lemma ErrorBoundedIffTopRateExact(rows: seq<Row>)
    requires Accepted(rows)
    ensures (exists c: real :: ErrorWithin(rows, c)) <==> TopRateExact(rows)
  {
    hide Times, PyRound, ComputePaye, MarginalTax, Slices, Bands, Drift, RateError;
    SlicesFacts(rows);
    var s := Slices(rows);
    var top := |s| - 1;
    if TopRateExact(rows) {
      forall x: real ensures Abs(ComputePaye(Bands(rows), x) - MarginalTax(s, x)) <= PESEWA + s[top].over {
        PayeErrorBound(rows, x);
        RateErrorBelowTop(s, x);
      }
      assert ErrorWithin(rows, PESEWA + s[top].over);
    } else {
      forall c: real ensures !ErrorWithin(rows, c) {
        DriftOutgrows(rows, c);
      }
    }
  }

  lemma DriftOutgrows(rows: seq<Row>, c: real)
    requires Accepted(rows) && !TopRateExact(rows)
    ensures !ErrorWithin(rows, c)
  {
    hide Times, PyRound, ComputePaye, MarginalTax, Slices, Bands, Drift;
    SlicesFacts(rows);
    var s := Slices(rows);
    var w := FarEnough(Drift(s, |s| - 1), c);
    var x := s[|s| - 1].over + w;
    assert BandOf(s, x) == |s| - 1;
    var p, e, r := CodeError(s, x);
    assert Abs(ComputePaye(Bands(rows), x) - MarginalTax(s, x)) > c;
  }

  /** A width at which a nonzero drift outgrows c. */
  lemma FarEnough(d: real, c: real) returns (w: real)
    requires d != 0.0
    ensures w >= 0.0 && Abs(Times(w, d)) > c + PESEWA
  {
    w := (Max(c, 0.0) + 0.02) / Abs(d);
    assert w * Abs(d) == Max(c, 0.0) + 0.02;
    NonNegativeQuotient(Max(c, 0.0) + 0.02, Abs(d));
    TimesAbs(w, d);
  }

  lemma NonNegativeQuotient(a: real, b: real)
    requires a >= 0.0 && b > 0.0
    ensures a / b >= 0.0
  {
  }

  lemma RateErrorBelowTop(s: seq<Slice>, x: real)
    requires Good(s) && Drift(s, |s| - 1) == 0.0
    ensures RateError(s, x) <= s[|s| - 1].over
  {
    hide PyRound, Times;
    var k := BandOf(s, x);
    if k < |s| - 1 {
      PyRoundNear(s[k].rate, MICRO);
      assert s[k].over >= 0.0;
      TimesBounds(x - s[k].over, x - s[k].over, Abs(Drift(s, k)));
    } else if k == |s| - 1 {
      assert s[k].over >= 0.0;
      TimesPlus(x - s[k].over, 0.0, 0.0);
    }
  }

  // --------------------------------------------------------------- monotonicity

  lemma {:induction false} MarginalLaws(s: seq<Slice>, i: nat, x: real, y: real)
    requires Ascending(s) && Rated(s) && i <= |s| && x <= y
    ensures 0.0 <= MarginalFrom(s, i, x) <= MarginalFrom(s, i, y)
    ensures MarginalFrom(s, i, x) <= if i < |s| && x > s[i].over then x - s[i].over else 0.0
    decreases |s| - i
  {
    hide Times;
    if i < |s| {
      MarginalLaws(s, i + 1, x, y);
      assert i + 1 < |s| ==> s[i].over < s[i + 1].over;
      TimesBounds(Overlap(s, i, x), Overlap(s, i, y), s[i].rate);
    }
  }

  lemma PayeNonNegative(s: seq<Slice>, x: real)
    requires Good(s)
    ensures ComputePaye(StoredBands(s), x) >= 0.0
    ensures BandOf(s, x) < |s| ==> TaxAt(Stored(s, BandOf(s, x)), x) >= 0.0
  {
    hide Times, PyRound, RoundHalfUp, ComputePaye;
    PayeUsesBand(s, x);
    var k := BandOf(s, x);
    if k < |s| {
      StoredSane(s, k);
      TimesBounds(x - s[k].over, x - s[k].over, Stored(s, k).rate);
      ZeroRounds(TaxAt(Stored(s, k), x));
    }
  }

  lemma ZeroRounds(x: real)
    requires x >= 0.0
    ensures RoundHalfUp(x) >= 0.0
  {
    RoundHalfUpLaws(0.0, x);
  }

  lemma RoundsWithinPesewa(x: real, y: real)
    requires x <= y + 0.01 && y >= 0.0
    ensures RoundHalfUp(x) <= RoundHalfUp(y) + PESEWA
  {
    hide RoundHalfUp;
    RoundHalfUpLaws(x, y + 0.01);
    RoundHalfUpLaws(y, y);
  }

  /** More income never lowers the tax by more than a pesewa, and the tax is never
      negative nor more than a pesewa above the income itself. */
  lemma PayeAlmostMonotone(rows: seq<Row>, x: real, y: real)
    requires Accepted(rows) && ShortPercents(rows) && 0.0 <= x <= y
    ensures ComputePaye(Bands(rows), x) <= ComputePaye(Bands(rows), y) + PESEWA
    ensures 0.0 <= ComputePaye(Bands(rows), x) <= x + PESEWA
  {
    hide Times, PyRound, RoundHalfUp, ComputePaye, Slices, Bands, Drift, TaxAt;
    var s := Slices(rows);
    SlicesFacts(rows);
    ShortPercentsExact(rows);
    PayeNonNegative(s, x);
    PayeNonNegative(s, y);
    PayeUsesBand(s, x);
    PayeUsesBand(s, y);
    MarginalLaws(s, 0, x, y);
    assert s[0].over >= 0.0;
    if BandOf(s, x) < |s| {
      var px, ex, rx := CodeError(s, x);
      var py, ey, ry := CodeError(s, y);
      NoDriftNoError(s, x);
      NoDriftNoError(s, y);
      RoundsWithinPesewa(TaxAt(Stored(s, BandOf(s, x)), x), TaxAt(Stored(s, BandOf(s, y)), y));
    }
  }

  /** When every base is a whole number of pesewas the tax is monotone outright. */
  lemma PayeMonotoneOnExactBases(rows: seq<Row>, x: real, y: real)
    requires Accepted(rows) && ShortPercents(rows) && x <= y
    requires forall i | 0 <= i < |Slices(rows)| :: IsPesewas(Base(Slices(rows), i))
    ensures ComputePaye(Bands(rows), x) <= ComputePaye(Bands(rows), y)
  {
    hide Times, RoundHalfUp, ComputePaye, Slices, Bands, MarginalTax;
    var s := Slices(rows);
    SlicesFacts(rows);
    ShortPercentsExact(rows);
    PayeNonNegative(s, y);
    PayeUsesBand(s, x);
    PayeUsesBand(s, y);
    if BandOf(s, x) < |s| {
      ExactBand(s, x);
      ExactBand(s, y);
      MarginalMonotone(s, x, y);
      RoundHalfUpLaws(MarginalTax(s, x), MarginalTax(s, y));
    }
  }

  lemma MarginalMonotone(s: seq<Slice>, x: real, y: real)
    requires Good(s) && x <= y
    ensures MarginalTax(s, x) <= MarginalTax(s, y)
  {
    MarginalLaws(s, 0, x, y);
  }

  lemma ExactBand(s: seq<Slice>, x: real)
    requires Ascending(s) && ExactRates(s) && BandOf(s, x) < |s|
    requires IsPesewas(Base(s, BandOf(s, x)))
    ensures TaxAt(Stored(s, BandOf(s, x)), x) == MarginalTax(s, x)
  {
    hide Times, PyRound;
    var k := BandOf(s, x);
    BaseIsMarginal(s, x);
    PyRoundNear(Base(s, k), 100.0);
    assert Drift(s, k) == 0.0;
  }

  // ------------------------------------------ exactly when the tax never drops

  /** The highest tax, in pesewas, charged inside a band of width w before the
      next threshold is reached. */
  ghost function PesewasBelow(b: Band, w: real): int {
    var edge := 100.0 * (Times(w, b.rate) + b.base);
    if b.rate == 0.0 then HalfUp(100.0 * b.base)
    else if IsWhole(edge - 0.5) then HalfUp(edge) - 1
    else HalfUp(edge)
  }

  /** Band i does not start below the highest tax charged in the band under it. */
  ghost predicate NoDropAt(s: seq<Slice>, i: nat)
    requires 0 < i < |s|
  {
    PesewasBelow(Stored(s, i - 1), s[i].over - s[i - 1].over) as real <= 100.0 * Stored(s, i).base
  }

  ghost predicate NoDrop(s: seq<Slice>) { forall i | 0 < i < |s| :: NoDropAt(s, i) }

  ghost predicate TaxMonotone(s: seq<Slice>) {
    forall x: real, y: real :: x <= y ==> ComputePaye(StoredBands(s), x) <= ComputePaye(StoredBands(s), y)
  }

  lemma BelowBound(b: Band, w: real, x: real)
    requires b.rate >= 0.0 && b.base >= 0.0 && b.over <= x < b.over + w
    ensures HalfUp(100.0 * TaxAt(b, x)) <= PesewasBelow(b, w)
  {
    var edge := 100.0 * (Times(w, b.rate) + b.base);
    var v := 100.0 * TaxAt(b, x);
    if b.rate == 0.0 {
      assert v == 100.0 * b.base;
    } else {
      StrictTimes(x - b.over, w, b.rate);
      assert 0.0 <= v < edge;
      HalfUpBelow(v, edge);
    }
  }

  lemma StrictTimes(a: real, w: real, r: real)
    requires 0.0 <= a < w && r > 0.0
    ensures 0.0 <= Times(a, r) < Times(w, r)
  {
    assert (w - a) * r > 0.0;
  }

  lemma HalfUpBelow(v: real, edge: real)
    requires 0.0 <= v < edge
    ensures HalfUp(v) <= if IsWhole(edge - 0.5) then HalfUp(edge) - 1 else HalfUp(edge)
  {
    HalfUpMonotone(v, edge);
    if IsWhole(edge - 0.5) {
      assert (edge + 0.5).Floor as real == edge + 0.5 by {
        assert ((edge - 0.5).Floor + 1) as real == edge + 0.5;
      }
    }
  }

  lemma HalfUpAtLeast(v: real, n: int)
    requires v >= 0.0 && v >= n as real - 0.5
    ensures HalfUp(v) >= n
  {
  }

  /** That highest tax is charged somewhere in the band. */
  lemma BelowReached(b: Band, w: real) returns (x: real)
    requires b.rate >= 0.0 && b.base >= 0.0 && w > 0.0
    ensures b.over <= x < b.over + w
    ensures HalfUp(100.0 * TaxAt(b, x)) >= PesewasBelow(b, w)
  {
    if b.rate == 0.0 {
      x := b.over;
    } else {
      var edge := 100.0 * (Times(w, b.rate) + b.base);
      var n := PesewasBelow(b, w);
      StrictTimes(0.0, w, b.rate);
      TieBelow(edge);
      var v := Max(b.base, (n as real - 0.5) / 100.0);
      assert 100.0 * v < edge;
      x := b.over + (v - b.base) / b.rate;
      assert Times(x - b.over, b.rate) == v - b.base;
      QuotientBetween(x - b.over, w, b.rate);
      HalfUpAtLeast(100.0 * TaxAt(b, x), n);
    }
  }

  lemma TieBelow(edge: real)
    requires edge >= 0.0
    ensures (if IsWhole(edge - 0.5) then HalfUp(edge) - 1 else HalfUp(edge)) as real - 0.5 < edge
  {
    HalfUpNear(edge);
    var h := (edge + 0.5).Floor;
    assert h as real <= edge + 0.5;
    if h as real == edge + 0.5 {
      assert (edge - 0.5).Floor == h - 1;
    }
  }

  lemma QuotientBetween(q: real, w: real, r: real)
    requires r > 0.0 && 0.0 <= Times(q, r) < Times(w, r)
    ensures 0.0 <= q < w
  {
    assert (w - q) * r > 0.0;
  }

  lemma BaseIsPesewas(s: seq<Slice>, i: nat)
    requires i < |s|
    ensures IsPesewas(Stored(s, i).base)
  {
    PyRoundNear(Base(s, i), 100.0);
  }

  lemma StepUp(s: seq<Slice>, i: nat, x: real)
    requires Good(s) && 0 < i < |s| && NoDropAt(s, i) && s[i - 1].over <= x < s[i].over
    ensures HalfUp(100.0 * TaxAt(Stored(s, i - 1), x)) as real <= 100.0 * Stored(s, i).base
  {
    hide Times, PyRound, HalfUp, PesewasBelow, Base, TaxAt;
    StoredSane(s, i - 1);
    BelowBound(Stored(s, i - 1), s[i].over - s[i - 1].over, x);
  }

  /** Under NoDrop, bases only rise, and stay above everything charged before. */
  lemma {:induction false} BasesRise(s: seq<Slice>, k: nat, m: nat, x: real)
    requires Good(s) && NoDrop(s) && k < m < |s| && s[k].over <= x < s[k + 1].over
    ensures HalfUp(100.0 * TaxAt(Stored(s, k), x)) as real <= 100.0 * Stored(s, m).base
    decreases m
  {
    hide Stored, HalfUp, TaxAt, NoDropAt;
    assert NoDropAt(s, m);
    if k == m - 1 {
      StepUp(s, m, x);
    } else {
      BasesRise(s, k, m - 1, x);
      StepUp(s, m, s[m - 1].over);
      AtStart(s, m - 1);
    }
  }

  /** At its own threshold a band charges exactly its base. */
  lemma AtStart(s: seq<Slice>, i: nat)
    requires Good(s) && i < |s|
    ensures HalfUp(100.0 * TaxAt(Stored(s, i), s[i].over)) as real == 100.0 * Stored(s, i).base
  {
    hide PyRound;
    BaseIsPesewas(s, i);
    HalfUpNear(100.0 * Stored(s, i).base);
    assert TaxAt(Stored(s, i), s[i].over) == Stored(s, i).base;
  }

  lemma AtLeastBase(s: seq<Slice>, i: nat, y: real)
    requires Good(s) && i < |s| && y >= s[i].over
    ensures HalfUp(100.0 * TaxAt(Stored(s, i), y)) as real >= 100.0 * Stored(s, i).base
  {
    hide PyRound, HalfUp, Times;
    StoredSane(s, i);
    TimesBounds(0.0, y - s[i].over, Stored(s, i).rate);
    TimesBounds(0.0, 0.0, Stored(s, i).rate);
    AtStart(s, i);
    HalfUpMonotone(100.0 * TaxAt(Stored(s, i), s[i].over), 100.0 * TaxAt(Stored(s, i), y));
  }

  lemma WithinBandMonotone(s: seq<Slice>, i: nat, x: real, y: real)
    requires Good(s) && i < |s| && s[i].over <= x <= y
    ensures RoundHalfUp(TaxAt(Stored(s, i), x)) <= RoundHalfUp(TaxAt(Stored(s, i), y))
  {
    hide PyRound, RoundHalfUp, Times;
    StoredSane(s, i);
    TimesBounds(x - s[i].over, y - s[i].over, Stored(s, i).rate);
    RoundHalfUpLaws(TaxAt(Stored(s, i), x), TaxAt(Stored(s, i), y));
  }

  lemma InPesewas(x: real)
    ensures RoundHalfUp(x) == HalfUp(100.0 * x) as real / 100.0
  {
    assert 100.0 * x == x * 100.0;
  }

  /** The computed tax never drops as income rises exactly when no band starts
      below the highest tax charged in the band under it. */
  lemma MonotoneIffNoDrop(rows: seq<Row>)
    requires Accepted(rows)
    ensures TaxMonotone(Slices(rows)) <==> NoDrop(Slices(rows))
  {
    var s := Slices(rows);
    SlicesFacts(rows);
    if NoDrop(s) {
      forall x: real, y: real | x <= y
        ensures ComputePaye(StoredBands(s), x) <= ComputePaye(StoredBands(s), y)
      {
        NoDropOrders(s, x, y);
      }
    } else {
      DropWitness(s);
    }
  }

  lemma NoDropOrders(s: seq<Slice>, x: real, y: real)
    requires Good(s) && NoDrop(s) && x <= y
    ensures ComputePaye(StoredBands(s), x) <= ComputePaye(StoredBands(s), y)
  {
    hide ComputePaye, TaxAt, RoundHalfUp, NoDrop, HalfUp, PyRound;
    var k, m := BandOf(s, x), BandOf(s, y);
    PayeUsesBand(s, x);
    PayeUsesBand(s, y);
    PayeNonNegative(s, y);
    if k < |s| {
      if k == m {
        WithinBandMonotone(s, k, x, y);
      } else {
        BasesRise(s, k, m, x);
        AtLeastBase(s, m, y);
        InPesewas(TaxAt(Stored(s, k), x));
        InPesewas(TaxAt(Stored(s, m), y));
      }
    }
  }

  lemma DropWitness(s: seq<Slice>)
    requires Good(s) && !NoDrop(s)
    ensures !TaxMonotone(s)
  {
    hide NoDropAt;
    var i :| 0 < i < |s| && !NoDropAt(s, i);
    var x := DropAt(s, i);
    assert ComputePaye(StoredBands(s), x) > ComputePaye(StoredBands(s), s[i].over);
  }

  lemma DropAt(s: seq<Slice>, i: nat) returns (x: real)
    requires Good(s) && 0 < i < |s| && !NoDropAt(s, i)
    ensures x < s[i].over
    ensures ComputePaye(StoredBands(s), x) > ComputePaye(StoredBands(s), s[i].over)
  {
    hide ComputePaye, TaxAt, RoundHalfUp, HalfUp, PesewasBelow, PyRound, Base, Times;
    StoredSane(s, i - 1);
    assert s[i - 1].over < s[i].over;
    x := BelowReached(Stored(s, i - 1), s[i].over - s[i - 1].over);
    BandStarts(s, i, x);
    PayeUsesBand(s, x);
    PayeUsesBand(s, s[i].over);
    AtStart(s, i);
    InPesewas(TaxAt(Stored(s, i - 1), x));
    InPesewas(TaxAt(Stored(s, i), s[i].over));
  }

  lemma BandStarts(s: seq<Slice>, i: nat, x: real)
    requires Ascending(s) && 0 < i < |s| && s[i - 1].over <= x < s[i].over
    ensures BandOf(s, x) == i - 1 && BandOf(s, s[i].over) == i
  {
  }
}
