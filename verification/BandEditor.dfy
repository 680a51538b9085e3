/** The band editor of app/statutory.py: what it shows for stored bands, and how
    that relates to what was typed. */
module BandEditor {
  import opened Outcomes
  import opened Money
  import opened Paye
  import opened PayeLaws
  import Sorting

  predicate BandLower(a: Band, b: Band) { a.over <= b.over }

  function DisplayRow(b: Band): Row {
    Row(Fin(b.over), Fin(PyRound(b.rate * 100.0, TENTHOU)))
  }

  /** `_band_rows_for_display`: lowest band first, rate in percent to four places.
      The base column is shown but never read back. */
  function DisplayRows(bands: seq<Band>): (rows: seq<Row>)
    ensures |rows| == |bands|
  {
    var sorted := Sorting.Sort(BandLower, bands);
    seq(|sorted|, i requires 0 <= i < |sorted| => DisplayRow(sorted[i]))
  }

  /** The editor shows a row for each band, lowest first, its rate to four decimals of a
      percent. */
  lemma ShownRows(bands: seq<Band>, i: nat)
    requires i < |bands|
    ensures var row := DisplayRows(bands)[i];
      && row.over.Fin? && row.percent.Fin?
      && (exists b :: b in bands && row.over.v == b.over && Abs(row.percent.v - b.rate * 100.0) <= 0.00005)
      && IsWhole(row.percent.v * 10000.0)
      && forall j :: i < j < |bands| ==> DisplayRows(bands)[j].over.Fin? && row.over.v <= DisplayRows(bands)[j].over.v
  {
    hide PyRound, IsWhole, HalfEven;
    BandOrder();
    Sorting.SortSorts(BandLower, bands);
    var sorted := Sorting.Sort(BandLower, bands);
    assert sorted[i] in multiset(sorted);
    ShownPercent(sorted[i].rate);
    hide Sorting.Sort;
  }

  lemma ShownPercent(rate: real)
    ensures Abs(PyRound(rate * 100.0, TENTHOU) - rate * 100.0) <= 0.00005
    ensures IsWhole(PyRound(rate * 100.0, TENTHOU) * 10000.0)
  {
    hide PyRound, HalfEven;
    PyRoundNear(rate * 100.0, TENTHOU);
    WholeInt(PyRound(rate * 100.0, TENTHOU) * TENTHOU, HalfEven(rate * 100.0 * TENTHOU));
  }

  lemma BandOrder()
    ensures Sorting.TotalPreorder(BandLower)
  {
  }

  lemma WholeInt(y: real, n: int)
    requires y == n as real
    ensures IsWhole(y)
  {
  }

  // ------------------------------------------------------------------ row order

  lemma CleanPermutes(a: seq<Row>, b: seq<Row>)
    requires multiset(a) == multiset(b) && forall r | r in a :: ValidRow(r)
    ensures forall r | r in b :: ValidRow(r)
    ensures multiset(CleanAll(a)) == multiset(CleanAll(b))
  {
    forall r | r in b ensures ValidRow(r) {
      assert r in multiset(a);
    }
    var clean := (r: Row) => if ValidRow(r) then Clean(r) else Slice(0.0, 0.0);
    Sorting.MapPermutes(clean, a, b);
    assert CleanAll(a) == Sorting.Map(clean, a) && CleanAll(b) == Sorting.Map(clean, b);
  }

  /** The bands do not depend on the order the rows are typed in. */
  lemma BandsIgnoreOrder(a: seq<Row>, b: seq<Row>)
    requires multiset(a) == multiset(b) && Accepted(a)
    ensures Accepted(b) && Bands(b) == Bands(a)
  {
    CleanPermutes(a, b);
    SlicesFacts(a);
    DistinctIsPermutable(CleanAll(a), CleanAll(b));
    assert b != [] by { assert a[0] in multiset(b); }
    SliceOrder();
    Sorting.SortSorts(SliceLeq, CleanAll(a));
    Sorting.SortSorts(SliceLeq, CleanAll(b));
    Sorting.SortedUnique(SliceLeq, SortSlices(CleanAll(a)), SortSlices(CleanAll(b)));
  }

  /** All rows that are refused are refused for one reason. */
  ghost predicate OneComplaint(rows: seq<Row>) {
    forall r, t | r in rows && t in rows && !ValidRow(r) && !ValidRow(t) :: CheckRow(r) == CheckRow(t)
  }

  lemma {:induction false} FirstErrorIsSomeones(rows: seq<Row>)
    requires FirstError(rows).Some?
    ensures exists r :: r in rows && !ValidRow(r) && CheckRow(r) == FirstError(rows)
  {
    if ValidRow(rows[0]) {
      FirstErrorIsSomeones(rows[1..]);
      var r :| r in rows[1..] && !ValidRow(r) && CheckRow(r) == FirstError(rows[1..]);
      assert r in rows;
    } else {
      assert rows[0] in rows;
    }
  }

  lemma SameRows(a: seq<Row>, b: seq<Row>, r: Row)
    requires multiset(a) == multiset(b)
    ensures r in a <==> r in b
  {
    assert r in a <==> r in multiset(a);
    assert r in b <==> r in multiset(b);
  }

  lemma OneComplaintEitherWay(a: seq<Row>, b: seq<Row>)
    requires multiset(a) == multiset(b) && OneComplaint(a)
    ensures FirstError(b) == FirstError(a)
  {
    hide CheckRow;
    forall r ensures r in a <==> r in b {
      SameRows(a, b, r);
    }
    if FirstError(a).Some? {
      FirstErrorIsSomeones(a);
      FirstErrorIsSomeones(b);
    }
  }

  lemma RefusedEitherWay(a: seq<Row>, b: seq<Row>)
    requires multiset(a) == multiset(b) && OneComplaint(a) && ParseBands(a).Err?
    ensures ParseBands(b) == ParseBands(a)
  {
    hide FirstError, DistinctThresholds;
    OneComplaintEitherWay(a, b);
    assert |a| == |multiset(a)| == |multiset(b)| == |b|;
    if a != [] && FirstError(a).None? {
      CleanPermutes(a, b);
      assert multiset(CleanAll(b)) == multiset(CleanAll(a));
      if DistinctThresholds(CleanAll(b)) {
        DistinctIsPermutable(CleanAll(b), CleanAll(a));
      }
    }
  }

  /** The rows with one of them moved to the front. */
  function Fronted(rows: seq<Row>, i: nat): seq<Row>
    requires i < |rows|
  {
    [rows[i]] + Sorting.Except(rows, i)
  }

  lemma FrontedComplains(rows: seq<Row>, r: Row)
    requires r in rows && !ValidRow(r)
    ensures exists b :: multiset(b) == multiset(rows) && ParseBands(b) == Err(CheckRow(r).value)
  {
    hide CheckRow, DistinctThresholds;
    var i :| 0 <= i < |rows| && rows[i] == r;
    Sorting.Without(rows, i);
    var b := Fronted(rows, i);
    assert multiset(b) == multiset{rows[i]} + multiset(Sorting.Except(rows, i));
    assert b[0] == r && FirstError(b) == CheckRow(r);
    assert ParseBands(b) == Err(CheckRow(r).value);
  }

  /** A refused list is refused for the same reason in every order exactly if all its
      invalid rows have one complaint. */
  lemma ComplaintIgnoresOrderIff(a: seq<Row>)
    requires ParseBands(a).Err?
    ensures (forall b | multiset(b) == multiset(a) :: ParseBands(b) == ParseBands(a)) <==> OneComplaint(a)
  {
    hide ParseBands;
    if OneComplaint(a) {
      forall b | multiset(b) == multiset(a) ensures ParseBands(b) == ParseBands(a) {
        RefusedEitherWay(a, b);
      }
    } else {
      var r, t :| r in a && t in a && !ValidRow(r) && !ValidRow(t) && CheckRow(r) != CheckRow(t);
      FrontedComplains(a, r);
      FrontedComplains(a, t);
      var b :| multiset(b) == multiset(a) && ParseBands(b) == Err(CheckRow(r).value);
      var c :| multiset(c) == multiset(a) && ParseBands(c) == Err(CheckRow(t).value);
      assert ParseBands(b) != ParseBands(c);
    }
  }

  /** A negative threshold and a rate above 100%: whichever comes first is reported. */
  lemma ComplaintDependsOnOrder()
    ensures var negative, steep := Row(Fin(-1.0), Fin(5.0)), Row(Fin(1.0), Fin(101.0));
            ParseBands([negative, steep]) == Err(NegativeThreshold)
            && ParseBands([steep, negative]) == Err(RateOutOfRange)
  {
    var negative, steep := Row(Fin(-1.0), Fin(5.0)), Row(Fin(1.0), Fin(101.0));
    assert [negative, steep][0] == negative && [steep, negative][0] == steep;
  }

  /** One band per row, highest threshold first, the order compute_paye walks. */
  lemma BandsDescend(rows: seq<Row>)
    requires Accepted(rows)
    ensures |Bands(rows)| == |rows|
    ensures forall i, j :: 0 <= i < j < |rows| ==> Bands(rows)[i].over > Bands(rows)[j].over
  {
    hide Stored, ValidRow, ParseBands;
    SlicesFacts(rows);
    var s := Slices(rows);
    forall i | 0 <= i < |s| ensures Stored(s, i).over == s[i].over {
      StoredOver(s, i);
    }
  }

  /** Every row typed has its band: the same threshold, and its rate to six places. */
  lemma BandKept(rows: seq<Row>, i: nat) returns (k: nat)
    requires Accepted(rows) && i < |rows|
    ensures k < |Bands(rows)| && ValidRow(rows[i])
    ensures Bands(rows)[k].over == rows[i].over.v
    ensures Bands(rows)[k].rate == PyRound(rows[i].percent.v / 100.0, MICRO)
  {
    hide Stored, PyRound;
    SlicesFacts(rows);
    var m := SliceKept(CleanAll(rows), i);
    k := |rows| - 1 - m;
    StoredOver(Slices(rows), m);
  }

  lemma SliceKept(c: seq<Slice>, i: nat) returns (m: nat)
    requires i < |c|
    ensures m < |SortSlices(c)| == |c| && SortSlices(c)[m] == c[i]
  {
    SliceOrder();
    Sorting.SortSorts(SliceLeq, c);
    assert c[i] in multiset(SortSlices(c));
    m :| 0 <= m < |SortSlices(c)| && SortSlices(c)[m] == c[i];
  }

  lemma StoredOver(s: seq<Slice>, i: nat)
    requires i < |s|
    ensures Stored(s, i).over == s[i].over && Stored(s, i).rate == PyRound(s[i].rate, MICRO)
  {
  }

  // ------------------------------------------------------------------ round trip

  /** What the editor shows for accepted rows: the thresholds in ascending order,
      each with its stored rate in percent. */
  lemma DisplayOf(rows: seq<Row>)
    requires Accepted(rows)
    ensures var s, shown := Slices(rows), DisplayRows(Bands(rows));
            |shown| == |s| && forall i | 0 <= i < |s| :: shown[i] == DisplayRow(Stored(s, i))
  {
    hide ParseBands, ValidRow, Stored, PyRound;
    SlicesFacts(rows);
    var s := Slices(rows);
    forall i | 0 <= i < |s| ensures Stored(s, i).over == s[i].over {
      StoredOver(s, i);
    }
    Sorting.SortReverses(BandLower, StoredBands(s));
  }

  /** A stored rate is shown without loss, and parses back to itself. */
  lemma RateShown(r: real)
    requires 0.0 <= r <= 1.0
    ensures var shown := PyRound(PyRound(r, MICRO) * 100.0, TENTHOU);
            0.0 <= shown <= 100.0 && IsWhole(shown * TENTHOU) && shown / 100.0 == PyRound(r, MICRO)
  {
    var q := PyRound(r, MICRO);
    PyRoundNear(r, MICRO);
    PyRound6Fraction(r);
    assert (q * 100.0) * TENTHOU == q * MICRO;
    PyRoundNear(q * 100.0, TENTHOU);
  }

  /** Ascending, valid, four-decimal rows are parsed to themselves as slices. */
  lemma AscendingRowsParse(shown: seq<Row>)
    requires shown != [] && forall r | r in shown :: ValidRow(r)
    requires Ascending(CleanAll(shown))
    ensures Accepted(shown) && Slices(shown) == CleanAll(shown)
  {
    Sorting.SortOfSorted(SliceLeq, CleanAll(shown));
  }

  lemma ShownRowsParse(rows: seq<Row>)
    requires Accepted(rows)
    ensures var s, shown := Slices(rows), DisplayRows(Bands(rows));
            && Accepted(shown) && ShortPercents(shown) && |Slices(shown)| == |s|
            && forall i | 0 <= i < |s| :: Slices(shown)[i] == Slice(s[i].over, PyRound(s[i].rate, MICRO))
  {
    hide PyRound, IsWhole, ParseBands, DisplayRows, Stored, Slices, Bands;
    var s, shown := Slices(rows), DisplayRows(Bands(rows));
    SlicesFacts(rows);
    DisplayOf(rows);
    forall i | 0 <= i < |shown|
      ensures ValidRow(shown[i]) && FourDecimals(shown[i])
      ensures Clean(shown[i]) == Slice(s[i].over, PyRound(s[i].rate, MICRO))
    {
      StoredOver(s, i);
      RateShown(s[i].rate);
    }
    AscendingRowsParse(shown);
  }

  /** With percents of at most four decimals, re-submitting the form unchanged
      gives back the same bands. */
  lemma RedisplayRoundTrip(rows: seq<Row>)
    requires Accepted(rows) && ShortPercents(rows)
    ensures ParseBands(DisplayRows(Bands(rows))) == Ok(Bands(rows))
  {
    ShownRowsParse(rows);
    ShortPercentsExact(rows);
    SlicesFacts(rows);
    SlicesFacts(DisplayRows(Bands(rows)));
    assert Slices(DisplayRows(Bands(rows))) == Slices(rows) by {
      forall i | 0 <= i < |Slices(rows)| ensures PyRound(Slices(rows)[i].rate, MICRO) == Slices(rows)[i].rate {
        assert Drift(Slices(rows), i) == 0.0;
      }
    }
  }

  /** For any accepted rows the form keeps every threshold and stored rate, and
      after one re-submission nothing changes any more. */
  lemma RedisplayStabilises(rows: seq<Row>)
    requires Accepted(rows)
    ensures Accepted(DisplayRows(Bands(rows)))
    ensures var again := Bands(DisplayRows(Bands(rows)));
            && |again| == |Bands(rows)|
            && (forall i | 0 <= i < |again| ::
                  again[i].over == Bands(rows)[i].over && again[i].rate == Bands(rows)[i].rate)
            && ParseBands(DisplayRows(again)) == Ok(again)
  {
    hide PyRound, IsWhole, ParseBands, DisplayRows, Stored, Slices, Bands;
    var shown := DisplayRows(Bands(rows));
    ShownRowsParse(rows);
    SlicesFacts(rows);
    SlicesFacts(shown);
    RedisplayRoundTrip(shown);
    var s, t := Slices(rows), Slices(shown);
    ShortPercentsExact(shown);
    forall i | 0 <= i < |s|
      ensures Bands(shown)[i].over == Bands(rows)[i].over && Bands(shown)[i].rate == Bands(rows)[i].rate
    {
      var k := |s| - 1 - i;
      StoredOver(s, k);
      StoredOver(t, k);
      assert Drift(t, k) == 0.0;
    }
  }

  // -------------------------------------------------------------- a dropped pesewa

  /** Three 1% bands whose middle bases round up and then down: the tax falls from
      2 pesewas to 1 as income rises from 1.48 to 1.49. */
  lemma PesewaDropExample()
    ensures var rows := [Row(Fin(0.0), Fin(1.0)), Row(Fin(0.51), Fin(1.0)), Row(Fin(1.49), Fin(1.0))];
            && Accepted(rows) && ShortPercents(rows)
            && ComputePaye(Bands(rows), 1.48) == 0.02 && ComputePaye(Bands(rows), 1.49) == 0.01
  {
    var rows := [Row(Fin(0.0), Fin(1.0)), Row(Fin(0.51), Fin(1.0)), Row(Fin(1.49), Fin(1.0))];
    AscendingRowsParse(rows);
    ShortExample(rows);
    var s := [Slice(0.0, 0.01), Slice(0.51, 0.01), Slice(1.49, 0.01)];
    assert CleanAll(rows) == s;
    DropExampleTaxes(rows, s);
  }

  lemma DropExampleTaxes(rows: seq<Row>, s: seq<Slice>)
    requires Accepted(rows) && Slices(rows) == s
    requires s == [Slice(0.0, 0.01), Slice(0.51, 0.01), Slice(1.49, 0.01)]
    ensures ComputePaye(Bands(rows), 1.48) == 0.02 && ComputePaye(Bands(rows), 1.49) == 0.01
  {
    hide Stored, ParseBands, ComputePaye, TaxAt, RoundHalfUp, BandOf, Slices;
    SlicesFacts(rows);
    DropExampleBands(s);
    DropExampleRounds(Stored(s, 1), Stored(s, 2));
    BandOfIs(s, 1.48, 1);
    BandOfIs(s, 1.49, 2);
    PayeUsesBand(s, 1.48);
    PayeUsesBand(s, 1.49);
  }

  /** A percent of five decimals is lost when the rate is stored, and with it any bound on
      the error. */
  lemma TinyRateExample()
    ensures var rows := [Row(Fin(0.0), Fin(0.00001))];
            Accepted(rows) && !TopRateExact(rows) && forall c: real :: !ErrorWithin(rows, c)
  {
    var rows := [Row(Fin(0.0), Fin(0.00001))];
    AscendingRowsParse(rows);
    var s := [Slice(0.0, 0.0000001)];
    assert CleanAll(rows) == s;
    TinyRateDrifts(s);
    hide Drift, ErrorWithin;
    ErrorBoundedIffTopRateExact(rows);
  }

  lemma TinyRateDrifts(s: seq<Slice>)
    requires s == [Slice(0.0, 0.0000001)]
    ensures Drift(s, 0) != 0.0
  {
    assert HalfEven(0.1) == 0;
  }

  lemma DropExampleBands(s: seq<Slice>)
    requires s == [Slice(0.0, 0.01), Slice(0.51, 0.01), Slice(1.49, 0.01)]
    ensures Stored(s, 1) == Band(0.51, 0.01, 0.01) && Stored(s, 2) == Band(1.49, 0.01, 0.01)
  {
    hide PyRound;
    assert Base(s, 1) == 0.0051;
    assert Base(s, 2) == 0.0149;
    DropExamplePesewas();
  }

  lemma DropExamplePesewas()
    ensures PyRound(0.01, MICRO) == 0.01
    ensures PyRound(0.0051, 100.0) == 0.01 && PyRound(0.0149, 100.0) == 0.01
  {
    assert HalfEven(10000.0) == 10000 && HalfEven(0.51) == 1 && HalfEven(1.49) == 1;
  }

  lemma DropExampleRounds(low: Band, high: Band)
    requires low == Band(0.51, 0.01, 0.01) && high == Band(1.49, 0.01, 0.01)
    ensures RoundHalfUp(TaxAt(low, 1.48)) == 0.02 && RoundHalfUp(TaxAt(high, 1.49)) == 0.01
  {
    hide RoundHalfUp;
    RoundsTo(0.0197, 2);
    RoundsTo(0.01, 1);
    assert TaxAt(low, 1.48) == 0.0197 && TaxAt(high, 1.49) == 0.01;
  }

  lemma ShortExample(rows: seq<Row>)
    requires forall i | 0 <= i < |rows| :: rows[i].percent == Fin(1.0)
    ensures ShortPercents(rows)
  {
  }
}
