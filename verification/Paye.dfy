/** PAYE bands (app/statutory.py) and the taxes read off them (app/models.py,
    class StatutoryRate). Amounts are exact reals; every rounding the code does
    is written out. */
module Paye {
  import opened Outcomes
  import opened Money
  import Sorting

  /** A parsed float: a number, or one of inf and nan. */
  datatype Num = Fin(v: real) | NonFinite

  /** One line of the band editor: where the band starts, and its rate in percent. */
  datatype Row = Row(over: Num, percent: Num)

  /** A validated row, rate as a fraction. */
  datatype Slice = Slice(over: real, rate: real)

  /** A stored band: tax is (x - over) * rate + base from `over` upwards. */
  datatype Band = Band(over: real, rate: real, base: real)

  datatype BandError = NoBands | NotFinite | NegativeThreshold | RateOutOfRange | DuplicateThreshold

  const PESEWA := 0.01
  const MICRO := 1000000.0
  const TENTHOU := 10000.0

  // ---------------------------------------------------------------- parsing

  function CheckRow(row: Row): Option<BandError> {
    if row.over.NonFinite? || row.percent.NonFinite? then Some(NotFinite)
    else if row.over.v < 0.0 then Some(NegativeThreshold)
    else if !(0.0 <= row.percent.v <= 100.0) then Some(RateOutOfRange)
    else None
  }

  predicate ValidRow(row: Row) { CheckRow(row).None? }

  function Clean(row: Row): Slice
    requires ValidRow(row)
  {
    Slice(row.over.v, row.percent.v / 100.0)
  }

  function CleanAll(rows: seq<Row>): (s: seq<Slice>)
    requires forall r | r in rows :: ValidRow(r)
    ensures |s| == |rows| && forall i | 0 <= i < |s| :: s[i] == Clean(rows[i])
  {
    seq(|rows|, i requires 0 <= i < |rows| => Clean(rows[i]))
  }

  function FirstError(rows: seq<Row>): (e: Option<BandError>)
    ensures e.None? <==> forall r | r in rows :: ValidRow(r)
  {
    if rows == [] then None
    else if !ValidRow(rows[0]) then CheckRow(rows[0])
    else
      assert rows == [rows[0]] + rows[1..];
      FirstError(rows[1..])
  }

  /** Tuple order: by threshold, then by rate. */
  predicate SliceLeq(a: Slice, b: Slice) {
    a.over < b.over || (a.over == b.over && a.rate <= b.rate)
  }

  function SortSlices(s: seq<Slice>): seq<Slice> { Sorting.Sort(SliceLeq, s) }

  ghost predicate DistinctThresholds(s: seq<Slice>) {
    forall i, j :: 0 <= i < j < |s| ==> s[i].over != s[j].over
  }

  ghost predicate Ascending(s: seq<Slice>) {
    forall i, j :: 0 <= i < j < |s| ==> s[i].over < s[j].over
  }

  ghost predicate Rated(s: seq<Slice>) {
    forall i | 0 <= i < |s| :: 0.0 <= s[i].over && 0.0 <= s[i].rate <= 1.0
  }

  /** Tax on all income below slice i, accumulated unrounded. */
  function Base(s: seq<Slice>, i: nat): real
    requires i < |s|
  {
    if i == 0 then 0.0 else Base(s, i - 1) + Times(s[i].over - s[i - 1].over, s[i - 1].rate)
  }

  function Stored(s: seq<Slice>, i: nat): Band
    requires i < |s|
  {
    Band(s[i].over, PyRound(s[i].rate, MICRO), PyRound(Base(s, i), 100.0))
  }

  /** The stored bands of ascending slices, highest threshold first. */
  function StoredBands(s: seq<Slice>): (b: seq<Band>)
    ensures |b| == |s| && forall k | 0 <= k < |s| :: b[k] == Stored(s, |s| - 1 - k)
  {
    seq(|s|, k requires 0 <= k < |s| => Stored(s, |s| - 1 - k))
  }

  ghost function ParseBands(rows: seq<Row>): Result<seq<Band>, BandError> {
    if rows == [] then Err(NoBands)
    else if FirstError(rows).Some? then Err(FirstError(rows).value)
    else if !DistinctThresholds(CleanAll(rows)) then Err(DuplicateThreshold)
    else Ok(StoredBands(SortSlices(CleanAll(rows))))
  }

  ghost predicate Accepted(rows: seq<Row>) { ParseBands(rows).Ok? }

  ghost function Bands(rows: seq<Row>): seq<Band>
    requires Accepted(rows)
  {
    ParseBands(rows).value
  }

  /** The accepted rows as ascending slices. */
  ghost function Slices(rows: seq<Row>): seq<Slice>
    requires Accepted(rows)
  {
    SortSlices(CleanAll(rows))
  }

  predicate BandHigher(a: Band, b: Band) { a.over >= b.over }

  /** `bands_from_rows`: validate and clean, refuse equal thresholds, then
      accumulate the bases from the lowest band up. */
  method BandsFromRows(rows: seq<Row>) returns (res: Result<seq<Band>, BandError>)
    ensures res == ParseBands(rows)
  {
    if rows == [] {
      return Err(NoBands);
    }
    var checked := CleanRows(rows);
    if checked.Err? {
      return Err(checked.error);
    }
    var cleaned := SortSlices(checked.value);
    var thresholds: seq<real> := seq(|cleaned|, i requires 0 <= i < |cleaned| => cleaned[i].over);
    var distinct := DistinctCount(thresholds);
    SortedSlicesFacts(checked.value, thresholds);
    if distinct != |thresholds| {
      return Err(DuplicateThreshold);
    }
    var bands := AccumulateBands(cleaned);
    SortDescReverses(cleaned, bands);
    return Ok(Sorting.Sort(BandHigher, bands));
  }

  method CleanRows(rows: seq<Row>) returns (res: Result<seq<Slice>, BandError>)
    ensures res.Err? <==> FirstError(rows).Some?
    ensures res.Err? ==> res.error == FirstError(rows).value
    ensures res.Ok? ==> res.value == CleanAll(rows)
  {
    var cleaned: seq<Slice> := [];
    for n := 0 to |rows|
      invariant forall i | 0 <= i < n :: ValidRow(rows[i])
      invariant |cleaned| == n && forall i | 0 <= i < n :: cleaned[i] == Clean(rows[i])
      invariant FirstError(rows) == FirstError(rows[n..])
    {
      if !ValidRow(rows[n]) {
        assert rows[n..][0] == rows[n];
        return Err(CheckRow(rows[n]).value);
      }
      assert rows[n..][1..] == rows[n + 1..];
      cleaned := cleaned + [Clean(rows[n])];
    }
    assert cleaned == CleanAll(rows);
    return Ok(cleaned);
  }

  method AccumulateBands(cleaned: seq<Slice>) returns (bands: seq<Band>)
    ensures |bands| == |cleaned| && forall i | 0 <= i < |bands| :: bands[i] == Stored(cleaned, i)
  {
    var base := 0.0;
    bands := [];
    for index := 0 to |cleaned|
      invariant |bands| == index && forall i | 0 <= i < index :: bands[i] == Stored(cleaned, i)
      invariant base == if index > 0 then Base(cleaned, index - 1) else 0.0
    {
      if index > 0 {
        var prev := cleaned[index - 1];
        base := base + Times(cleaned[index].over - prev.over, prev.rate);
      }
      assert base == Base(cleaned, index);
      bands := bands + [Band(cleaned[index].over, PyRound(cleaned[index].rate, MICRO), PyRound(base, 100.0))];
    }
  }

  /** len(set(xs)) */
  method DistinctCount(xs: seq<real>) returns (n: nat)
    ensures n == |xs| <==> forall i, j :: 0 <= i < j < |xs| ==> xs[i] != xs[j]
  {
    var seen: set<real> := {};
    for k := 0 to |xs|
      invariant seen == set i | 0 <= i < k :: xs[i]
      invariant |seen| <= k
      invariant |seen| == k <==> forall i, j :: 0 <= i < j < k ==> xs[i] != xs[j]
    {
      seen := seen + {xs[k]};
    }
    n := |seen|;
  }

  // --------------------------------------------------------------- what is accepted

  predicate Acceptable(row: Row) {
    row.over.Fin? && row.percent.Fin? && 0.0 <= row.over.v && 0.0 <= row.percent.v <= 100.0
  }

  /** The complaint about a row, by what is wrong with it. */
  predicate WrongWith(row: Row, e: BandError) {
    match e
    case NotFinite => row.over.NonFinite? || row.percent.NonFinite?
    case NegativeThreshold => row.over.Fin? && row.percent.Fin? && row.over.v < 0.0
    case RateOutOfRange =>
      row.over.Fin? && row.percent.Fin? && row.over.v >= 0.0 && (row.percent.v < 0.0 || row.percent.v > 100.0)
    case _ => false
  }

  lemma {:induction false} FirstWrong(rows: seq<Row>, e: BandError)
    requires FirstError(rows) == Some(e)
    ensures exists i :: 0 <= i < |rows| && WrongWith(rows[i], e) && forall j :: 0 <= j < i ==> Acceptable(rows[j])
  {
    if ValidRow(rows[0]) {
      FirstWrong(rows[1..], e);
      var i :| 0 <= i < |rows[1..]| && WrongWith(rows[1..][i], e)
               && forall j :: 0 <= j < i ==> Acceptable(rows[1..][j]);
      assert WrongWith(rows[i + 1], e);
      assert forall j :: 0 < j < i + 1 ==> rows[j] == rows[1..][j - 1];
    } else {
      assert WrongWith(rows[0], e);
    }
  }

  /** A list is accepted exactly if it has rows, each a finite threshold from 0 up and a
      percent from 0 to 100, and no two start at one income. */
  lemma AcceptedIff(rows: seq<Row>)
    ensures Accepted(rows) <==>
              && rows != [] && (forall i :: 0 <= i < |rows| ==> Acceptable(rows[i]))
              && forall i, j :: 0 <= i < j < |rows| ==> rows[i].over != rows[j].over
  {
    assert forall i :: 0 <= i < |rows| ==> rows[i] in rows && (Acceptable(rows[i]) <==> ValidRow(rows[i]));
  }

  /** A refusal is for the first row that is wrong, or for no rows, or for two that start at
      one income when no row is wrong. */
  lemma RefusalMeans(rows: seq<Row>)
    requires ParseBands(rows).Err?
    ensures match ParseBands(rows).error
      case NoBands => rows == []
      case DuplicateThreshold =>
        && (forall i :: 0 <= i < |rows| ==> Acceptable(rows[i]))
        && exists i, j :: 0 <= i < j < |rows| && rows[i].over == rows[j].over
      case e =>
        exists i :: 0 <= i < |rows| && WrongWith(rows[i], e) && forall j :: 0 <= j < i ==> Acceptable(rows[j])
  {
    assert forall i :: 0 <= i < |rows| ==> rows[i] in rows && (Acceptable(rows[i]) <==> ValidRow(rows[i]));
    if FirstError(rows).Some? {
      FirstWrong(rows, FirstError(rows).value);
    } else if rows != [] {
      var s := CleanAll(rows);
      var i, j :| 0 <= i < j < |s| && s[i].over == s[j].over;
      assert rows[i].over == rows[j].over;
    }
  }

  lemma SliceOrder()
    ensures Sorting.TotalOrder(SliceLeq)
  {
  }

  lemma SortedSlicesFacts(s: seq<Slice>, thresholds: seq<real>)
    requires |thresholds| == |s|
    requires forall i | 0 <= i < |s| :: thresholds[i] == SortSlices(s)[i].over
    ensures DistinctThresholds(s) <==> forall i, j :: 0 <= i < j < |s| ==> thresholds[i] != thresholds[j]
    ensures DistinctThresholds(s) ==> Ascending(SortSlices(s))
    ensures multiset(SortSlices(s)) == multiset(s)
  {
    SliceOrder();
    Sorting.SortSorts(SliceLeq, s);
    if DistinctThresholds(s) {
      DistinctIsPermutable(s, SortSlices(s));
    } else if DistinctThresholds(SortSlices(s)) {
      DistinctIsPermutable(SortSlices(s), s);
    }
  }

  /** Whether all thresholds differ does not depend on the order. */
  lemma DistinctIsPermutable(s: seq<Slice>, t: seq<Slice>)
    requires multiset(s) == multiset(t) && DistinctThresholds(s)
    ensures DistinctThresholds(t)
  {
    forall i, j | 0 <= i < j < |t| ensures t[i].over != t[j].over {
      if t[i] == t[j] {
        Sorting.CountedTwice(t, t[i]);
        Sorting.CountedTwice(s, t[i]);
      } else {
        assert t[i] in multiset(s) && t[j] in multiset(s);
      }
    }
  }

  lemma SortDescReverses(s: seq<Slice>, bands: seq<Band>)
    requires Ascending(s) && |bands| == |s| && forall i | 0 <= i < |s| :: bands[i] == Stored(s, i)
    ensures Sorting.Sort(BandHigher, bands) == StoredBands(s)
  {
    Sorting.SortReverses(BandHigher, bands);
  }
}
