/** The risk gate (app/risk.py): three rules, the sentences they write, the reasons read back
    from those sentences, and the staleness mark. */
module RiskGate {
  import opened Outcomes
  import opened Text
  import Money

  const FIRST_RUNS_HELD := 2
  const NET_PAY_VARIANCE := 0.15
  const HEADCOUNT_SWING := 0.20

  /** The totals of a run, missing ones counting as 0. */
  datatype Run = Run(net: real, workers: nat, gross: real, deductions: real, paye: real, ssnit: real)

  /** `{:,.2f}` and `{:.1f}` as the platform prints them. */
  datatype Formats = Formats(money: real -> string, percent: real -> string)

  predicate IsNumberChar(c: char) { IsDigit(c) || c == ',' || c == '.' }

  /** Amounts print as digits, commas, a point and a sign; percentages have no sign. */
  ghost predicate Numeric(f: Formats) {
    && (forall x, i :: 0 <= i < |f.money(x)| ==> IsNumberChar(f.money(x)[i]) || f.money(x)[i] == '-')
    && (forall x, i :: x >= 0.0 && 0 <= i < |f.percent(x)| ==> IsNumberChar(f.percent(x)[i]))
  }

  datatype Code = NewClient | NetPay | Headcount | Other

  datatype Check = Check(code: Code, tripped: bool, detail: string)

  /** `_pct`: the change as a fraction, None against 0. */
  function Pct(current: real, previous: real): Option<real> {
    if previous == 0.0 then None else Some(Money.Abs(current - previous) / Money.Abs(previous))
  }

  // --------------------------------------------------------------------------- the rules

  function NewClientDetail(ordinal: nat): string {
    "Run #" + Dec(ordinal) + " for this client; the first 2 " + "runs are always reviewed" + "."
  }

  function NetFromZero(f: Formats, net: real): string {
    "Previous run " + "net pay" + " was 0; this run is " + f.money(net) + "."
  }

  function NetChange(f: Formats, net: real, previous: real, pct: real): string {
    "Net pay" + " " + f.money(net) + " vs previous " + f.money(previous)
    + " (" + f.percent(pct * 100.0) + "% change; threshold 15%)."
  }

  function WorkersFromZero(workers: nat): string {
    "Previous run had " + "0 workers" + "; this run has " + Dec(workers) + "."
  }

  function WorkersChange(f: Formats, workers: nat, previous: nat, pct: real): string {
    Dec(workers) + " " + "workers vs previous" + " " + Dec(previous)
    + " (" + f.percent(pct * 100.0) + "% change; threshold 20%)."
  }

  function NewClientCheck(prior: nat): Check {
    if prior < FIRST_RUNS_HELD then Check(NewClient, true, NewClientDetail(prior + 1))
    else Check(NewClient, false, "Client has " + Dec(prior) + " prior run(s); past the new-client window.")
  }

  function NetCheck(f: Formats, run: Run, previous: Run): Check {
    match Pct(run.net, previous.net)
    case None =>
      if run.net != 0.0 then Check(NetPay, true, NetFromZero(f, run.net))
      else Check(NetPay, false, "Previous and current net pay are both 0.")
    case Some(pct) => Check(NetPay, pct > NET_PAY_VARIANCE, NetChange(f, run.net, previous.net, pct))
  }

  function HeadcountCheck(f: Formats, run: Run, previous: Run): Check {
    match Pct(run.workers as real, previous.workers as real)
    case None =>
      if run.workers != 0 then Check(Headcount, true, WorkersFromZero(run.workers))
      else Check(Headcount, false, "Previous and current worker counts are both 0.")
    case Some(pct) =>
      Check(Headcount, pct > HEADCOUNT_SWING, WorkersChange(f, run.workers, previous.workers, pct))
  }

  /** `evaluate_run`, given how many other runs the client has and its previous closed run. */
  function EvaluateRun(f: Formats, run: Run, prior: nat, previous: Option<Run>): seq<Check> {
    [NewClientCheck(prior)]
    + (match previous
       case None =>
         [Check(NetPay, false, "No previous closed run to compare against."),
          Check(Headcount, false, "No previous closed run to compare against.")]
       case Some(p) => [NetCheck(f, run, p), HeadcountCheck(f, run, p)])
  }

  function Tripped(checks: seq<Check>): seq<Check> {
    if checks == [] then [] else (if checks[0].tripped then [checks[0]] else []) + Tripped(checks[1..])
  }

  function Details(checks: seq<Check>): (r: seq<string>)
    ensures |r| == |checks|
  {
    seq(|checks|, i requires 0 <= i < |checks| => checks[i].detail)
  }

  datatype Stored = Stored(held: bool, reasons: Option<string>)

  /** `apply_risk_gate`: what is written onto the run. */
  function ApplyRiskGate(checks: seq<Check>): Stored {
    var text := Join(" | ", Details(Tripped(checks)));
    Stored(Tripped(checks) != [], if text == [] then None else Some(text))
  }

  // ------------------------------------------------------------------------ reading back

  predicate At(s: string, needle: string, k: nat) { k + |needle| <= |s| && s[k..k + |needle|] == needle }

  /** `needle in s` */
  predicate Contains(s: string, needle: string) { exists k: nat :: k <= |s| && At(s, needle, k) }

  /** The first rule one of whose phrases the sentence holds. */
  function Classify(part: string): Code {
    var s := Lower(part);
    if Contains(s, "new-client") || Contains(s, "runs are always reviewed") || Contains(s, "first ") then NewClient
    else if Contains(s, "net pay") then NetPay
    else if Contains(s, "workers vs previous") || Contains(s, "worker count") || Contains(s, "0 workers") then Headcount
    else Other
  }

  datatype Item = Item(code: Code, detail: string)

  function Items(parts: seq<string>): seq<Item> {
    if parts == [] then []
    else
      (if Strip(parts[0]) == [] then [] else [Item(Classify(Strip(parts[0])), Strip(parts[0]))]) + Items(parts[1..])
  }

  function ItemsOf(reasons: Option<string>): seq<Item> {
    var raw := if reasons.Some? then Strip(reasons.value) else [];
    if raw == [] then [] else Items(Split('|', raw))
  }

  /** `reason_items`. */
  method ReasonItems(reasons: Option<string>) returns (items: seq<Item>)
    ensures items == ItemsOf(reasons)
  {
    hide Strip, Classify, Split, Items;
    var raw := if reasons.Some? then Strip(reasons.value) else [];
    if raw == [] {
      return [];
    }
    var parts := Split('|', raw);
    items := [];
    ItemsEnd(parts);
    for i := 0 to |parts|
      invariant items == Items(parts[..i])
    {
      ItemsStep(parts, i);
      var part := Strip(parts[i]);
      if part != [] {
        items := items + [Item(Classify(part), part)];
      }
    }
    assert parts[..|parts|] == parts;
  }

  lemma ItemsEnd(parts: seq<string>)
    ensures Items(parts[..0]) == []
  {
  }

  lemma {:induction false} ItemsAppend(a: seq<string>, b: seq<string>)
    ensures Items(a + b) == Items(a) + Items(b)
  {
    hide Strip, Classify;
    if a == [] {
      assert a + b == b;
    } else {
      assert (a + b)[1..] == a[1..] + b;
      ItemsAppend(a[1..], b);
    }
  }

  lemma ItemsStep(parts: seq<string>, i: nat)
    requires i < |parts|
    ensures Items(parts[..i + 1]) == Items(parts[..i])
         + (if Strip(parts[i]) == [] then [] else [Item(Classify(Strip(parts[i])), Strip(parts[i]))])
  {
    hide Strip, Classify;
    assert parts[..i + 1] == parts[..i] + [parts[i]];
    ItemsAppend(parts[..i], [parts[i]]);
    assert [parts[i]][1..] == [];
  }

  // ------------------------------------------------------------------------- comparison

  datatype Metric = Workers | Gross | Deductions | Taxes | Net

  function MetricValue(run: Run, m: Metric): real {
    match m
    case Workers => run.workers as real
    case Gross => run.gross
    case Deductions => run.deductions
    case Taxes => run.paye + run.ssnit
    case Net => run.net
  }

  function Threshold(m: Metric): real { if m == Workers then HEADCOUNT_SWING else NET_PAY_VARIANCE }

  const METRICS := [Workers, Gross, Deductions, Taxes, Net]

  datatype Comparison = Comparison(metric: Metric, delta: real, pct: Option<real>, flag: bool)

  function Compare(run: Run, previous: Run, m: Metric): Comparison {
    var current, before := MetricValue(run, m), MetricValue(previous, m);
    var pct := Pct(current, before);
    Comparison(m, current - before, pct, if pct.Some? then pct.value > Threshold(m) else current != 0.0)
  }

  /** `compare_to_previous`: no rows without a previous run. */
  method CompareToPrevious(run: Run, previous: Option<Run>) returns (rows: seq<Comparison>)
    ensures previous.None? ==> rows == []
    ensures previous.Some? ==>
              rows == seq(|METRICS|, i requires 0 <= i < |METRICS| => Compare(run, previous.value, METRICS[i]))
  {
    rows := [];
    if previous.None? {
      return;
    }
    hide Compare;
    for i := 0 to |METRICS|
      invariant rows == seq(i, j requires 0 <= j < i => Compare(run, previous.value, METRICS[j]))
    {
      rows := rows + [Compare(run, previous.value, METRICS[i])];
    }
  }

  /** The signed change the queue shows, None against 0 or nothing. */
  function Change(current: real, previous: Option<real>): Option<real> {
    if previous.None? || previous.value == 0.0 then None
    else Some((current - previous.value) / previous.value)
  }

  predicate HasCode(items: seq<Item>, code: Code) { exists i :: 0 <= i < |items| && items[i].code == code }

  /** `_verdict_is_stale`. */
  predicate VerdictIsStale(items: seq<Item>, net: Option<real>, workers: Option<real>) {
    || (HasCode(items, NetPay) && net.Some? && Money.Abs(net.value) <= NET_PAY_VARIANCE)
    || (HasCode(items, Headcount) && workers.Some? && Money.Abs(workers.value) <= HEADCOUNT_SWING)
  }

  /** What `queue_rows` marks a run with, against the baseline it finds now. */
  predicate MarkedStale(stored: Stored, run: Run, now: Option<Run>) {
    VerdictIsStale(
      ItemsOf(stored.reasons),
      Change(run.net, if now.Some? then Some(now.value.net) else None),
      Change(run.workers as real, if now.Some? then Some(now.value.workers as real) else None))
  }
}
