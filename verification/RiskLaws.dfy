/** The stored sentences read back as the rules that wrote them, and agree with the gate
    (app/risk.py). */
module RiskLaws {
  import opened Outcomes
  import opened Text
  import Money
  import opened RiskGate

  // ------------------------------------------------------------------ phrases in sentences

  lemma ContainsAt(s: string, needle: string, k: nat)
    requires k + |needle| <= |s| && s[k..k + |needle|] == needle
    ensures Contains(s, needle)
  {
    assert At(s, needle, k);
  }

  /** A phrase with a character the text lacks is not in the text. */
  lemma Lacks(s: string, needle: string, c: char)
    requires c in needle && c !in s
    ensures !Contains(s, needle)
  {
    forall k: nat | k <= |s| ensures !At(s, needle, k) {
      if k + |needle| <= |s| {
        assert c !in s[k..k + |needle|];
      }
    }
  }

  lemma LowerAppend(a: string, b: string)
    ensures Lower(a + b) == Lower(a) + Lower(b)
  {
  }

  /** Lower-casing leaves a phrase in lower case where it was. */
  lemma LowerHolds(before: string, phrase: string, after: string)
    requires Lower(phrase) == phrase
    ensures Contains(Lower(before + phrase + after), phrase)
  {
    var s := Lower(before + phrase + after);
    assert before + phrase + after == before + (phrase + after);
    LowerAppend(before, phrase + after);
    LowerAppend(phrase, after);
    ContainsAt(s, phrase, |before|);
  }

  /** The text has the small letter in neither case. */
  predicate Without(s: string, c: char) {
    forall i :: 0 <= i < |s| ==> LowerChar(s[i]) != c
  }

  lemma WithoutAppend(a: string, b: string, c: char)
    ensures Without(a + b, c) <==> Without(a, c) && Without(b, c)
  {
    assert forall i :: 0 <= i < |a| ==> (a + b)[i] == a[i];
    assert forall i :: 0 <= i < |b| ==> (a + b)[|a| + i] == b[i];
  }

  lemma WithoutLower(s: string, c: char)
    requires Without(s, c)
    ensures c !in Lower(s)
  {
  }

  lemma NumbersAreWithout(s: string, c: char)
    requires forall i :: 0 <= i < |s| ==> IsNumberChar(s[i]) || s[i] == '-'
    requires 'a' <= c <= 'z' || c == '|'
    ensures Without(s, c)
  {
  }

  lemma PlainNumbersAreWithout(s: string)
    requires forall i :: 0 <= i < |s| ==> IsNumberChar(s[i])
    ensures Without(s, '-')
  {
  }

  lemma NewClientReads(ordinal: nat)
    ensures Classify(NewClientDetail(ordinal)) == NewClient
  {
    hide Lower, Contains, Dec;
    LowerOfPhrase();
    LowerHolds("Run #" + Dec(ordinal) + " for this client; the first 2 ", "runs are always reviewed", ".");
  }

  lemma Small(phrase: string)
    requires forall i :: 0 <= i < |phrase| ==> LowerChar(phrase[i]) == phrase[i]
    ensures Lower(phrase) == phrase
  {
  }

  lemma LowerOfPhrase()
    ensures Lower("runs are always reviewed") == "runs are always reviewed"
    ensures Lower("net pay") == "net pay"
    ensures Lower("0 workers") == "0 workers"
    ensures Lower("workers vs previous") == "workers vs previous"
  {
    Small("runs are always reviewed");
    Small("net pay");
    Small("0 workers");
    Small("workers vs previous");
    hide Lower;
  }

  lemma PhraseLetters()
    ensures 'w' in "new-client" && '-' in "new-client" && 'l' in "new-client"
    ensures 'w' in "runs are always reviewed" && 'l' in "runs are always reviewed" && 'y' in "runs are always reviewed"
    ensures 'y' in "net pay" && 'f' in "first "
  {
  }

  /** The texts of the sentences, with a number text for each amount. */
  function NetFromZeroText(n: string): string {
    "Previous run " + "net pay" + " was 0; this run is " + n + "."
  }

  function NetChangeText(n: string, m: string, p: string): string {
    "Net pay" + " " + n + " vs previous " + m + " (" + p + "% change; threshold 15%)."
  }

  function WorkersFromZeroText(n: string): string {
    "Previous run had " + "0 workers" + "; this run has " + n + "."
  }

  function WorkersChangeText(n: string, m: string, p: string): string {
    n + " " + "workers vs previous" + " " + m + " (" + p + "% change; threshold 20%)."
  }

  ghost predicate NumberText(s: string) { forall i :: 0 <= i < |s| ==> IsNumberChar(s[i]) || s[i] == '-' }

  lemma NetFromZeroWords(c: char)
    requires c == 'l' || c == 'f' || c == '|'
    ensures Without("Previous run ", c) && Without("net pay", c)
    ensures Without(" was 0; this run is ", c) && Without(".", c)
  {
  }

  lemma NetFromZeroLacks(n: string, c: char)
    requires NumberText(n) && (c == 'l' || c == 'f' || c == '|')
    ensures Without(NetFromZeroText(n), c)
  {
    hide Without;
    NumbersAreWithout(n, c);
    NetFromZeroWords(c);
    WithoutAppend("Previous run ", "net pay", c);
    WithoutAppend("Previous run " + "net pay", " was 0; this run is ", c);
    WithoutAppend("Previous run " + "net pay" + " was 0; this run is ", n, c);
    WithoutAppend("Previous run " + "net pay" + " was 0; this run is " + n, ".", c);
  }

  lemma NetChangeWords(c: char)
    requires c == 'w' || c == 'f' || c == '|'
    ensures Without("Net pay", c) && Without(" ", c) && Without(" vs previous ", c) && Without(" (", c)
    ensures Without("% change; threshold 15%).", c)
  {
    assert Without("% change; threshold 15%).", c);
  }

  lemma NetChangeLacks(n: string, m: string, p: string, c: char)
    requires NumberText(n) && NumberText(m) && NumberText(p) && (c == 'w' || c == 'f' || c == '|')
    ensures Without(NetChangeText(n, m, p), c)
  {
    hide Without;
    NumbersAreWithout(n, c);
    NumbersAreWithout(m, c);
    NumbersAreWithout(p, c);
    NetChangeWords(c);
    var t1 := "Net pay" + " ";
    WithoutAppend("Net pay", " ", c);
    WithoutAppend(t1, n, c);
    WithoutAppend(t1 + n, " vs previous ", c);
    WithoutAppend(t1 + n + " vs previous ", m, c);
    WithoutAppend(t1 + n + " vs previous " + m, " (", c);
    WithoutAppend(t1 + n + " vs previous " + m + " (", p, c);
    WithoutAppend(t1 + n + " vs previous " + m + " (" + p, "% change; threshold 15%).", c);
  }

  lemma WorkersFromZeroWords(c: char)
    requires c == 'l' || c == 'f' || c == 'y' || c == '|'
    ensures Without("Previous run had ", c) && Without("0 workers", c)
    ensures Without("; this run has ", c) && Without(".", c)
  {
  }

  lemma WorkersFromZeroLacks(n: string, c: char)
    requires NumberText(n) && (c == 'l' || c == 'f' || c == 'y' || c == '|')
    ensures Without(WorkersFromZeroText(n), c)
  {
    hide Without;
    NumbersAreWithout(n, c);
    WorkersFromZeroWords(c);
    WithoutAppend("Previous run had ", "0 workers", c);
    WithoutAppend("Previous run had " + "0 workers", "; this run has ", c);
    WithoutAppend("Previous run had " + "0 workers" + "; this run has ", n, c);
    WithoutAppend("Previous run had " + "0 workers" + "; this run has " + n, ".", c);
  }

  lemma PlainNumberLacks(n: string, c: char)
    requires forall i :: 0 <= i < |n| ==> IsNumberChar(n[i])
    requires c == '-' || c == 'f' || c == 'y' || c == '|'
    ensures Without(n, c)
  {
    if c == '-' {
      PlainNumbersAreWithout(n);
    } else {
      NumbersAreWithout(n, c);
    }
  }

  lemma WorkersChangeWords(c: char)
    requires c == '-' || c == 'f' || c == 'y' || c == '|'
    ensures Without(" ", c) && Without("workers vs previous", c) && Without(" (", c)
    ensures Without("% change; threshold 20%).", c)
  {
  }

  lemma WorkersChangeLacks(n: string, m: string, p: string, c: char)
    requires forall i :: 0 <= i < |n| ==> IsNumberChar(n[i])
    requires forall i :: 0 <= i < |m| ==> IsNumberChar(m[i])
    requires forall i :: 0 <= i < |p| ==> IsNumberChar(p[i])
    requires c == '-' || c == 'f' || c == 'y' || c == '|'
    ensures Without(WorkersChangeText(n, m, p), c)
  {
    hide Without, IsNumberChar;
    PlainNumberLacks(n, c);
    PlainNumberLacks(m, c);
    PlainNumberLacks(p, c);
    WorkersChangeWords(c);
    var t1 := n + " " + "workers vs previous" + " ";
    WithoutAppend(n, " ", c);
    WithoutAppend(n + " ", "workers vs previous", c);
    WithoutAppend(n + " " + "workers vs previous", " ", c);
    WithoutAppend(t1, m, c);
    WithoutAppend(t1 + m, " (", c);
    WithoutAppend(t1 + m + " (", p, c);
    WithoutAppend(t1 + m + " (" + p, "% change; threshold 20%).", c);
  }

  /** A sentence lacking some letter of each phrase is not read as a new-client one. */
  lemma NotNewClient(s: string, c: char, d: char)
    requires Without(s, c) && c in "new-client" && Without(s, d) && d in "runs are always reviewed" && Without(s, 'f')
    ensures !Contains(Lower(s), "new-client") && !Contains(Lower(s), "runs are always reviewed")
    ensures !Contains(Lower(s), "first ")
  {
    WithoutLower(s, c);
    WithoutLower(s, d);
    WithoutLower(s, 'f');
    hide Lower, Contains, Without;
    Lacks(Lower(s), "new-client", c);
    Lacks(Lower(s), "runs are always reviewed", d);
    PhraseLetters();
    Lacks(Lower(s), "first ", 'f');
  }

  lemma RegroupThree(x: string, a: string, b: string, c: string)
    ensures x + a + b + c == x + (a + b + c)
  {
  }

  lemma Regroup(x: string, a: string, b: string, c: string, d: string, e: string)
    ensures x + a + b + c + d + e == x + (a + b + c + d + e)
  {
  }

  lemma NetFromZeroReads(n: string)
    requires NumberText(n)
    ensures Classify(NetFromZeroText(n)) == NetPay
  {
    NetFromZeroLacks(n, 'l');
    NetFromZeroLacks(n, 'f');
    hide Lower, Contains, Without, NumberText;
    PhraseLetters();
    NotNewClient(NetFromZeroText(n), 'l', 'l');
    LowerOfPhrase();
    RegroupThree("Previous run " + "net pay", " was 0; this run is ", n, ".");
    LowerHolds("Previous run ", "net pay", " was 0; this run is " + n + ".");
  }

  lemma NetChangeReads(n: string, m: string, p: string)
    requires NumberText(n) && NumberText(m) && NumberText(p)
    ensures Classify(NetChangeText(n, m, p)) == NetPay
  {
    NetChangeLacks(n, m, p, 'w');
    NetChangeLacks(n, m, p, 'f');
    var s := NetChangeText(n, m, p);
    assert Contains(Lower(s), "net pay") by {
      assert s[..7] == "Net pay";
      assert Lower(s)[0..7] == "net pay";
      ContainsAt(Lower(s), "net pay", 0);
    }
    hide Lower, Contains, Without, NumberText;
    PhraseLetters();
    NotNewClient(s, 'w', 'w');
  }

  lemma WorkersFromZeroReads(n: string)
    requires NumberText(n)
    ensures Classify(WorkersFromZeroText(n)) == Headcount
  {
    WorkersFromZeroLacks(n, 'l');
    WorkersFromZeroLacks(n, 'f');
    WorkersFromZeroLacks(n, 'y');
    var s := WorkersFromZeroText(n);
    WithoutLower(s, 'y');
    hide Lower, Contains, Without, NumberText;
    PhraseLetters();
    NotNewClient(s, 'l', 'l');
    Lacks(Lower(s), "net pay", 'y');
    LowerOfPhrase();
    RegroupThree("Previous run had " + "0 workers", "; this run has ", n, ".");
    LowerHolds("Previous run had ", "0 workers", "; this run has " + n + ".");
  }

  lemma WorkersChangeReads(n: string, m: string, p: string)
    requires forall i :: 0 <= i < |n| ==> IsNumberChar(n[i])
    requires forall i :: 0 <= i < |m| ==> IsNumberChar(m[i])
    requires forall i :: 0 <= i < |p| ==> IsNumberChar(p[i])
    ensures Classify(WorkersChangeText(n, m, p)) == Headcount
  {
    WorkersChangeLacks(n, m, p, '-');
    WorkersChangeLacks(n, m, p, 'y');
    WorkersChangeLacks(n, m, p, 'f');
    var s := WorkersChangeText(n, m, p);
    WithoutLower(s, 'y');
    hide Lower, Contains, Without;
    PhraseLetters();
    NotNewClient(s, '-', 'y');
    Lacks(Lower(s), "net pay", 'y');
    LowerOfPhrase();
    Regroup(n + " " + "workers vs previous", " ", m, " (", p, "% change; threshold 20%).");
    LowerHolds(n + " ", "workers vs previous", " " + m + " (" + p + "% change; threshold 20%).");
  }

  // ------------------------------------------------------------------------- round trip

  /** A sentence that survives being joined, split and stripped. */
  predicate Sentence(s: string) { s != [] && Stripped(s) && '|' !in s }

  lemma StripPadded(s: string)
    requires Stripped(s)
    ensures Strip(s + " ") == s && Strip(" " + s) == s
  {
    StripStrips(s);
    LStripPads(" ", s);
    TrailingSpace(s);
  }

  lemma TrailingSpace(s: string)
    requires Stripped(s)
    ensures Strip(s + " ") == s
  {
    if s == [] {
      LStripPads(" ", []);
      assert " " + [] == " " && s + " " == " ";
    } else {
      assert (s + " ")[0] == s[0] && LStrip(s + " ") == s + " ";
      assert (s + " ")[..|s|] == s;
      assert RStrip(s + " ") == RStrip(s) == s;
    }
  }

  /** A space before a text changes only the first part, and not once it is stripped. */
  lemma ItemsOfPadded(t: string)
    ensures Items(Split('|', " " + t)) == Items(Split('|', t))
  {
    assert (" " + t)[1..] == t;
    var parts := Split('|', t);
    var padded := Split('|', " " + t);
    assert padded == [" " + parts[0]] + parts[1..];
    LStripPads(" ", parts[0]);
    assert Strip(" " + parts[0]) == Strip(parts[0]);
    hide Classify, Split, Strip;
    assert padded[1..] == parts[1..];
  }

  function Labelled(parts: seq<string>): (items: seq<Item>)
    ensures |items| == |parts|
  {
    seq(|parts|, i requires 0 <= i < |parts| => Item(Classify(parts[i]), parts[i]))
  }

  lemma JoinMore(parts: seq<string>)
    requires |parts| > 1
    ensures Join(" | ", parts) == (parts[0] + " ") + "|" + (" " + Join(" | ", parts[1..]))
  {
  }

  /** Sentences joined by the gate come back one by one, each labelled. */
  lemma {:induction false} ItemsOfJoined(parts: seq<string>)
    requires |parts| > 0 && forall i :: 0 <= i < |parts| ==> Sentence(parts[i])
    ensures Items(Split('|', Join(" | ", parts))) == Labelled(parts)
  {
    hide Classify, Sentence, Split, Join, Items;
    if |parts| == 1 {
      OneSentence(parts[0]);
      assert parts == [parts[0]];
    } else {
      ItemsOfJoined(parts[1..]);
      SentenceAhead(parts);
      assert Labelled(parts) == [Item(Classify(parts[0]), parts[0])] + Labelled(parts[1..]);
    }
  }

  lemma OneSentence(s: string)
    requires Sentence(s)
    ensures Items(Split('|', Join(" | ", [s]))) == Labelled([s])
  {
    hide Classify, Strip, Stripped;
    SplitNone('|', s);
    StripStrips(s);
    assert [s][1..] == [];
  }

  /** The first sentence is read off, and what follows is read as if it stood alone. */
  lemma SentenceAhead(parts: seq<string>)
    requires |parts| > 1 && Sentence(parts[0])
    ensures Items(Split('|', Join(" | ", parts)))
         == [Item(Classify(parts[0]), parts[0])] + Items(Split('|', Join(" | ", parts[1..])))
  {
    hide Classify, Strip, Stripped, Split, Join, Items;
    var rest := Join(" | ", parts[1..]);
    JoinMore(parts);
    SplitFirst('|', parts[0] + " ", " " + rest);
    ItemsOfPadded(rest);
    ItemsAppend([parts[0] + " "], Split('|', " " + rest));
    PaddedItem(parts[0]);
  }

  lemma PaddedItem(s: string)
    requires Sentence(s)
    ensures Items([s + " "]) == [Item(Classify(s), s)]
  {
    hide Classify, Strip, Stripped;
    StripPadded(s);
    assert [s + " "][1..] == [];
  }

  /** The joined text starts and ends as its first and last sentences do. */
  lemma {:induction false} JoinedIsSentenceLike(parts: seq<string>)
    requires |parts| > 0 && forall i :: 0 <= i < |parts| ==> Sentence(parts[i])
    ensures Join(" | ", parts) != [] && Stripped(Join(" | ", parts))
  {
    if |parts| > 1 {
      JoinedIsSentenceLike(parts[1..]);
      JoinMore(parts);
      var rest := Join(" | ", parts[1..]);
      var t := Join(" | ", parts);
      assert t[0] == parts[0][0] && t[|t| - 1] == rest[|rest| - 1];
    }
  }

  /** A tripped check as the queue shows it. */
  function Shown(checks: seq<Check>): (items: seq<Item>)
    ensures |items| == |checks|
  {
    seq(|checks|, i requires 0 <= i < |checks| => Item(checks[i].code, checks[i].detail))
  }

  /** Every tripped check's sentence survives and is read back as its rule. */
  ghost predicate Readable(checks: seq<Check>) {
    forall i :: 0 <= i < |checks| && checks[i].tripped ==>
      Sentence(checks[i].detail) && Classify(checks[i].detail) == checks[i].code
  }

  lemma {:induction false} TrippedOnly(checks: seq<Check>)
    requires Readable(checks)
    ensures forall i :: 0 <= i < |Tripped(checks)| ==> Tripped(checks)[i].tripped
    ensures Readable(Tripped(checks))
  {
    hide Sentence, Classify;
    if checks != [] {
      assert forall i :: 0 <= i < |checks[1..]| ==> checks[1..][i] == checks[i + 1];
      TrippedOnly(checks[1..]);
    }
  }

  lemma ReadBack(checks: seq<Check>)
    requires Readable(checks)
    ensures ItemsOf(ApplyRiskGate(checks).reasons) == Shown(Tripped(checks))
  {
    hide Sentence, Classify, Split, Items, Join, Strip, Stripped;
    var tripped := Tripped(checks);
    var details := Details(tripped);
    TrippedOnly(checks);
    if tripped == [] {
      JoinNothing();
      assert details == [];
      StripNothing();
    } else {
      JoinedIsSentenceLike(details);
      StripStrips(Join(" | ", details));
      ItemsOfJoined(details);
      assert Labelled(details) == Shown(tripped);
    }
  }

  lemma JoinNothing()
    ensures Join(" | ", []) == ""
  {
  }

  lemma StripNothing()
    ensures Strip("") == ""
  {
  }

  // --------------------------------------------------------- the gate's own sentences

  lemma EndsStripped(s: string)
    requires s != [] && !IsSpace(s[0]) && s[|s| - 1] == '.'
    ensures Stripped(s)
  {
  }

  lemma DecReads(n: nat)
    ensures NumberText(Dec(n)) && forall i :: 0 <= i < |Dec(n)| ==> IsNumberChar(Dec(n)[i])
  {
    DecIsDigits(n);
  }

  lemma NewClientSentence(ordinal: nat)
    ensures Sentence(NewClientDetail(ordinal))
  {
    var s := NewClientDetail(ordinal);
    DecIsDigits(ordinal);
    assert s[0] == 'R' && s[|s| - 1] == '.';
    EndsStripped(s);
    assert '|' !in Dec(ordinal);
    assert '|' !in "Run #" && '|' !in " for this client; the first 2 ";
    assert '|' !in "runs are always reviewed" && '|' !in ".";
    hide Dec;
  }

  lemma WithoutBar(s: string)
    requires Without(s, '|')
    ensures '|' !in s
  {
    forall i | 0 <= i < |s| ensures s[i] != '|' {
      assert LowerChar(s[i]) != '|';
    }
  }

  /** Whatever the run and the baseline, each tripped sentence is read back as its rule. */
  lemma GateIsReadable(f: Formats, run: Run, prior: nat, previous: Option<Run>)
    requires Numeric(f)
    ensures Readable(EvaluateRun(f, run, prior, previous))
  {
    hide Classify, Sentence, NewClientDetail, NetCheck, HeadcountCheck, Numeric;
    NewClientReads(prior + 1);
    NewClientSentence(prior + 1);
    if previous.Some? {
      NetReadable(f, run, previous.value);
      HeadcountReadable(f, run, previous.value);
    }
  }

  lemma NetReadable(f: Formats, run: Run, previous: Run)
    requires Numeric(f)
    ensures var c := NetCheck(f, run, previous);
      c.code == NetPay && (c.tripped ==> Sentence(c.detail) && Classify(c.detail) == NetPay)
  {
    hide Classify, Without, Stripped;
    match Pct(run.net, previous.net) {
      case None =>
        var s := NetFromZero(f, run.net);
        assert s == NetFromZeroText(f.money(run.net));
        NetFromZeroReads(f.money(run.net));
        NetFromZeroLacks(f.money(run.net), '|');
        WithoutBar(s);
        assert s[0] == 'P' && s[|s| - 1] == '.';
        EndsStripped(s);
      case Some(pct) =>
        var n, m, p := f.money(run.net), f.money(previous.net), f.percent(pct * 100.0);
        var s := NetChange(f, run.net, previous.net, pct);
        assert s == NetChangeText(n, m, p);
        PctIsPositive(run.net, previous.net);
        NetChangeReads(n, m, p);
        NetChangeLacks(n, m, p, '|');
        WithoutBar(s);
        assert s[0] == 'N' && s[|s| - 1] == '.';
        EndsStripped(s);
    }
  }

  lemma PctIsPositive(current: real, previous: real)
    requires previous != 0.0
    ensures Pct(current, previous).value >= 0.0 && Pct(current, previous).value * 100.0 >= 0.0
  {
    DivPositive(Money.Abs(current - previous), Money.Abs(previous));
  }

  lemma DivPositive(a: real, b: real)
    requires a >= 0.0 && b > 0.0
    ensures a / b >= 0.0
  {
  }

  lemma HeadcountReadable(f: Formats, run: Run, previous: Run)
    requires Numeric(f)
    ensures var c := HeadcountCheck(f, run, previous);
      c.code == Headcount && (c.tripped ==> Sentence(c.detail) && Classify(c.detail) == Headcount)
  {
    hide Classify, Without, Stripped;
    DecReads(run.workers);
    DecReads(previous.workers);
    match Pct(run.workers as real, previous.workers as real) {
      case None =>
        var s := WorkersFromZero(run.workers);
        assert s == WorkersFromZeroText(Dec(run.workers));
        WorkersFromZeroReads(Dec(run.workers));
        WorkersFromZeroLacks(Dec(run.workers), '|');
        WithoutBar(s);
        assert s[0] == 'P' && s[|s| - 1] == '.';
        EndsStripped(s);
      case Some(pct) =>
        var n, m, p := Dec(run.workers), Dec(previous.workers), f.percent(pct * 100.0);
        var s := WorkersChange(f, run.workers, previous.workers, pct);
        assert s == WorkersChangeText(n, m, p);
        PctIsPositive(run.workers as real, previous.workers as real);
        WorkersChangeReads(n, m, p);
        WorkersChangeLacks(n, m, p, '|');
        WithoutBar(s);
        assert s[0] == n[0] && IsNumberChar(n[0]) && s[|s| - 1] == '.';
        EndsStripped(s);
    }
  }

  /** The round trip: what the queue shows for a run is exactly the tripped rules, in order,
      each with its own sentence. */
  lemma QueueShowsTheVerdict(f: Formats, run: Run, prior: nat, previous: Option<Run>)
    requires Numeric(f)
    ensures var checks := EvaluateRun(f, run, prior, previous);
      ItemsOf(ApplyRiskGate(checks).reasons) == Shown(Tripped(checks))
  {
    hide *;
    GateIsReadable(f, run, prior, previous);
    ReadBack(EvaluateRun(f, run, prior, previous));
  }

  // --------------------------------------------------------------------------- staleness

  /** Which codes the queue shows for a verdict. */
  lemma ShownCodes(f: Formats, run: Run, prior: nat, previous: Option<Run>)
    ensures var items := Shown(Tripped(EvaluateRun(f, run, prior, previous)));
      && (HasCode(items, NetPay) <==> previous.Some? && NetCheck(f, run, previous.value).tripped)
      && (HasCode(items, Headcount) <==> previous.Some? && HeadcountCheck(f, run, previous.value).tripped)
  {
    hide NewClientDetail, NetFromZero, NetChange, WorkersFromZero, WorkersChange, Dec;
    var checks := EvaluateRun(f, run, prior, previous);
    var items := Shown(Tripped(checks));
    assert checks[1..][1..][1..] == [];
    assert checks[0].code == NewClient && checks[1].code == NetPay && checks[2].code == Headcount;
    CodesOfThree(checks);
  }

  lemma CodesOfThree(checks: seq<Check>)
    requires |checks| == 3 && checks[0].code == NewClient && checks[1].code == NetPay && checks[2].code == Headcount
    ensures HasCode(Shown(Tripped(checks)), NetPay) <==> checks[1].tripped
    ensures HasCode(Shown(Tripped(checks)), Headcount) <==> checks[2].tripped
  {
    var a, b, c := checks[0], checks[1], checks[2];
    assert checks == [a, b, c] && checks[1..] == [b, c] && checks[1..][1..] == [c] && checks[1..][1..][1..] == [];
    var first, second := if a.tripped then [a] else [], if b.tripped then [b] else [];
    var third := if c.tripped then [c] else [];
    assert [b, c][1..] == [c] && [c][1..] == [] && Tripped([]) == [];
    assert Tripped([c]) == third && Tripped([b, c]) == second + third;
    assert Tripped(checks) == first + (second + third);
    var items := Shown(Tripped(checks));
    if b.tripped {
      assert items[|first|].code == NetPay;
    }
    if c.tripped {
      assert items[|first| + |second|].code == Headcount;
    }
    hide Tripped;
  }

  /** The gate's test and the queue's are the same test. */
  lemma ChangeIsPct(current: real, previous: real)
    ensures Pct(current, previous).Some? <==> Change(current, Some(previous)).Some?
    ensures Pct(current, previous).Some? ==>
              Money.Abs(Change(current, Some(previous)).value) == Pct(current, previous).value
  {
    if previous != 0.0 {
      AbsOfQuotient(current - previous, previous);
    }
  }

  lemma AbsOfQuotient(a: real, b: real)
    requires b != 0.0
    ensures Money.Abs(a / b) == Money.Abs(a) / Money.Abs(b)
  {
    var q := a / b;
    assert q * b == a;
    QuotientIs(Money.Abs(q), Money.Abs(b), Money.Abs(a));
  }

  lemma QuotientIs(q: real, b: real, a: real)
    requires b > 0.0 && q * b == a
    ensures a / b == q
  {
  }

  /** A verdict is marked stale exactly when the baseline found now has a total that is not
      zero and a rule on record no longer trips against it. */
  lemma StaleIff(f: Formats, run: Run, prior: nat, scored: Option<Run>, now: Option<Run>)
    requires Numeric(f)
    ensures MarkedStale(ApplyRiskGate(EvaluateRun(f, run, prior, scored)), run, now) <==>
              && scored.Some? && now.Some?
              && ((NetCheck(f, run, scored.value).tripped && now.value.net != 0.0
                   && !NetCheck(f, run, now.value).tripped)
                  || (HeadcountCheck(f, run, scored.value).tripped && now.value.workers != 0
                      && !HeadcountCheck(f, run, now.value).tripped))
  {
    hide EvaluateRun, ApplyRiskGate, ItemsOf, Tripped, HasCode, NetFromZero, NetChange, WorkersFromZero, WorkersChange;
    QueueShowsTheVerdict(f, run, prior, scored);
    ShownCodes(f, run, prior, scored);
    if now.Some? {
      ChangeIsPct(run.net, now.value.net);
      ChangeIsPct(run.workers as real, now.value.workers as real);
    }
  }

  /** While run and baseline are what was scored, no verdict is stale. */
  lemma NotStaleWhileUnchanged(f: Formats, run: Run, prior: nat, previous: Option<Run>)
    requires Numeric(f)
    ensures !MarkedStale(ApplyRiskGate(EvaluateRun(f, run, prior, previous)), run, previous)
  {
    hide *;
    StaleIff(f, run, prior, previous, previous);
  }

  /** The comparison's net and workers flags are the gate's verdicts. */
  lemma FlagsAgree(f: Formats, run: Run, previous: Run)
    ensures Compare(run, previous, Net).flag == NetCheck(f, run, previous).tripped
    ensures Compare(run, previous, Workers).flag == HeadcountCheck(f, run, previous).tripped
  {
    hide Pct, NetFromZero, NetChange, WorkersFromZero, WorkersChange;
  }

  // ------------------------------------------------------------------ when rules trip

  /** The change of an amount, held against a share of what it was. */
  predicate Swings(current: real, before: real, share: real) {
    Money.Abs(current - before) > Money.Times(share, Money.Abs(before))
  }

  lemma PctSwings(current: real, before: real, share: real)
    ensures before == 0.0 <==> Pct(current, before).None?
    ensures before == 0.0 ==> (Swings(current, before, share) <==> current != 0.0)
    ensures before != 0.0 ==> (Swings(current, before, share) <==> Pct(current, before).value > share)
    ensures before != 0.0 ==> Money.Times(Pct(current, before).value, Money.Abs(before)) == Money.Abs(current - before)
  {
    if before != 0.0 {
      var p, b := Pct(current, before).value, Money.Abs(before);
      assert p == Money.Abs(current - before) / b;
      Money.DivMul(Money.Abs(current - before), b);
      Larger(p, share, b);
    }
  }

  lemma Larger(p: real, share: real, b: real)
    requires b > 0.0
    ensures p * b > share * b <==> p > share
  {
    if p > share {
      assert (p - share) * b > 0.0;
    } else {
      assert (share - p) * b >= 0.0;
    }
  }

  /** The first two runs of a client trip the first rule; a swing of net pay beyond 15% of
      the baseline's trips the second, and of the workers beyond a fifth of them the third,
      anything at all being a swing from zero. */
  lemma TripsIff(f: Formats, run: Run, prior: nat, previous: Run)
    ensures NewClientCheck(prior).tripped <==> prior + 1 <= 2
    ensures NetCheck(f, run, previous).tripped <==> Swings(run.net, previous.net, 0.15)
    ensures HeadcountCheck(f, run, previous).tripped <==>
              5 * (if run.workers >= previous.workers then run.workers - previous.workers
                   else previous.workers - run.workers) > previous.workers
  {
    hide Pct, Swings, NetFromZero, NetChange, WorkersFromZero, WorkersChange, NewClientDetail;
    PctSwings(run.net, previous.net, 0.15);
    PctSwings(run.workers as real, previous.workers as real, 0.20);
    FifthOf(run.workers, previous.workers);
  }

  lemma FifthOf(n: nat, m: nat)
    ensures Swings(n as real, m as real, 0.20) <==> 5 * (if n >= m then n - m else m - n) > m
  {
    if n >= m {
      assert (n - m) as real == n as real - m as real;
      assert (5 * (n - m)) as real == 5.0 * (n - m) as real;
    } else {
      assert (m - n) as real == m as real - n as real;
      assert (5 * (m - n)) as real == 5.0 * (m - n) as real;
    }
  }

  /** A run is held, and a reason is on record, exactly if a rule trips; without a baseline
      only the first can. */
  lemma HeldIff(f: Formats, run: Run, prior: nat, previous: Option<Run>)
    requires Numeric(f)
    ensures var stored := ApplyRiskGate(EvaluateRun(f, run, prior, previous));
      && (stored.held <==>
            || prior < 2
            || (previous.Some? && (NetCheck(f, run, previous.value).tripped
                                   || HeadcountCheck(f, run, previous.value).tripped)))
      && (stored.held <==> stored.reasons.Some?)
  {
    hide Sentence, Classify, NewClientDetail, NetCheck, HeadcountCheck;
    var checks := EvaluateRun(f, run, prior, previous);
    GateIsReadable(f, run, prior, previous);
    TrippedOnly(checks);
    TrippedOfThree(checks);
    if Tripped(checks) != [] {
      JoinedIsSentenceLike(Details(Tripped(checks)));
    } else {
      JoinNothing();
      assert Details(Tripped(checks)) == [];
    }
  }

  lemma TrippedOfThree(checks: seq<Check>)
    requires |checks| == 3
    ensures Tripped(checks) != [] <==> checks[0].tripped || checks[1].tripped || checks[2].tripped
  {
    assert checks[1..][0] == checks[1] && checks[1..][1..][0] == checks[2];
    assert checks[1..][1..][1..] == [];
    assert Tripped(checks[1..][1..]) != [] <==> checks[2].tripped;
    assert Tripped(checks[1..]) != [] <==> checks[1].tripped || checks[2].tripped;
  }

  /** A row of the comparison: the change, its share of what was, and whether it is beyond a
      fifth for the workers and 15% for the four amounts. */
  lemma CompareMeans(run: Run, previous: Run, m: Metric)
    ensures var row, before := Compare(run, previous, m), MetricValue(previous, m);
      && row.metric == m && before + row.delta == MetricValue(run, m)
      && (row.flag <==> Swings(before + row.delta, before, if m == Workers then 0.2 else 0.15))
      && (row.pct.None? <==> before == 0.0)
      && (row.pct.Some? ==> Money.Times(row.pct.value, Money.Abs(before)) == Money.Abs(row.delta))
  {
    hide Pct, Swings;
    var current, before := MetricValue(run, m), MetricValue(previous, m);
    PctSwings(current, before, if m == Workers then 0.2 else 0.15);
    assert before + (current - before) == current;
  }

  /** The five figures compared, taxes being PAYE and SSNIT together. */
  lemma MetricDeltas(run: Run, previous: Run)
    ensures METRICS == [Workers, Gross, Deductions, Taxes, Net]
    ensures Compare(run, previous, Workers).delta == run.workers as real - previous.workers as real
    ensures Compare(run, previous, Gross).delta == run.gross - previous.gross
    ensures Compare(run, previous, Deductions).delta == run.deductions - previous.deductions
    ensures Compare(run, previous, Taxes).delta == (run.paye - previous.paye) + (run.ssnit - previous.ssnit)
    ensures Compare(run, previous, Net).delta == run.net - previous.net
  {
    hide Pct;
  }

  /** What a tripped rule says. */
  lemma SentencesSay(f: Formats, run: Run, prior: nat, previous: Run)
    ensures NewClientCheck(prior).tripped ==>
              NewClientCheck(prior).detail ==
                "Run #" + Dec(prior + 1) + " for this client; the first 2 runs are always reviewed."
    ensures NetCheck(f, run, previous).tripped && previous.net == 0.0 ==>
              NetCheck(f, run, previous).detail ==
                "Previous run net pay was 0; this run is " + f.money(run.net) + "."
    ensures NetCheck(f, run, previous).tripped && previous.net != 0.0 ==>
              NetCheck(f, run, previous).detail ==
                "Net pay " + f.money(run.net) + " vs previous " + f.money(previous.net)
                + " (" + f.percent(Pct(run.net, previous.net).value * 100.0) + "% change; threshold 15%)."
    ensures HeadcountCheck(f, run, previous).tripped && previous.workers == 0 ==>
              HeadcountCheck(f, run, previous).detail ==
                "Previous run had 0 workers; this run has " + Dec(run.workers) + "."
    ensures HeadcountCheck(f, run, previous).tripped && previous.workers != 0 ==>
              HeadcountCheck(f, run, previous).detail ==
                Dec(run.workers) + " workers vs previous " + Dec(previous.workers)
                + " (" + f.percent(Pct(run.workers as real, previous.workers as real).value * 100.0)
                + "% change; threshold 20%)."
  {
    hide Dec, Pct, NetFromZero, NetChange, WorkersFromZero, WorkersChange;
    PctSwings(run.net, previous.net, 0.15);
    PctSwings(run.workers as real, previous.workers as real, 0.20);
    hide Swings;
    NetSays(f, run.net, previous.net, Pct(run.net, previous.net));
    WorkersSay(f, run.workers, previous.workers, Pct(run.workers as real, previous.workers as real));
    ReviewSays(Dec(prior + 1));
  }

  lemma ReviewSays(n: string)
    ensures "Run #" + n + " for this client; the first 2 " + "runs are always reviewed" + "."
         == "Run #" + n + " for this client; the first 2 runs are always reviewed."
  {
    assert " for this client; the first 2 " + "runs are always reviewed" + "."
        == " for this client; the first 2 runs are always reviewed.";
  }

  lemma NetSays(f: Formats, net: real, previous: real, pct: Option<real>)
    ensures NetFromZero(f, net) == "Previous run net pay was 0; this run is " + f.money(net) + "."
    ensures pct.Some? ==>
              NetChange(f, net, previous, pct.value) ==
                "Net pay " + f.money(net) + " vs previous " + f.money(previous)
                + " (" + f.percent(pct.value * 100.0) + "% change; threshold 15%)."
  {
    assert "Previous run " + "net pay" + " was 0; this run is " == "Previous run net pay was 0; this run is ";
    assert "Net pay" + " " == "Net pay ";
  }

  lemma WorkersSay(f: Formats, n: nat, previous: nat, pct: Option<real>)
    ensures WorkersFromZero(n) == "Previous run had 0 workers; this run has " + Dec(n) + "."
    ensures pct.Some? ==>
              WorkersChange(f, n, previous, pct.value) ==
                Dec(n) + " workers vs previous " + Dec(previous)
                + " (" + f.percent(pct.value * 100.0) + "% change; threshold 20%)."
  {
    hide Dec;
    assert "Previous run had " + "0 workers" + "; this run has " == "Previous run had 0 workers; this run has ";
    assert Dec(n) + " " + "workers vs previous" + " " == Dec(n) + " workers vs previous ";
  }

  /** Stored text is read piece by piece: each that is not blank is one item, stripped and
      labelled, and nothing else is. */
  lemma OnePiece(before: seq<string>, piece: string)
    ensures Items(before + [piece]) ==
              Items(before) + (if Strip(piece) == "" then [] else [Item(Classify(Strip(piece)), Strip(piece))])
  {
    hide Classify, Strip;
    ItemsAppend(before, [piece]);
    assert [piece][1..] == [];
  }

  /** Reasons in the words of older versions are still read as their rule, whatever stands
      around the phrase, a phrase of an earlier rule going first. */
  lemma PhrasesDecide(before: string, after: string)
    ensures Classify(before + "new-client" + after) == NewClient
    ensures Classify(before + "runs are always reviewed" + after) == NewClient
    ensures Classify(before + "first " + after) == NewClient
    ensures Classify(before + "net pay" + after) in {NewClient, NetPay}
    ensures Classify(before + "workers vs previous" + after) in {NewClient, NetPay, Headcount}
    ensures Classify(before + "worker count" + after) in {NewClient, NetPay, Headcount}
    ensures Classify(before + "0 workers" + after) in {NewClient, NetPay, Headcount}
  {
    hide Lower, Contains;
    LowerOfPhrase();
    Small("new-client");
    Small("first ");
    Small("worker count");
    LowerHolds(before, "new-client", after);
    LowerHolds(before, "runs are always reviewed", after);
    LowerHolds(before, "first ", after);
    LowerHolds(before, "net pay", after);
    LowerHolds(before, "workers vs previous", after);
    LowerHolds(before, "worker count", after);
    LowerHolds(before, "0 workers", after);
  }

  function Paying(net: real): Run { Run(net, 10, 0.0, 0.0, 0.0, 0.0) }

  /** A run that pays nothing, held against a baseline that paid 100: the baseline moves to
      0, the rule no longer trips, and nothing is marked. */
  lemma ZeroBaselineGoesUnmarked(f: Formats)
    requires Numeric(f)
    ensures var stored := ApplyRiskGate(EvaluateRun(f, Paying(0.0), 2, Some(Paying(100.0))));
      && stored.held && !NetCheck(f, Paying(0.0), Paying(0.0)).tripped
      && !MarkedStale(stored, Paying(0.0), Some(Paying(0.0)))
  {
    hide MarkedStale, NetChange, WorkersChange, NetFromZero, WorkersFromZero, NewClientDetail, Dec;
    var run, scored, now := Paying(0.0), Paying(100.0), Paying(0.0);
    StaleIff(f, run, 2, Some(scored), Some(now));
    assert Pct(0.0, 100.0) == Some(1.0);
    assert NetCheck(f, run, scored).tripped;
    ShownCodes(f, run, 2, Some(scored));
    var checks := EvaluateRun(f, run, 2, Some(scored));
    hide EvaluateRun, Tripped;
    assert Shown(Tripped(checks)) != [];
  }

  /** Against a baseline of 95 the verdict on a run of 100 scored against 50 is marked. */
  lemma MovedBaselineIsMarked(f: Formats)
    requires Numeric(f)
    ensures MarkedStale(ApplyRiskGate(EvaluateRun(f, Paying(100.0), 2, Some(Paying(50.0)))), Paying(100.0),
                        Some(Paying(95.0)))
  {
    hide MarkedStale, NetChange, WorkersChange, NetFromZero, WorkersFromZero, NewClientDetail, Dec;
    hide EvaluateRun, ApplyRiskGate;
    assert Pct(100.0, 50.0) == Some(1.0);
    assert Pct(100.0, 95.0) == Some(5.0 / 95.0) && 5.0 / 95.0 <= 0.15;
    StaleIff(f, Paying(100.0), 2, Some(Paying(50.0)), Some(Paying(95.0)));
  }
}
