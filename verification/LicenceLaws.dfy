/** What a licence payload tells apart and what it does not (app/licensing.py). */
module LicenceLaws {
  import opened Outcomes
  import opened Sorting
  import opened Text
  import opened TextWords
  import opened Licence
  import HeaderImport
  import LabelLaws

  // ----------------------------------------------------------------- feature lists as sets

  lemma {:induction false} DedupIsSet(xs: seq<string>)
    ensures forall x :: x in Dedup(xs) <==> x in xs
    ensures forall i, j :: 0 <= i < j < |Dedup(xs)| ==> Dedup(xs)[i] != Dedup(xs)[j]
  {
    if xs != [] {
      DedupIsSet(xs[..|xs| - 1]);
      assert xs == xs[..|xs| - 1] + [xs[|xs| - 1]];
    }
  }

  lemma {:induction false} DistinctCount(xs: seq<string>)
    requires forall i, j :: 0 <= i < j < |xs| ==> xs[i] != xs[j]
    ensures forall x :: multiset(xs)[x] == if x in xs then 1 else 0
  {
    forall x ensures multiset(xs)[x] == if x in xs then 1 else 0 {
      CountedTwice(xs, x);
      if x in xs {
        assert x in multiset(xs);
      } else {
        assert x !in multiset(xs);
      }
    }
  }

  lemma SetDecides(xs: seq<string>, ys: seq<string>)
    requires forall x :: x in xs <==> x in ys
    ensures Canonical(xs) == Canonical(ys)
  {
    hide Dedup, Sort, Join, ByCode;
    DedupIsSet(xs);
    DedupIsSet(ys);
    DistinctCount(Dedup(xs));
    DistinctCount(Dedup(ys));
    assert multiset(Dedup(xs)) == multiset(Dedup(ys));
    ByCodeIsOrder();
    SortSorts(ByCode(), Dedup(xs));
    SortSorts(ByCode(), Dedup(ys));
    SortedUnique(ByCode(), Sort(ByCode(), Dedup(xs)), Sort(ByCode(), Dedup(ys)));
  }

  /** Cleaned features are not empty and hold no separator. */
  ghost predicate Clean(xs: seq<string>) { forall x :: x in xs ==> x != [] && ',' !in x && '|' !in x }

  lemma {:induction false} CleanedIsClean(items: seq<string>)
    ensures Cleaned(items).Ok? ==> Clean(Cleaned(items).value)
    ensures Cleaned(items).Ok? ==>
              forall x :: x in Cleaned(items).value <==> x != [] && exists i :: 0 <= i < |items| && Strip(items[i]) == x
    ensures Cleaned(items).Ok? <==> forall i :: 0 <= i < |items| ==> ',' !in Strip(items[i]) && '|' !in Strip(items[i])
  {
    hide Strip;
    if items != [] {
      var before, last := items[..|items| - 1], items[|items| - 1];
      CleanedIsClean(before);
      assert items == before + [last];
      assert forall i :: 0 <= i < |before| ==> items[i] == before[i];
    }
  }

  lemma SortedMembers(xs: seq<string>)
    ensures forall x :: x in Sort(ByCode(), Dedup(xs)) <==> x in xs
  {
    hide Dedup, Sort, ByCode;
    DedupIsSet(xs);
    ByCodeIsOrder();
    SortSorts(ByCode(), Dedup(xs));
    forall x ensures x in Sort(ByCode(), Dedup(xs)) <==> x in xs {
      assert x in Sort(ByCode(), Dedup(xs)) <==> x in multiset(Sort(ByCode(), Dedup(xs)));
      assert x in Dedup(xs) <==> x in multiset(Dedup(xs));
    }
  }

  /** The canonical text tells two cleaned lists apart exactly if they differ as sets. */
  lemma CanonicalIffSet(xs: seq<string>, ys: seq<string>)
    requires Clean(xs) && Clean(ys)
    ensures Canonical(xs) == Canonical(ys) <==> forall x :: x in xs <==> x in ys
  {
    hide Dedup, Sort, ByCode, Join;
    var a, b := Sort(ByCode(), Dedup(xs)), Sort(ByCode(), Dedup(ys));
    SortedMembers(xs);
    SortedMembers(ys);
    if forall x :: x in xs <==> x in ys {
      SetDecides(xs, ys);
    }
    if Canonical(xs) == Canonical(ys) {
      JoinedParts(a, b);
    }
  }

  /** Joined lists of non-empty parts are equal only part by part. */
  lemma JoinedParts(a: seq<string>, b: seq<string>)
    requires Join(",", a) == Join(",", b)
    requires forall x :: x in a ==> x != [] && ',' !in x
    requires forall x :: x in b ==> x != [] && ',' !in x
    ensures a == b
  {
    NotEmptyJoin(a);
    NotEmptyJoin(b);
    hide Join;
    if a != [] && b != [] {
      assert "," == [','];
      assert forall i :: 0 <= i < |a| ==> a[i] in a;
      assert forall i :: 0 <= i < |b| ==> b[i] in b;
      JoinInjective(',', a, b);
    }
  }

  lemma NotEmptyJoin(a: seq<string>)
    requires forall x :: x in a ==> x != []
    ensures Join(",", a) == [] <==> a == []
  {
    if a != [] {
      assert a[0] in a;
    }
  }

  /** a comes before b: it is a shorter start of it, or has the smaller character where the
      two first differ. */
  predicate Before(a: string, b: string) {
    exists k: nat :: k <= |a| && k < |b| && a[..k] == b[..k] && (k == |a| || a[k] < b[k])
  }

  lemma BeforeCons(a: string, b: string)
    requires a != [] && b != []
    ensures Before(a, b) <==> a[0] < b[0] || (a[0] == b[0] && Before(a[1..], b[1..]))
  {
    if k: nat :| k <= |a| && k < |b| && a[..k] == b[..k] && (k == |a| || a[k] < b[k]) {
      if k > 0 {
        assert a[0] == a[..k][0] == b[..k][0] == b[0];
        assert a[1..][..k - 1] == a[..k][1..] && b[1..][..k - 1] == b[..k][1..];
      }
    }
    if a[0] < b[0] {
      assert a[..0] == b[..0];
    }
    if k: nat :| a[0] == b[0] && k <= |a[1..]| && k < |b[1..]| && a[1..][..k] == b[1..][..k]
                 && (k == |a[1..]| || a[1..][k] < b[1..][k]) {
      assert a[..k + 1] == [a[0]] + a[1..][..k] && b[..k + 1] == [b[0]] + b[1..][..k];
      assert k + 1 < |a| ==> a[1..][k] == a[k + 1] && b[1..][k] == b[k + 1];
    }
  }

  lemma BeforeNothing(a: string, b: string)
    requires a == [] || b == []
    ensures Before(a, b) <==> b != []
  {
    if b != [] {
      assert a[..0] == b[..0];
    }
  }

  lemma {:induction false} StrLeqIff(a: string, b: string)
    ensures StrLeq(a, b) <==> a == b || Before(a, b)
  {
    hide Before;
    if a != [] && b != [] {
      StrLeqIff(a[1..], b[1..]);
      BeforeCons(a, b);
      assert a == [a[0]] + a[1..] && b == [b[0]] + b[1..];
    } else {
      BeforeNothing(a, b);
    }
  }

  /** Cut at its commas, the canonical text gives each feature once, in ascending order. */
  lemma FeaturesAscend(xs: seq<string>)
    requires Clean(xs) && xs != []
    ensures var parts := Split(',', Canonical(xs));
      && (forall x :: x in parts <==> x in xs)
      && (forall i, j :: 0 <= i < j < |parts| ==> Before(parts[i], parts[j]))
  {
    hide Dedup, Sort, ByCode, Join, Split, StrLeq, Before;
    var sorted := Sort(ByCode(), Dedup(xs));
    SortedMembers(xs);
    assert xs[0] in sorted;
    assert "," == [','];
    assert forall i :: 0 <= i < |sorted| ==> sorted[i] in sorted;
    SplitJoin(',', sorted);
    DedupIsSet(xs);
    DistinctCount(Dedup(xs));
    ByCodeIsOrder();
    SortSorts(ByCode(), Dedup(xs));
    forall i, j | 0 <= i < j < |sorted| ensures Before(sorted[i], sorted[j]) {
      InOrder(sorted, i, j);
      OccursOnce(sorted, i, j);
      StrLeqIff(sorted[i], sorted[j]);
    }
  }

  lemma InOrder(xs: seq<string>, i: nat, j: nat)
    requires SortedBy(ByCode(), xs) && i < j < |xs|
    ensures StrLeq(xs[i], xs[j])
  {
    hide StrLeq;
    assert ByCode()(xs[i], xs[j]);
  }

  lemma OccursOnce(xs: seq<string>, i: nat, j: nat)
    requires i < j < |xs| && forall x :: multiset(xs)[x] <= 1
    ensures xs[i] != xs[j]
  {
    CountedTwice(xs, xs[i]);
  }

  // ------------------------------------------------------------------------ the payload

  /** The features as a set of stripped names. */
  ghost predicate Has(f: Features, x: string) {
    f.Listed? && x != [] && exists i :: 0 <= i < |f.items| && Strip(f.items[i]) == x
  }

  lemma FeaturesIff(f: Features, g: Features)
    requires FeatureText(f).Ok? && FeatureText(g).Ok?
    ensures FeatureText(f) == FeatureText(g) <==> forall x :: Has(f, x) <==> Has(g, x)
  {
    hide Cleaned, Canonical, Strip;
    var xs := if f.Listed? then Cleaned(f.items).value else [];
    var ys := if g.Listed? then Cleaned(g.items).value else [];
    if f.Listed? {
      CleanedIsClean(f.items);
    }
    if g.Listed? {
      CleanedIsClean(g.items);
    }
    CanonicalOfNone();
    CanonicalIffSet(xs, ys);
    assert forall x :: Has(f, x) <==> x in xs;
    assert forall x :: Has(g, x) <==> x in ys;
  }

  lemma CanonicalOfNone()
    ensures Canonical([]) == ""
  {
    assert Dedup([]) == [];
    assert Sort(ByCode(), []) == [];
  }

  /** Part by part, two sets of terms that can be signed agree. */
  ghost predicate Agree(t: Terms, u: Terms) {
    && Strip(t.installId) == Strip(u.installId)
    && Strip(t.licenseExpiry) == Strip(u.licenseExpiry)
    && Strip(t.firmName) == Strip(u.firmName)
    && Strip(t.licenseId) == Strip(u.licenseId)
    && Strip(t.plan) == Strip(u.plan)
    && Strip(t.issued) == Strip(u.issued)
    && t.maxEmployees == u.maxEmployees
    && forall x :: Has(t.features, x) <==> Has(u.features, x)
  }

  lemma FieldsHaveNoDelimiter(t: Terms)
    requires Signable(t)
    ensures forall i :: 0 <= i < 8 ==> '|' !in Fields(t)[i]
  {
    hide Part;
    forall i: nat | i < 8 ensures '|' !in Fields(t)[i] {
      assert SignedPart(t, i).Ok?;
    }
  }

  /** Equal payloads have equal fields: the delimiter never occurs in one. */
  lemma PayloadInjective(t: Terms, u: Terms)
    requires Signable(t) && Signable(u)
    ensures Payload(t) == Payload(u) <==> Fields(t) == Fields(u)
  {
    hide Fields, Join;
    FieldsHaveNoDelimiter(t);
    FieldsHaveNoDelimiter(u);
    var a, b := [PREFIX, VERSION] + Fields(t), [PREFIX, VERSION] + Fields(u);
    assert "|" == ['|'];
    forall i | 0 <= i < |a| ensures '|' !in a[i] && '|' !in b[i] {
      assert i >= 2 ==> a[i] == Fields(t)[i - 2] && b[i] == Fields(u)[i - 2];
    }
    if Payload(t) == Payload(u) {
      JoinInjective('|', a, b);
      assert a[2..] == Fields(t) && b[2..] == Fields(u);
    }
  }

  lemma FieldAt(t: Terms, i: nat)
    requires Signable(t) && i < 8
    ensures Part(t, i).Ok? && Fields(t)[i] == Part(t, i).value
  {
    hide Part;
    assert SignedPart(t, i).Ok?;
  }

  lemma CountIff(m: Option<int>, n: Option<int>)
    requires CountText(m).Ok? && CountText(n).Ok?
    ensures CountText(m) == CountText(n) <==> m == n
  {
    if CountText(m) == CountText(n) {
      DecInjective(m.value, n.value);
    }
  }

  lemma FieldsIff(t: Terms, u: Terms)
    requires Signable(t) && Signable(u)
    ensures Fields(t) == Fields(u) <==> Agree(t, u)
  {
    hide Strip, FeatureText, CountText, Signable, Fields;
    forall i: nat | i < 8
      ensures Part(t, i).Ok? && Part(u, i).Ok?
      ensures Fields(t)[i] == Fields(u)[i] <==> Part(t, i) == Part(u, i)
    {
      FieldAt(t, i);
      FieldAt(u, i);
    }
    assert Part(t, 0).Ok? && Part(t, 1).Ok? && Part(t, 2).Ok? && Part(t, 3).Ok?;
    assert Part(t, 4).Ok? && Part(t, 5).Ok? && Part(t, 6).Ok? && Part(t, 7).Ok?;
    CountIff(t.maxEmployees, u.maxEmployees);
    FeaturesIff(t.features, u.features);
    assert Fields(t) == Fields(u) <==> forall i: nat :: i < 8 ==> Part(t, i) == Part(u, i);
  }

  /** Two sets of terms have one signature text exactly if they agree in every field, taking
      the features as a set and leaving outer white space aside. */
  lemma SamePayloadIffAgree(t: Terms, u: Terms)
    requires Signable(t) && Signable(u)
    ensures Payload(t) == Payload(u) <==> Agree(t, u)
  {
    hide *;
    PayloadInjective(t, u);
    FieldsIff(t, u);
  }

  // ------------------------------------------------------------------- what can be signed

  predicate Writable(value: string) { Strip(value) != [] && '|' !in Strip(value) }

  predicate Usable(f: Features) {
    match f
    case Absent => true
    case Single(_) => false
    case Listed(items) => forall i :: 0 <= i < |items| ==> ',' !in Strip(items[i]) && '|' !in Strip(items[i])
  }

  lemma FeatureTextHasNoDelimiter(f: Features)
    ensures FeatureText(f).Ok? <==> Usable(f)
    ensures FeatureText(f).Ok? ==> '|' !in FeatureText(f).value
  {
    hide Strip, Cleaned, Sort, Dedup, ByCode, Join;
    if f.Listed? {
      CleanedIsClean(f.items);
      if Cleaned(f.items).Ok? {
        var xs := Cleaned(f.items).value;
        SortedMembers(xs);
        JoinHolds(Sort(ByCode(), Dedup(xs)), '|');
      }
    }
  }

  lemma {:induction false} JoinHolds(parts: seq<string>, c: char)
    requires c != ',' && forall x :: x in parts ==> c !in x
    ensures c !in Join(",", parts)
  {
    if parts != [] {
      assert parts[0] in parts;
      JoinHolds(parts[1..], c);
    }
  }

  lemma CountHasNoDelimiter(n: Option<int>)
    ensures CountText(n).Ok? <==> n.Some? && n.value >= 1
    ensures CountText(n).Ok? ==> '|' !in CountText(n).value
  {
    if n.Some? && n.value >= 1 {
      DecIsDigits(n.value);
      assert !IsDigit('|');
    }
  }

  /** Cut at its delimiters, the payload names the product and the version, and then gives
      the eight terms in order, each as it is signed. */
  lemma PayloadSpelled(t: Terms)
    requires Signable(t)
    ensures t.maxEmployees.Some? && t.maxEmployees.value >= 1 && FeatureText(t.features).Ok?
    ensures Split('|', Payload(t)) ==
              ["payrolla-desktop", "v2", Strip(t.installId), Strip(t.licenseExpiry), Strip(t.firmName),
               Strip(t.licenseId), Strip(t.plan), Strip(t.issued), Dec(t.maxEmployees.value),
               FeatureText(t.features).value]
  {
    hide Strip, FeatureText, Fields, Join, Split, Dec, Signable;
    FieldsHaveNoDelimiter(t);
    var parts := [PREFIX, VERSION] + Fields(t);
    assert "|" == ['|'];
    forall i | 0 <= i < |parts| ensures '|' !in parts[i] {
      assert i >= 2 ==> parts[i] == Fields(t)[i - 2];
    }
    SplitJoin('|', parts);
    FieldAt(t, 0);
    FieldAt(t, 1);
    FieldAt(t, 2);
    FieldAt(t, 3);
    FieldAt(t, 4);
    FieldAt(t, 5);
    FieldAt(t, 6);
    FieldAt(t, 7);
  }

  /** The error of a field names it: it is empty, or holds the delimiter. */
  lemma FieldErrors(t: Terms, i: nat)
    requires i < 6
    ensures var names := ["install_id", "license_expiry", "firm_name", "license_id", "plan", "issued"];
      var value := [t.installId, t.licenseExpiry, t.firmName, t.licenseId, t.plan, t.issued][i];
      && (SignedPart(t, i) == Err(EmptyField(names[i])) <==> Strip(value) == "")
      && (SignedPart(t, i) == Err(FieldHasDelimiter(names[i])) <==> '|' in Strip(value))
      && (SignedPart(t, i) == Ok(Strip(value)) <==> Writable(value))
  {
    hide Strip;
  }

  /** The first feature that holds a separator is the one complained of. */
  lemma {:induction false} BadFeatureIsFirst(items: seq<string>)
    requires Cleaned(items).Err?
    ensures exists i :: 0 <= i < |items| && Cleaned(items) == Err(BadFeature(Strip(items[i])))
                        && (',' in Strip(items[i]) || '|' in Strip(items[i]))
                        && forall j :: 0 <= j < i ==> ',' !in Strip(items[j]) && '|' !in Strip(items[j])
  {
    hide Strip;
    var before, last := items[..|items| - 1], |items| - 1;
    assert forall i :: 0 <= i < |before| ==> items[i] == before[i];
    if Cleaned(before).Err? {
      BadFeatureIsFirst(before);
    } else {
      CleanedIsClean(before);
      assert Cleaned(items) == Err(BadFeature(Strip(items[last])));
    }
  }

  /** The errors of the last two fields: the number of employees, and the features. */
  lemma LastErrors(t: Terms)
    ensures SignedPart(t, 6) == (if t.maxEmployees.None? then Err(NotANumber)
                                 else if t.maxEmployees.value < 1 then Err(TooFew(t.maxEmployees.value))
                                 else Ok(Dec(t.maxEmployees.value)))
    ensures SignedPart(t, 7) == FeatureText(t.features)
  {
    hide FeatureText, Dec;
    CountHasNoDelimiter(t.maxEmployees);
    FeatureTextHasNoDelimiter(t.features);
  }

  /** Exactly which terms can be signed. */
  lemma SignableIff(t: Terms)
    ensures Signable(t) <==>
              && Writable(t.installId) && Writable(t.licenseExpiry) && Writable(t.firmName)
              && Writable(t.licenseId) && Writable(t.plan) && Writable(t.issued)
              && t.maxEmployees.Some? && t.maxEmployees.value >= 1 && Usable(t.features)
  {
    hide Strip, FeatureText, CountText, Usable;
    CountHasNoDelimiter(t.maxEmployees);
    FeatureTextHasNoDelimiter(t.features);
    assert Signable(t) <==>
      && SignedPart(t, 0).Ok? && SignedPart(t, 1).Ok? && SignedPart(t, 2).Ok? && SignedPart(t, 3).Ok?
      && SignedPart(t, 4).Ok? && SignedPart(t, 5).Ok? && SignedPart(t, 6).Ok? && SignedPart(t, 7).Ok?;
  }

  /** A cleaned firm name can always be signed, and cleaning fails exactly on names that
      hold nothing but white space, control characters and delimiters. */
  lemma CleanFirmNameSigns(name: string)
    ensures CleanFirmName(name).Err? <==> forall i :: 0 <= i < |name| ==> Unsignable(name[i]) || IsSpace(name[i])
    ensures CleanFirmName(name).Ok? ==> Writable(CleanFirmName(name).value) && |CleanFirmName(name).value| <= 160
  {
    hide Strip, Collapse, LStrip, RStrip, IsSpace;
    var spaced := Spaced(name);
    var text := Strip(Collapse(spaced));
    forall c | !IsSpace(c) ensures c in text <==> c in spaced {
      StripKeeps(spaced, c);
    }
    StripStrips(Collapse(spaced));
    NameLeft(name, spaced, text);
    if text != [] {
      StripOfTaken(text, 160);
    }
  }

  /** What is kept of a firm's name: its words, one space apart, up to 160 characters, where
      a control character or the delimiter stands for white space. */
  lemma FirmNameKept(name: string)
    ensures forall i :: 0 <= i < |name| ==>
              Spaced(name)[i] == if name[i] < ' ' || name[i] == '\U{7f}' || name[i] == '|' then ' ' else name[i]
    ensures var words := Join(" ", Words(Spaced(name)));
      CleanFirmName(name) == if words == "" then Err(EmptyField("firm_name"))
                             else Ok(if |words| <= 160 then words else words[..160])
  {
    hide Strip, Collapse, Words, Join;
    CollapsedIsWords(Spaced(name));
    var words := Strip(Collapse(Spaced(name)));
    assert Take(words, 160) == if |words| <= 160 then words else words[..160];
    assert words == "" <==> Take(words, 160) == "";
  }

  lemma StripKeeps(s: string, c: char)
    requires !IsSpace(c)
    ensures c in Strip(Collapse(s)) <==> c in s
  {
    CollapseKeeps(s, c);
    LStripKeeps(Collapse(s), c);
    RStripKeeps(LStrip(Collapse(s)), c);
  }

  /** Something is left exactly if the name held a character that stays. */
  lemma NameLeft(name: string, spaced: string, text: string)
    requires |spaced| == |name|
    requires forall i :: 0 <= i < |name| ==> spaced[i] == if Unsignable(name[i]) then ' ' else name[i]
    requires forall c :: !IsSpace(c) ==> (c in text <==> c in spaced)
    requires Stripped(text)
    ensures text == [] <==> forall i :: 0 <= i < |name| ==> Unsignable(name[i]) || IsSpace(name[i])
    ensures '|' !in text
  {
    assert IsSpace(' ') && !IsSpace('|');
    if text != [] {
      assert text[0] in text && text[0] in spaced;
    }
    if i :| 0 <= i < |name| && !Unsignable(name[i]) && !IsSpace(name[i]) {
      assert spaced[i] in spaced;
    }
  }

  /** The first characters of a stripped text, stripped again, still say something. */
  lemma StripOfTaken(text: string, n: nat)
    requires Stripped(text) && text != [] && n > 0
    ensures Strip(Take(text, n)) != []
    ensures forall c :: c in Strip(Take(text, n)) ==> c in text
  {
    var taken := Take(text, n);
    assert taken[0] == text[0] && LStrip(taken) == taken;
    StartStays(taken);
  }

  lemma {:induction false} StartStays(s: string)
    requires s != [] && !IsSpace(s[0])
    ensures RStrip(s) != []
  {
    if |s| > 1 {
      StartStays(s[..|s| - 1]);
    }
  }

  // ------------------------------------------------------------------- minted identifiers

  predicate SlugChar(c: char) { IsAlnum(c) || c == '-' }

  lemma {:induction false} HyphenateGives(s: string)
    ensures forall i :: 0 <= i < |Hyphenate(s)| ==> SlugChar(Hyphenate(s)[i])
  {
    if s != [] {
      HyphenateGives(s[1..]);
    }
  }

  lemma {:induction false} TrimLeftGives(s: string)
    requires forall i :: 0 <= i < |s| ==> SlugChar(s[i])
    ensures forall i :: 0 <= i < |TrimLeft(s)| ==> SlugChar(TrimLeft(s)[i])
    ensures TrimLeft(s) != [] ==> IsAlnum(TrimLeft(s)[0])
  {
    if s != [] && s[0] == '-' {
      TrimLeftGives(s[1..]);
    }
  }

  lemma {:induction false} TrimRightGives(s: string)
    requires forall i :: 0 <= i < |s| ==> SlugChar(s[i])
    ensures TrimRight(s) <= s
  {
    if s != [] && s[|s| - 1] == '-' {
      TrimRightGives(s[..|s| - 1]);
    }
  }

  lemma {:induction false} LettersAreAlnum(s: string)
    ensures forall i :: 0 <= i < |Letters(s)| ==> IsAlnum(Letters(s)[i])
  {
    if s != [] {
      LettersAreAlnum(s[1..]);
    }
  }

  lemma SlugStarts(company: string)
    ensures Slugify(company) != [] && IsAlnum(Slugify(company)[0])
    ensures forall i :: 0 <= i < |Slugify(company)| ==> SlugChar(Slugify(company)[i])
  {
    hide Hyphenate, TrimLeft, TrimRight, Strip;
    var h := Hyphenate(Strip(company));
    HyphenateGives(Strip(company));
    TrimLeftGives(h);
    TrimRightGives(TrimLeft(h));
  }

  /** Whatever the firm is called and whatever the random bytes, the id can be used: the
      error of `mint_install_id` is never raised. */
  lemma MintedIdsAreUsable(company: string, random: seq<Byte>)
    ensures MintInstallId(company, random).Ok? && IsInstallId(MintInstallId(company, random).value)
  {
    hide Slugify, Letters, Encode;
    SlugStarts(company);
    LettersAreAlnum(Encode(random));
    var slug, suffix := Take(Slugify(company), 50), Take(Letters(Encode(random)), 6);
    var id := slug + "-" + suffix;
    forall i | 0 <= i < |id| ensures SlugChar(id[i]) {
      if i < |slug| {
        assert id[i] == Slugify(company)[i];
      } else if i > |slug| {
        assert id[i] == Letters(Encode(random))[i - |slug| - 1];
      }
    }
    assert id[0] == Slugify(company)[0];
  }

  // -------------------------------------------------------------------------- base64url

  lemma SymbolValue(d: int)
    requires 0 <= d < 64
    ensures Value(Symbol(d)) == Some(d)
  {
  }

  predicate IsText(s: string) { forall i :: 0 <= i < |s| ==> Value(s[i]).Some? }

  lemma TextAppend(s: string, t: string)
    requires IsText(s) && IsText(t)
    ensures IsText(s + t)
  {
    hide Value;
  }

  lemma GroupIsText(a: Byte, b: Byte, c: Byte)
    ensures IsText([Symbol(a / 4), Symbol(a % 4 * 16 + b / 16), Symbol(b % 16 * 4 + c / 64), Symbol(c % 64)])
    ensures IsText([Symbol(a / 4), Symbol(a % 4 * 16 + b / 16), Symbol(b % 16 * 4)])
    ensures IsText([Symbol(a / 4), Symbol(a % 4 * 16)])
  {
    hide Value, Symbol;
    SymbolValue(a / 4);
    SymbolValue(a % 4 * 16);
    SymbolValue(a % 4 * 16 + b / 16);
    SymbolValue(b % 16 * 4);
    SymbolValue(b % 16 * 4 + c / 64);
    SymbolValue(c % 64);
  }

  lemma {:induction false} EncodedIsText(raw: seq<Byte>)
    ensures IsText(Encode(raw)) && |Encode(raw)| % 4 != 1
  {
    hide Value, Symbol, IsText;
    if |raw| >= 3 {
      var a, b, c := raw[0], raw[1], raw[2];
      EncodedIsText(raw[3..]);
      GroupIsText(a, b, c);
      TextAppend([Symbol(a / 4), Symbol(a % 4 * 16 + b / 16), Symbol(b % 16 * 4 + c / 64), Symbol(c % 64)],
                 Encode(raw[3..]));
    } else if |raw| == 2 {
      GroupIsText(raw[0], raw[1], 0);
    } else if |raw| == 1 {
      GroupIsText(raw[0], 0, 0);
    } else {
      NothingIsText();
    }
  }

  lemma NothingIsText()
    ensures IsText("")
  {
  }

  lemma TwoBytes(a: Byte, b: Byte)
    ensures a / 4 * 4 + (a % 4 * 16 + b / 16) / 16 == a
    ensures (a % 4 * 16 + b / 16) % 16 * 16 + b % 16 * 4 / 4 == b
    ensures a / 4 * 4 + a % 4 * 16 / 16 == a
  {
  }

  lemma ThirdByte(b: Byte, c: Byte)
    ensures (b % 16 * 4 + c / 64) / 4 == b % 16
    ensures (b % 16 * 4 + c / 64) % 4 * 64 + c % 64 == c
  {
  }

  /** One group of four characters decodes to its three bytes. */
  lemma DecodeGroup(text: string, a: Byte, b: Byte, c: Byte)
    requires |text| >= 4 && forall i :: 0 <= i < |text| ==> Value(text[i]).Some?
    requires Value(text[0]).value == a / 4 && Value(text[1]).value == a % 4 * 16 + b / 16
    requires Value(text[2]).value == b % 16 * 4 + c / 64 && Value(text[3]).value == c % 64
    ensures Decode(text) == if Decode(text[4..]).Some? then Some([a, b, c] + Decode(text[4..]).value) else None
  {
    hide Value;
    TwoBytes(a, b);
    ThirdByte(b, c);
  }

  /** Decoding gives back every byte that was encoded. */
  lemma {:induction false} DecodeEncode(raw: seq<Byte>)
    ensures forall i :: 0 <= i < |Encode(raw)| ==> Value(Encode(raw)[i]).Some?
    ensures Decode(Encode(raw)) == Some(raw)
  {
    EncodedIsText(raw);
    hide Value, Symbol;
    if |raw| >= 3 {
      var a, b, c := raw[0], raw[1], raw[2];
      var text := Encode(raw);
      SymbolValue(a / 4);
      SymbolValue(a % 4 * 16 + b / 16);
      SymbolValue(b % 16 * 4 + c / 64);
      SymbolValue(c % 64);
      assert text[0] == Symbol(a / 4) && text[1] == Symbol(a % 4 * 16 + b / 16);
      assert text[2] == Symbol(b % 16 * 4 + c / 64) && text[3] == Symbol(c % 64);
      assert text[4..] == Encode(raw[3..]);
      DecodeEncode(raw[3..]);
      hide Encode, Decode;
      DecodeGroup(text, a, b, c);
      assert raw == [a, b, c] + raw[3..];
    } else {
      DecodeTail(raw);
    }
  }

  lemma DecodeTail(raw: seq<Byte>)
    requires |raw| < 3 && forall i :: 0 <= i < |Encode(raw)| ==> Value(Encode(raw)[i]).Some?
    ensures Decode(Encode(raw)) == Some(raw)
  {
    hide Value, Symbol;
    if |raw| == 1 {
      SymbolValue(raw[0] / 4);
      SymbolValue(raw[0] % 4 * 16);
      TwoBytes(raw[0], 0);
      assert raw == [raw[0]];
    } else if |raw| == 2 {
      SymbolValue(raw[0] / 4);
      SymbolValue(raw[0] % 4 * 16 + raw[1] / 16);
      SymbolValue(raw[1] % 16 * 4);
      TwoBytes(raw[0], raw[1]);
      assert raw == [raw[0], raw[1]];
    }
  }

  /** Text of the alphabet decodes exactly if no single character is left over. */
  lemma {:induction false} DecodesIff(text: string)
    requires forall i :: 0 <= i < |text| ==> Value(text[i]).Some?
    ensures Decode(text).Some? <==> |text| % 4 != 1
  {
    hide Value;
    if |text| >= 4 {
      DecodesIff(text[4..]);
    }
  }

  /** The alphabet of RFC 4648, section 5, by character code: A to Z, a to z, 0 to 9, the
      dash and the underscore. */
  lemma SymbolCodes(d: nat)
    requires d < 64
    ensures Symbol(d) as int ==
              if d < 26 then 65 + d else if d < 52 then 97 + (d - 26) else if d < 62 then 48 + (d - 52)
              else if d == 62 then 45 else 95
  {
  }

  /** The number the characters spell in base 64, the first one highest. */
  function InBase64(text: string): nat
    requires forall i :: 0 <= i < |text| ==> Value(text[i]).Some?
  {
    if text == [] then 0 else InBase64(text[..|text| - 1]) * 64 + Value(text[|text| - 1]).value
  }

  function InBase256(raw: seq<Byte>): nat {
    if raw == [] then 0 else InBase256(raw[..|raw| - 1]) * 256 + raw[|raw| - 1]
  }

  /** Three bytes and the four characters for them are one number of 24 bits, and the rest
      follows on its own. */
  lemma GroupIsOneNumber(raw: seq<Byte>)
    requires |raw| >= 3
    ensures Encode(raw) == Encode(raw[..3]) + Encode(raw[3..]) && |Encode(raw[..3])| == 4
    ensures forall i :: 0 <= i < 4 ==> Value(Encode(raw[..3])[i]).Some?
    ensures InBase64(Encode(raw[..3])) == InBase256(raw[..3])
  {
    hide Symbol, Value, Encode, InBase64, InBase256;
    var a, b, c := raw[0], raw[1], raw[2];
    EncodedIsText(raw[..3]);
    EncodeThree(raw);
    Base64OfFour(Encode(raw[..3]), a / 4, a % 4 * 16 + b / 16, b % 16 * 4 + c / 64, c % 64);
    Base256OfThree(raw[..3]);
    ThreeBytes(a, b, c);
  }

  /** One or two bytes left over at the end are filled up with zero bits. */
  lemma RestIsOneNumber(raw: seq<Byte>)
    requires |raw| == 1 || |raw| == 2
    ensures |Encode(raw)| == |raw| + 1 && forall i :: 0 <= i < |Encode(raw)| ==> Value(Encode(raw)[i]).Some?
    ensures InBase64(Encode(raw)) == InBase256(raw) * (if |raw| == 1 then 16 else 4)
  {
    hide Symbol, Value;
    EncodedIsText(raw);
    if |raw| == 2 {
      var a, b := raw[0], raw[1];
      SymbolValue(a / 4);
      SymbolValue(a % 4 * 16 + b / 16);
      SymbolValue(b % 16 * 4);
      Base64OfThree(Encode(raw), a / 4, a % 4 * 16 + b / 16, b % 16 * 4);
      assert raw[..1][..0] == [] && raw[..1][0] == a;
      assert InBase256(raw[..1]) == a;
      TwoBytesNumber(a, b);
    } else {
      SymbolValue(raw[0] / 4);
      SymbolValue(raw[0] % 4 * 16);
      Base64OfTwo(Encode(raw), raw[0] / 4, raw[0] % 4 * 16);
      assert raw[..0] == [];
      TwoBytesNumber(raw[0], 0);
    }
  }

  lemma EncodeThree(raw: seq<Byte>)
    requires |raw| >= 3
    ensures Encode(raw) == Encode(raw[..3]) + Encode(raw[3..]) && |Encode(raw[..3])| == 4
    ensures var a, b, c := raw[0], raw[1], raw[2];
      Encode(raw[..3]) == [Symbol(a / 4), Symbol(a % 4 * 16 + b / 16), Symbol(b % 16 * 4 + c / 64), Symbol(c % 64)]
    ensures var a, b, c := raw[0], raw[1], raw[2];
      && Value(Symbol(a / 4)) == Some(a / 4) && Value(Symbol(a % 4 * 16 + b / 16)) == Some(a % 4 * 16 + b / 16)
      && Value(Symbol(b % 16 * 4 + c / 64)) == Some(b % 16 * 4 + c / 64) && Value(Symbol(c % 64)) == Some(c % 64)
  {
    hide Symbol, Value, Encode;
    var a, b, c := raw[0], raw[1], raw[2];
    SymbolValue(a / 4);
    SymbolValue(a % 4 * 16 + b / 16);
    SymbolValue(b % 16 * 4 + c / 64);
    SymbolValue(c % 64);
    assert raw[..3] == [a, b, c] && raw == [a, b, c] + raw[3..];
    EncodeGroup(a, b, c, raw[3..]);
    EncodeGroup(a, b, c, []);
    EncodeNothing();
    assert [a, b, c] + [] == [a, b, c];
  }

  lemma EncodeGroup(a: Byte, b: Byte, c: Byte, rest: seq<Byte>)
    ensures Encode([a, b, c] + rest) ==
              [Symbol(a / 4), Symbol(a % 4 * 16 + b / 16), Symbol(b % 16 * 4 + c / 64), Symbol(c % 64)]
              + Encode(rest)
  {
    hide Symbol;
    var raw := [a, b, c] + rest;
    assert raw[0] == a && raw[1] == b && raw[2] == c && raw[3..] == rest;
  }

  lemma EncodeNothing()
    ensures Encode([]) == []
  {
  }

  lemma Base64OfTwo(text: string, w: nat, x: nat)
    requires |text| == 2 && Value(text[0]) == Some(w) && Value(text[1]) == Some(x)
    ensures InBase64(text) == w * 64 + x
  {
    hide Value;
    assert text[..1][..0] == [] && text[..1][0] == text[0];
    assert InBase64(text[..1]) == w;
  }

  lemma Base64OfThree(text: string, w: nat, x: nat, y: nat)
    requires |text| == 3 && Value(text[0]) == Some(w) && Value(text[1]) == Some(x) && Value(text[2]) == Some(y)
    ensures InBase64(text) == (w * 64 + x) * 64 + y
  {
    hide Value;
    Base64OfTwo(text[..2], w, x);
  }

  lemma Base64OfFour(text: string, w: nat, x: nat, y: nat, z: nat)
    requires |text| == 4 && Value(text[0]) == Some(w) && Value(text[1]) == Some(x)
    requires Value(text[2]) == Some(y) && Value(text[3]) == Some(z)
    ensures InBase64(text) == ((w * 64 + x) * 64 + y) * 64 + z
  {
    hide Value;
    Base64OfThree(text[..3], w, x, y);
  }

  lemma Base256OfThree(raw: seq<Byte>)
    requires |raw| == 3
    ensures InBase256(raw) == (raw[0] as int * 256 + raw[1] as int) * 256 + raw[2] as int
  {
    assert raw[..2][..1][..0] == [] && raw[..2][..1][0] == raw[0] && raw[..2][1] == raw[1];
    assert InBase256(raw[..2][..1]) == raw[0];
    assert InBase256(raw[..2]) == raw[0] as int * 256 + raw[1] as int;
  }

  lemma ThreeBytes(a: Byte, b: Byte, c: Byte)
    ensures ((a / 4 * 64 + (a % 4 * 16 + b / 16)) * 64 + (b % 16 * 4 + c / 64)) * 64 + c % 64
         == (a * 256 + b) * 256 + c
  {
    assert a == a / 4 * 4 + a % 4 && b == b / 16 * 16 + b % 16 && c == c / 64 * 64 + c % 64;
  }

  lemma TwoBytesNumber(a: Byte, b: Byte)
    ensures (a / 4 * 64 + (a % 4 * 16 + b / 16)) * 64 + b % 16 * 4 == (a * 256 + b) * 4
    ensures a / 4 * 64 + a % 4 * 16 == a * 16
  {
    assert a == a / 4 * 4 + a % 4 && b == b / 16 * 16 + b % 16;
  }

  // ------------------------------------------------------------------------------ slugs

  /** Dashes for spaces. */
  function Dashed(s: string): (r: string)
    ensures |r| == |s|
  {
    seq(|s|, i requires 0 <= i < |s| => if s[i] == ' ' then '-' else s[i])
  }

  /** Letters in lower case, digits and spaces. */
  predicate Wordy(s: string) { forall i :: 0 <= i < |s| ==> s[i] == ' ' || HeaderImport.IsLowerAlnum(s[i]) }

  lemma BlankedCons(s: string)
    requires s != []
    ensures LabelLaws.Blanked(s)[1..] == LabelLaws.Blanked(s[1..])
    ensures var c := LabelLaws.Blanked(s)[0];
      if IsAlnum(s[0]) then c == LowerChar(s[0]) && HeaderImport.IsLowerAlnum(c) && !IsSpace(c) else c == ' '
  {
  }

  lemma DashedCons(c: char, s: string)
    ensures Dashed([c] + s) == [if c == ' ' then '-' else c] + Dashed(s)
    ensures Wordy(s) && (c == ' ' || HeaderImport.IsLowerAlnum(c)) ==> Wordy([c] + s)
  {
  }

  lemma {:induction false} HyphenatedIsDashed(s: string)
    ensures Wordy(Collapse(LabelLaws.Blanked(s)))
    ensures Hyphenate(s) == Dashed(Collapse(LabelLaws.Blanked(s)))
  {
    hide Wordy, Dashed, LowerChar, IsAlnum, LabelLaws.Blanked;
    var t := LabelLaws.Blanked(s);
    if s == [] {
      NothingDashed();
    } else {
      HyphenatedIsDashed(s[1..]);
      BlankedCons(s);
      DashedCons(t[0], Collapse(t[1..]));
      if |s| > 1 {
        BlankedCons(s[1..]);
        assert t[1] == t[1..][0] && s[1] == s[1..][0];
      }
    }
  }

  lemma NothingDashed()
    ensures Wordy("") && Dashed("") == ""
  {
  }

  lemma {:induction false} TrimmedLeft(s: string)
    requires Wordy(s)
    ensures TrimLeft(Dashed(s)) == Dashed(LStrip(s)) && Wordy(LStrip(s))
  {
    if s != [] {
      assert Dashed(s)[1..] == Dashed(s[1..]);
      TrimmedLeft(s[1..]);
    }
  }

  lemma {:induction false} TrimmedRight(s: string)
    requires Wordy(s)
    ensures TrimRight(Dashed(s)) == Dashed(RStrip(s))
  {
    if s != [] {
      assert Dashed(s)[..|s| - 1] == Dashed(s[..|s| - 1]);
      TrimmedRight(s[..|s| - 1]);
    }
  }

  /** A slug is the name as labels are normalised, its words a dash apart. */
  lemma SlugIsNormalized(company: string)
    ensures var words := HeaderImport.Normalize(Strip(company));
      Slugify(company) == if words == "" then "firm" else Dashed(words)
  {
    hide Hyphenate, TrimLeft, TrimRight, LStrip, RStrip, Collapse, Wordy;
    var t := LabelLaws.Blanked(Strip(company));
    HyphenatedIsDashed(Strip(company));
    TrimmedLeft(Collapse(t));
    TrimmedRight(LStrip(Collapse(t)));
    assert HeaderImport.Normalize(Strip(company)) == Strip(Collapse(t));
  }

  /** An install id is up to fifty characters of the slug, a dash, and up to six letters or
      digits of the random part, in lower case. */
  lemma MintedIdSpelled(company: string, random: seq<Byte>)
    ensures MintInstallId(company, random).Ok?
    ensures exists suffix ::
              && MintInstallId(company, random).value == Take(Slugify(company), 50) + "-" + suffix
              && |suffix| <= 6 && suffix <= Letters(Encode(random))
              && forall i :: 0 <= i < |suffix| ==> HeaderImport.IsLowerAlnum(suffix[i])
  {
    hide Slugify, Letters, Encode, IsInstallId;
    MintedIdsAreUsable(company, random);
    LettersAreLower(Encode(random));
    var suffix := Take(Letters(Encode(random)), 6);
    assert forall i :: 0 <= i < |suffix| ==> suffix[i] == Letters(Encode(random))[i];
  }

  lemma {:induction false} LettersAreLower(s: string)
    ensures forall i :: 0 <= i < |Letters(s)| ==> HeaderImport.IsLowerAlnum(Letters(s)[i])
  {
    if s != [] {
      LettersAreLower(s[1..]);
    }
  }
}
