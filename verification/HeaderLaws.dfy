/** When the import reads each figure from exactly one column (app/excel_utils.py). */
module HeaderLaws {
  import opened Outcomes
  import opened Text
  import opened HeaderImport

  // ------------------------------------------------------------------------- suffixes

  lemma {:induction false} DigitsStartAt(p: string, d: string)
    requires forall i :: 0 <= i < |d| ==> IsDigit(d[i])
    requires p != [] && !IsDigit(p[|p| - 1])
    ensures DigitsStart(p + d) == |p|
  {
    if d == [] {
      assert p + d == p;
    } else {
      var s := p + d;
      assert s[|s| - 1] == d[|d| - 1];
      assert s[..|s| - 1] == p + d[..|d| - 1];
      DigitsStartAt(p, d[..|d| - 1]);
    }
  }

  /** Taking a suffix off leaves what it was put on. */
  lemma BaseOfSuffixed(x: string, n: nat)
    requires Stripped(x)
    ensures Base(x + Suffix(n)) == x
  {
    hide DigitsStart, Dec;
    var t := x + Suffix(n);
    var p := x + " (";
    DecIsDigits(n);
    assert t == (p + Dec(n)) + ")";
    assert t[|t| - 1] == ')' && RStrip(t) == t;
    var inner := t[..|t| - 1];
    assert inner == p + Dec(n);
    DigitsStartAt(p, Dec(n));
    assert inner[|p| - 1] == '(';
    assert inner[..|p| - 1] == x + " ";
    RStripSpace(x);
  }

  lemma RStripSpace(x: string)
    requires Stripped(x)
    ensures RStrip(x + " ") == x
  {
    assert (x + " ")[..|x|] == x;
  }

  /** Two suffixed labels are equal only with the same label and number. */
  lemma SuffixedEqual(x: string, a: nat, y: string, b: nat)
    requires x + Suffix(a) == y + Suffix(b)
    ensures x == y && a == b
  {
    var t := x + Suffix(a);
    var p, q := x + " (", y + " (";
    DecIsDigits(a);
    DecIsDigits(b);
    assert t == (p + Dec(a)) + ")" == (q + Dec(b)) + ")";
    var inner := t[..|t| - 1];
    assert inner == p + Dec(a) == q + Dec(b);
    DigitsStartAt(p, Dec(a));
    DigitsStartAt(q, Dec(b));
    assert inner[..|p|] == p && inner[..|q|] == q;
    assert p[..|x|] == x && q[..|y|] == y;
    assert inner[|p|..] == Dec(a) && inner[|q|..] == Dec(b);
    DecInjective(a, b);
  }

  // -------------------------------------------------------------------- counting repeats

  function Nth(labels: seq<string>, i: nat): nat
    requires i < |labels|
  {
    Count(labels[..i + 1], labels[i])
  }

  lemma {:induction false} CountGrows(labels: seq<string>, i: nat, j: nat, x: string)
    requires i <= j <= |labels|
    ensures Count(labels[..i], x) <= Count(labels[..j], x)
    decreases j - i
  {
    if i < j {
      CountGrows(labels, i, j - 1, x);
      CountStep(labels, j - 1, x);
    }
  }

  lemma NthIsPositive(labels: seq<string>, i: nat)
    requires i < |labels|
    ensures Nth(labels, i) >= 1
  {
    CountStep(labels, i, labels[i]);
  }

  /** Later occurrences count higher. */
  lemma NthGrows(labels: seq<string>, i: nat, j: nat)
    requires i < j < |labels| && labels[i] == labels[j]
    ensures Nth(labels, i) < Nth(labels, j)
  {
    CountGrows(labels, i + 1, j, labels[j]);
    CountStep(labels, j, labels[j]);
  }

  /** Where a label occurs n times, it has an m-th occurrence for every m up to n. */
  lemma {:induction false} NthExists(labels: seq<string>, k: nat, x: string, m: nat) returns (p: nat)
    requires k <= |labels| && 1 <= m <= Count(labels[..k], x)
    ensures p < k && labels[p] == x && Nth(labels, p) == m
    decreases k
  {
    CountStep(labels, k - 1, x);
    if m <= Count(labels[..k - 1], x) {
      p := NthExists(labels, k - 1, x, m);
    } else {
      p := k - 1;
    }
  }

  /** Two columns get one name only if one is labelled what the other's suffix makes. */
  lemma SameName(labels: seq<string>, i: nat, j: nat) returns (a: nat, b: nat)
    requires i < j < |labels| && Name(labels, i) == Name(labels, j)
    ensures (a == i && b == j) || (a == j && b == i)
    ensures Nth(labels, a) > 1 && Nth(labels, b) == 1 && labels[b] == labels[a] + Suffix(Nth(labels, a))
  {
    NthIsPositive(labels, i);
    NthIsPositive(labels, j);
    if labels[i] == labels[j] {
      NthGrows(labels, i, j);
    }
    if Nth(labels, i) > 1 && Nth(labels, j) > 1 {
      SuffixedEqual(labels[i], Nth(labels, i), labels[j], Nth(labels, j));
    }
    a, b := if Nth(labels, i) > 1 then i else j, if Nth(labels, i) > 1 then j else i;
  }

  // ------------------------------------------------------------------ what claims a field

  lemma {:induction false} ClaimsMember(t: Tables, keys: seq<string>, f: Field, n: string)
    ensures n in Claims(t, keys, f) <==> n in keys && FieldOf(t, n) == Some(f)
  {
    hide FieldOf;
    if keys != [] {
      ClaimsMember(t, keys[..|keys| - 1], f, n);
      assert keys == keys[..|keys| - 1] + [keys[|keys| - 1]];
    }
  }

  lemma {:induction false} ClaimsDistinct(t: Tables, keys: seq<string>, f: Field)
    requires forall i, j :: 0 <= i < j < |keys| ==> keys[i] != keys[j]
    ensures forall i, j :: 0 <= i < j < |Claims(t, keys, f)| ==> Claims(t, keys, f)[i] != Claims(t, keys, f)[j]
  {
    hide FieldOf;
    if keys != [] {
      var last := keys[|keys| - 1];
      ClaimsDistinct(t, keys[..|keys| - 1], f);
      ClaimsMember(t, keys[..|keys| - 1], f, last);
      assert last !in keys[..|keys| - 1];
    }
  }

  /** At most one column name claims the field exactly if all columns mapped to it share
      one name. */
  lemma OneClaim(t: Tables, names: seq<string>, f: Field)
    ensures |Claims(t, Keys(names), f)| <= 1 <==>
              forall m, n :: m in names && n in names && FieldOf(t, m) == Some(f) == FieldOf(t, n) ==> m == n
  {
    hide FieldOf, Claims, Keys;
    var keys := Keys(names);
    var claims := Claims(t, keys, f);
    KeysAreNames(names);
    ClaimsDistinct(t, keys, f);
    forall n ensures n in claims <==> n in names && FieldOf(t, n) == Some(f) {
      ClaimsMember(t, keys, f, n);
    }
    if |claims| > 1 {
      assert claims[0] in claims && claims[1] in claims && claims[0] != claims[1];
    } else {
      forall m, n | m in claims && n in claims ensures m == n {
      }
    }
  }

  /** `mapping_conflicts` finds nothing wrong. */
  ghost predicate NoConflicts(t: Tables, names: seq<string>, mandatory: seq<Field>) {
    forall c :: !Justified(t, Keys(names), mandatory, c)
  }

  lemma NoConflictsMeans(t: Tables, names: seq<string>, mandatory: seq<Field>)
    ensures NoConflicts(t, names, mandatory) <==>
              && (forall f :: |Claims(t, Keys(names), f)| <= 1)
              && (forall f :: f in mandatory ==> Claims(t, Keys(names), f) != [])
  {
    hide Claims, Keys;
    if NoConflicts(t, names, mandatory) {
      forall f ensures |Claims(t, Keys(names), f)| <= 1 {
        assert !Justified(t, Keys(names), mandatory, Claimed(f, Claims(t, Keys(names), f)));
      }
      forall f | f in mandatory ensures Claims(t, Keys(names), f) != [] {
        assert !Justified(t, Keys(names), mandatory, Missing(f));
      }
    } else {
      var c :| Justified(t, Keys(names), mandatory, c);
      assert |Claims(t, Keys(names), c.field)| > 1 || (c.field in mandatory && Claims(t, Keys(names), c.field) == []);
    }
  }

  // --------------------------------------------------------------- one figure, one column

  /** The physical columns the row reader looks at for the field. */
  function ReadFrom(t: Tables, names: seq<string>, f: Field): set<nat> {
    set i: nat | i < |names| && FieldOf(t, names[i]) == Some(f)
  }

  ghost predicate OneColumnEach(t: Tables, names: seq<string>) {
    forall f, i, j :: i in ReadFrom(t, names, f) && j in ReadFrom(t, names, f) ==> i == j
  }

  /** The headers that slip through: a label that occurs twice, names a field as it is
      written, and occurs once more with "(2)" after it. */
  ghost predicate Hazard(t: Tables, labels: seq<string>) {
    exists i :: 0 <= i < |labels| && Nth(labels, i) == 2 && labels[i] + Suffix(2) in labels
                && Resolve(t, labels[i]).Some?
  }

  predicate Tidy(labels: seq<string>) { forall i :: 0 <= i < |labels| ==> Stripped(labels[i]) && labels[i] != [] }

  lemma HazardReadsTwice(t: Tables, labels: seq<string>)
    requires Tidy(labels) && Hazard(t, labels)
    ensures !OneColumnEach(t, Names(labels))
  {
    hide Base, Resolve, Suffix, Count, Names, Name, Stripped;
    var i :| 0 <= i < |labels| && Nth(labels, i) == 2 && labels[i] + Suffix(2) in labels
             && Resolve(t, labels[i]).Some?;
    var x := labels[i] + Suffix(2);
    var k :| 0 <= k < |labels| && labels[k] == x;
    NthIsPositive(labels, k);
    var j := NthExists(labels, k + 1, x, 1);
    BaseOfSuffixed(labels[i], 2);
    NameAt(labels, i);
    NameAt(labels, j);
    LongerThanItself(labels[i], 2);
    var f := Resolve(t, labels[i]).value;
    assert i in ReadFrom(t, Names(labels), f) && j in ReadFrom(t, Names(labels), f);
  }

  lemma NameAt(labels: seq<string>, i: nat)
    requires i < |labels|
    ensures Names(labels)[i] == Name(labels, i) && Names(labels)[i] in Names(labels)
    ensures Name(labels, i) == if Nth(labels, i) > 1 then labels[i] + Suffix(Nth(labels, i)) else labels[i]
  {
    hide Suffix, Count;
    assert Names(labels)[i] == Name(labels, i);
  }

  lemma LongerThanItself(x: string, n: nat)
    ensures x + Suffix(n) != x
  {
    assert |x + Suffix(n)| > |x|;
  }

  /** Two mapped columns of one name, with no two names claiming one field, come only from
      the hazard. */
  lemma CollisionIsHazard(t: Tables, labels: seq<string>, i: nat, j: nat)
    requires Tidy(labels) && i < j < |labels|
    requires Name(labels, i) == Name(labels, j) && FieldOf(t, Name(labels, i)).Some?
    requires forall m, n | m in Names(labels) && n in Names(labels) ::
               FieldOf(t, m) == FieldOf(t, n) != None ==> m == n
    ensures Hazard(t, labels)
  {
    hide Base, Resolve, Suffix, Count, Names, Name, Stripped;
    var a, b := SameName(labels, i, j);
    var x, c := labels[a], Nth(labels, a);
    var p := NthExists(labels, a + 1, x, 2);
    BaseOfSuffixed(x, c);
    BaseOfSuffixed(x, 2);
    NameAt(labels, p);
    NameAt(labels, a);
    assert FieldOf(t, x + Suffix(2)) == FieldOf(t, x + Suffix(c)) == Resolve(t, x);
    SuffixedEqual(x, 2, x, c);
    assert labels[b] in labels;
  }

  /** When no conflict is reported, every figure is read from at most one physical column
      exactly if the headers do not hold the hazard. */
  lemma OneColumnIff(t: Tables, labels: seq<string>, mandatory: seq<Field>)
    requires Tidy(labels) && NoConflicts(t, Names(labels), mandatory)
    ensures OneColumnEach(t, Names(labels)) <==> !Hazard(t, labels)
  {
    var names := Names(labels);
    NoConflictsMeans(t, names, mandatory);
    if Hazard(t, labels) {
      HazardReadsTwice(t, labels);
    }
    if !OneColumnEach(t, names) {
      var f, i, j :| i in ReadFrom(t, names, f) && j in ReadFrom(t, names, f) && i != j;
      forall m, n | m in names && n in names && FieldOf(t, m) == FieldOf(t, n) != None ensures m == n {
        OneClaim(t, names, FieldOf(t, m).value);
      }
      NameAt(labels, i);
      NameAt(labels, j);
      assert names[i] in names && names[j] in names;
      hide FieldOf, Hazard, Name;
      CollisionIsHazard(t, labels, if i < j then i else j, if i < j then j else i);
    }
  }

  lemma LabelsAreTidy(block: seq<seq<string>>)
    ensures Tidy(Labels(block))
  {
    forall col | 0 <= col < Width(block) ensures Stripped(Label(block, col)) && Label(block, col) != [] {
      LabelsAreStripped(block, col);
    }
    hide Label, Stripped;
  }

  /** Headers of which none ends in a parenthesised number cannot hold the hazard. */
  lemma PlainHeadersAreSafe(t: Tables, labels: seq<string>)
    requires Tidy(labels) && forall i :: 0 <= i < |labels| ==> Base(labels[i]) == labels[i]
    ensures !Hazard(t, labels)
  {
    hide Base, Resolve, Suffix, Count, Stripped;
    if Hazard(t, labels) {
      var i :| 0 <= i < |labels| && Nth(labels, i) == 2 && labels[i] + Suffix(2) in labels
               && Resolve(t, labels[i]).Some?;
      var k :| 0 <= k < |labels| && labels[k] == labels[i] + Suffix(2);
      BaseOfSuffixed(labels[i], 2);
      LongerThanItself(labels[i], 2);
      assert false;
    }
  }

  lemma {:induction false} CellsOfOne(names: seq<string>, cells: seq<string>, i: nat)
    requires |cells| == |names| && i < |names|
    requires forall j :: 0 <= j < |names| && names[j] == names[i] ==> j == i
    ensures Cells(names, cells, names[i]) == [cells[i]]
  {
    if i == 0 {
      NoCells(names[1..], cells[1..], names[0]);
    } else {
      assert names[0] != names[i];
      assert forall j :: 0 <= j < |names[1..]| ==> names[1..][j] == names[j + 1];
      CellsOfOne(names[1..], cells[1..], i - 1);
    }
  }

  lemma {:induction false} NoCells(names: seq<string>, cells: seq<string>, name: string)
    requires |cells| == |names| && forall j :: 0 <= j < |names| ==> names[j] != name
    ensures Cells(names, cells, name) == []
  {
    if names != [] {
      NoCells(names[1..], cells[1..], name);
    }
  }

  lemma FirstOfOne(cell: string)
    ensures FirstFilled([cell]) == cell
  {
    assert [cell][1..] == [];
  }

  /** What `ReadRow` puts under a field that some column claims. */
  function ReadValue(t: Tables, names: seq<string>, cells: seq<string>, f: Field): string
    requires |cells| == |names| && Claims(t, Keys(names), f) != []
  {
    var claims := Claims(t, Keys(names), f);
    FirstFilled(Cells(names, cells, claims[|claims| - 1]))
  }

  /** No conflict and no hazard in the headers of a sheet: a claimed figure is the cell of the
      one column mapped to it, and every mandatory field is claimed. */
  lemma FigureIsItsCell(t: Tables, block: seq<seq<string>>, mandatory: seq<Field>, cells: seq<string>, f: Field)
    requires |cells| == Width(block)
    requires NoConflicts(t, Names(Labels(block)), mandatory) && !Hazard(t, Labels(block))
    ensures f in mandatory ==> Claims(t, Keys(Names(Labels(block))), f) != []
    ensures Claims(t, Keys(Names(Labels(block))), f) != [] ==>
              exists i :: ReadFrom(t, Names(Labels(block)), f) == {i} && i < |cells|
                          && ReadValue(t, Names(Labels(block)), cells, f) == cells[i]
  {
    LabelsAreTidy(block);
    hide Names, Label, Hazard, Claims, Keys, Tidy, ReadFrom, ReadValue;
    FigureOfLabels(t, Labels(block), mandatory, cells, f);
  }

  lemma FigureOfLabels(t: Tables, labels: seq<string>, mandatory: seq<Field>, cells: seq<string>, f: Field)
    requires Tidy(labels) && |cells| == |labels|
    requires NoConflicts(t, Names(labels), mandatory) && !Hazard(t, labels)
    ensures f in mandatory ==> Claims(t, Keys(Names(labels)), f) != []
    ensures Claims(t, Keys(Names(labels)), f) != [] ==>
              exists i :: ReadFrom(t, Names(labels), f) == {i} && i < |cells|
                          && ReadValue(t, Names(labels), cells, f) == cells[i]
  {
    hide FieldOf, Claims, Keys, Names, Cells, Hazard, Tidy;
    var names := Names(labels);
    NoConflictsMeans(t, names, mandatory);
    OneColumnIff(t, labels, mandatory);
    var claims := Claims(t, Keys(names), f);
    if claims != [] {
      var name := claims[|claims| - 1];
      assert name in claims;
      ClaimsMember(t, Keys(names), f, name);
      KeysAreNames(names);
      var i :| 0 <= i < |names| && names[i] == name;
      assert i in ReadFrom(t, names, f);
      forall j | 0 <= j < |names| && names[j] == names[i] ensures j == i {
        assert j in ReadFrom(t, names, f);
      }
      CellsOfOne(names, cells, i);
      FirstOfOne(cells[i]);
      assert ReadFrom(t, names, f) == {i} && ReadValue(t, names, cells, f) == cells[i];
    }
  }

  /** Normalising keeps exactly the letters, lower-cased, and the digits. */
  lemma NormalizeKeeps(s: string, c: char)
    requires IsLowerAlnum(c)
    ensures c in Normalize(s) <==> exists i :: 0 <= i < |s| && LowerChar(s[i]) == c
  {
    var spaced := seq(|s|, i requires 0 <= i < |s| => var c := LowerChar(s[i]); if IsLowerAlnum(c) then c else ' ');
    CollapseKeeps(spaced, c);
    LStripKeeps(Collapse(spaced), c);
    RStripKeeps(LStrip(Collapse(spaced)), c);
    hide Collapse, LStrip, RStrip;
    if i :| 0 <= i < |s| && LowerChar(s[i]) == c {
      assert spaced[i] == c;
    }
  }

  const MANDATORY: seq<Field> := ["staff_id", "full_name", "basic_salary"]

  /** A staff id, a name, a basic salary, two "Tier (2)" columns and a "Tier (2) (2)". */
  const SLIPPING := ["Staff ID", "Name", "Basic", "Tier (2)", "Tier (2)", "Tier (2) (2)"]

  /** Their aliases, normalised. */
  function SlippingTables(): Tables {
    Tables(map[Normalize("Staff ID") := "staff_id", Normalize("Name") := "full_name",
               Normalize("Basic") := "basic_salary", Normalize("Tier (2)") := "tier_2_pension"], {})
  }

  /** With these headers no conflict is reported and no mandatory column is missed, and the
      pension is read from two columns. */
  lemma SlipsThrough()
    ensures NoConflicts(SlippingTables(), Names(SLIPPING), MANDATORY)
    ensures Hazard(SlippingTables(), SLIPPING) && !OneColumnEach(SlippingTables(), Names(SLIPPING))
  {
    hide Base, Normalize, Stripped, Claims, Keys, Names, FieldOf, Resolve, SlippingTables;
    var t := SlippingTables();
    SlippingNames();
    SlippingFields();
    NoConflictsMeans(t, Names(SLIPPING), MANDATORY);
    forall f ensures |Claims(t, Keys(Names(SLIPPING)), f)| <= 1 {
      OneClaim(t, Names(SLIPPING), f);
    }
    forall f | f in MANDATORY ensures Claims(t, Keys(Names(SLIPPING)), f) != [] {
      KeysAreNames(Names(SLIPPING));
      var n := if f == "staff_id" then "Staff ID" else if f == "full_name" then "Name" else "Basic";
      assert n in Names(SLIPPING);
      ClaimsMember(t, Keys(Names(SLIPPING)), f, n);
    }
    HazardReadsTwice(t, SLIPPING);
  }

  lemma SuffixOfTwo()
    ensures Suffix(2) == " (2)"
    ensures "Tier" + " (2)" == "Tier (2)" && "Tier (2)" + " (2)" == "Tier (2) (2)"
  {
    assert Dec(2) == "2";
  }

  /** A label not seen before is not suffixed. */
  lemma {:induction false} NotCounted(labels: seq<string>, x: string)
    requires x !in labels
    ensures Count(labels, x) == 0
  {
    if labels != [] {
      var n := |labels| - 1;
      assert labels[n] in labels && forall y :: y in labels[..n] ==> y in labels;
      NotCounted(labels[..n], x);
    }
  }

  lemma FirstOccurrence(labels: seq<string>, i: nat)
    requires i < |labels| && labels[i] !in labels[..i]
    ensures Nth(labels, i) == 1 && Names(labels)[i] == labels[i]
  {
    NotCounted(labels[..i], labels[i]);
    CountStep(labels, i, labels[i]);
    NameAt(labels, i);
  }

  lemma SlippingNames()
    ensures Names(SLIPPING) == ["Staff ID", "Name", "Basic", "Tier (2)", "Tier (2) (2)", "Tier (2) (2)"]
    ensures Nth(SLIPPING, 4) == 2
  {
    hide Count, Names, Suffix;
    SuffixOfTwo();
    SlippingDiffer();
    FirstOccurrence(SLIPPING, 0);
    FirstOccurrence(SLIPPING, 1);
    FirstOccurrence(SLIPPING, 2);
    FirstOccurrence(SLIPPING, 3);
    FirstOccurrence(SLIPPING, 5);
    CountStep(SLIPPING, 4, SLIPPING[4]);
    NameAt(SLIPPING, 4);
  }

  lemma SlippingDiffer()
    ensures forall i | i in {0, 1, 2, 3, 5} :: SLIPPING[i] !in SLIPPING[..i]
    ensures SLIPPING[4] == SLIPPING[3]
  {
    var lengths := seq(6, i requires 0 <= i < 6 => |SLIPPING[i]|);
    assert lengths == [8, 4, 5, 8, 8, 12];
    assert SLIPPING[0][0] == 'S' && SLIPPING[3][0] == 'T';
  }

  lemma SlippingFields()
    ensures var t := SlippingTables();
      && FieldOf(t, "Staff ID") == Some("staff_id") && FieldOf(t, "Name") == Some("full_name")
      && FieldOf(t, "Basic") == Some("basic_salary") && FieldOf(t, "Tier (2)") == None
      && FieldOf(t, "Tier (2) (2)") == Some("tier_2_pension") && Resolve(t, "Tier (2)") == Some("tier_2_pension")
    ensures SLIPPING[4] + Suffix(2) in SLIPPING && Tidy(SLIPPING)
  {
    hide Normalize, Base, Stripped, DigitsStart;
    SuffixOfTwo();
    PlainBases();
    SlippingTidy();
    BaseOfSuffixed("Tier", 2);
    BaseOfSuffixed("Tier (2)", 2);
    SlippingNormals();
  }

  lemma PlainBases()
    ensures Base("Staff ID") == "Staff ID" && Base("Name") == "Name" && Base("Basic") == "Basic"
  {
    assert RStrip("Staff ID") == "Staff ID" && RStrip("Name") == "Name" && RStrip("Basic") == "Basic";
  }

  lemma SlippingTidy()
    ensures Stripped("Tier") && Tidy(SLIPPING)
    ensures SLIPPING[4] == "Tier (2)" && SLIPPING[5] == "Tier (2) (2)"
  {
  }

  /** Each of the four aliases has a letter or digit that no other has, and "Tier" none. */
  lemma SlippingNormals()
    ensures var n, m, p, q := Normalize("Staff ID"), Normalize("Name"), Normalize("Basic"), Normalize("Tier (2)");
      && n != m && n != p && n != q && m != p && m != q && p != q
      && Normalize("Tier") != n && Normalize("Tier") != m && Normalize("Tier") != p && Normalize("Tier") != q
  {
    hide Normalize;
    Marked("Staff ID", 'f', 3);
    Marked("Name", 'm', 2);
    Marked("Basic", 'c', 4);
    Marked("Tier (2)", '2', 6);
    Unmarked("Name", 'f');
    Unmarked("Basic", 'f');
    Unmarked("Tier (2)", 'f');
    Unmarked("Tier", 'f');
    Unmarked("Basic", 'm');
    Unmarked("Tier (2)", 'm');
    Unmarked("Tier", 'm');
    Unmarked("Tier (2)", 'c');
    Unmarked("Tier", 'c');
    Unmarked("Tier", '2');
  }

  lemma Marked(s: string, c: char, i: nat)
    requires IsLowerAlnum(c) && i < |s| && LowerChar(s[i]) == c
    ensures c in Normalize(s)
  {
    hide Normalize;
    NormalizeKeeps(s, c);
  }

  lemma Unmarked(s: string, c: char)
    requires IsLowerAlnum(c) && forall i :: 0 <= i < |s| ==> LowerChar(s[i]) != c
    ensures c !in Normalize(s)
  {
    hide Normalize;
    NormalizeKeeps(s, c);
  }
}
