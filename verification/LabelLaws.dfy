/** What the labels of stacked headers say, and which field a label names
    (app/excel_utils.py). */
module LabelLaws {
  import opened Outcomes
  import opened Text
  import opened TextWords
  import opened HeaderImport
  import HeaderLaws

  // ------------------------------------------------------------------ a column's label

  /** The row has nothing to say in the column: blank, or what an empty cell is read as. */
  predicate Silent(row: seq<string>, col: nat) {
    col >= |row| || Strip(row[col]) == "" || Lower(Strip(row[col])) == "nan" || Lower(Strip(row[col])) == "none"
  }

  lemma PartsCons(block: seq<seq<string>>, col: nat)
    requires block != []
    ensures !Silent(block[0], col) ==> col < |block[0]|
    ensures Parts(block, col) ==
              (if Silent(block[0], col) then [] else [Strip(block[0][col])]) + Parts(block[1..], col)
  {
    hide Strip, Lower;
    LowerOfNothing();
  }

  lemma LowerOfNothing()
    ensures Lower("") == ""
  {
  }

  lemma PartsOfNothing(col: nat)
    ensures Parts([], col) == []
  {
  }

  lemma {:induction false} PartsBelow(block: seq<seq<string>>, row: seq<string>, col: nat)
    ensures !Silent(row, col) ==> col < |row|
    ensures Parts(block + [row], col) == Parts(block, col) + (if Silent(row, col) then [] else [Strip(row[col])])
  {
    hide Strip, Lower, Silent, Parts;
    PartsCons(block + [row], col);
    if block == [] {
      assert (block + [row])[1..] == [] && (block + [row])[0] == row;
      PartsOfNothing(col);
    } else {
      PartsBelow(block[1..], row, col);
      PartsCons(block, col);
      assert (block + [row])[0] == block[0] && (block + [row])[1..] == block[1..] + [row];
    }
  }

  lemma {:induction false} PartsOfSilent(block: seq<seq<string>>, col: nat)
    ensures Parts(block, col) == [] <==> forall i :: 0 <= i < |block| ==> Silent(block[i], col)
  {
    hide Strip, Silent, Parts;
    PartsOfNothing(col);
    if block != [] {
      PartsOfSilent(block[1..], col);
      PartsCons(block, col);
      assert forall i :: 0 < i < |block| ==> block[i] == block[1..][i - 1];
    }
  }

  lemma {:induction false} PartsHaveWords(block: seq<seq<string>>, col: nat, i: nat)
    requires i < |Parts(block, col)|
    ensures Words(Parts(block, col)[i]) != []
  {
    hide Strip, Lower;
    if block != [] {
      var cell := if col < |block[0]| then Strip(block[0][col]) else [];
      if Counts(cell) {
        StripStrips(block[0][col]);
        SomeWord(cell);
        if i > 0 {
          PartsHaveWords(block[1..], col, i - 1);
        }
      } else {
        PartsHaveWords(block[1..], col, i);
      }
    }
  }

  /** The words of a column's cells, from the top row to the bottom row. */
  function ColumnWords(parts: seq<string>): seq<string> {
    if parts == [] then [] else Words(parts[0]) + ColumnWords(parts[1..])
  }

  lemma {:induction false} WordsOfJoin(parts: seq<string>)
    ensures Words(Join(" ", parts)) == ColumnWords(parts)
  {
    if |parts| == 1 {
      assert ColumnWords(parts[1..]) == [];
    } else if parts != [] {
      WordsOfJoin(parts[1..]);
      WordsApart(parts[0], ' ', Join(" ", parts[1..]));
      assert parts[0] + " " + Join(" ", parts[1..]) == parts[0] + [' '] + Join(" ", parts[1..]);
    }
  }

  lemma {:induction false} ColumnWordsApart(a: seq<string>, part: string)
    ensures ColumnWords(a + [part]) == ColumnWords(a) + Words(part)
  {
    if a == [] {
      assert (a + [part])[1..] == [];
    } else {
      assert (a + [part])[0] == a[0] && (a + [part])[1..] == a[1..] + [part];
      ColumnWordsApart(a[1..], part);
    }
  }

  lemma LabelIsWords(block: seq<seq<string>>, col: nat)
    ensures var words := ColumnWords(Parts(block, col));
      && Label(block, col) == (if words == [] then "Unnamed: " + Dec(col) else Join(" ", words))
      && (words == [] <==> forall i :: 0 <= i < |block| ==> Silent(block[i], col))
  {
    hide Strip, Lower, Collapse, Parts, Join, Words, Silent, Dec;
    var parts := Parts(block, col);
    CollapsedIsWords(Join(" ", parts));
    WordsOfJoin(parts);
    WordsAreFull(Join(" ", parts));
    JoinIsEmpty(Words(Join(" ", parts)));
    PartsOfSilent(block, col);
    if parts != [] {
      PartsHaveWords(block, col, 0);
    }
  }

  /** A column no row says anything in. */
  lemma SilentColumnIsUnnamed(block: seq<seq<string>>, col: nat)
    requires forall i :: 0 <= i < |block| ==> Silent(block[i], col)
    ensures Label(block, col) == "Unnamed: " + Dec(col)
  {
    hide *;
    LabelIsWords(block, col);
  }

  /** A row put under a block adds its cell at the end of the label, unless it has nothing to
      say; the first to say something is the label. */
  lemma RowUnderneath(block: seq<seq<string>>, row: seq<string>, col: nat)
    ensures Silent(row, col) ==> Label(block + [row], col) == Label(block, col)
    ensures !Silent(row, col) && (exists i :: 0 <= i < |block| && !Silent(block[i], col)) ==>
              Label(block + [row], col) == Label(block, col) + " " + Strip(Collapse(row[col]))
    ensures !Silent(row, col) && (forall i :: 0 <= i < |block| ==> Silent(block[i], col)) ==>
              Label(block + [row], col) == Strip(Collapse(row[col]))
  {
    hide Strip, Lower, Collapse, Parts, Join, Words, Dec, Label, Silent, ColumnWords;
    PartsBelow(block, row, col);
    LabelIsWords(block, col);
    LabelIsWords(block + [row], col);
    var above, all := ColumnWords(Parts(block, col)), ColumnWords(Parts(block + [row], col));
    if Silent(row, col) {
      assert all == above by {
        assert Parts(block, col) + [] == Parts(block, col);
      }
    } else {
      CellWords(row, col);
      ColumnWordsApart(Parts(block, col), Strip(row[col]));
      if above != [] {
        JoinApart(above, Words(row[col]));
      } else {
        assert above + Words(row[col]) == Words(row[col]);
      }
    }
  }

  /** A cell with something to say has words, and stripping keeps them. */
  lemma CellWords(row: seq<string>, col: nat)
    requires !Silent(row, col)
    ensures col < |row| && Words(Strip(row[col])) == Words(row[col]) != []
    ensures Strip(Collapse(row[col])) == Join(" ", Words(row[col]))
  {
    hide Collapse, Join;
    var cell := row[col];
    CollapsedIsWords(cell);
    WordsIgnoreEnds(cell);
    WordsIgnoreEnd(LStrip(cell));
    StripStrips(cell);
    SomeWord(Strip(cell));
    hide Words, LStrip, RStrip;
  }

  // -------------------------------------------------------------------- normalised labels

  predicate IsWordChar(c: char) { '0' <= c <= '9' || 'a' <= c <= 'z' || 'A' <= c <= 'Z' }

  /** Letters in lower case, digits, and a space for anything else. */
  function Blanked(s: string): (r: string)
    ensures |r| == |s|
  {
    seq(|s|, i requires 0 <= i < |s| =>
      var c := LowerChar(s[i]); if IsLowerAlnum(c) then c else ' ')
  }

  lemma NormalizedIsWords(s: string)
    ensures Normalize(s) == Join(" ", Words(Blanked(s)))
  {
    hide Strip, Collapse, Join, Words;
    CollapsedIsWords(Blanked(s));
  }

  /** A word is only put in lower case. */
  lemma NormalizedWord(s: string)
    requires s != [] && forall i :: 0 <= i < |s| ==> IsWordChar(s[i])
    ensures Normalize(s) == Lower(s)
  {
    hide Normalize, Words, Join;
    NormalizedIsWords(s);
    LowerOfWord(s);
    OneWord(Lower(s));
    JoinOneMore(Lower(s), []);
    assert [Lower(s)] + [] == [Lower(s)];
  }

  lemma LowerOfWord(s: string)
    requires forall i :: 0 <= i < |s| ==> IsWordChar(s[i])
    ensures Blanked(s) == Lower(s) && forall i :: 0 <= i < |s| ==> !IsSpace(Lower(s)[i])
  {
    forall i | 0 <= i < |s| ensures Blanked(s)[i] == Lower(s)[i] && !IsSpace(Lower(s)[i]) {
      assert Lower(s)[i] == LowerChar(s[i]);
    }
  }

  /** Any other character only keeps the words on its two sides apart. */
  lemma NormalizedApart(a: string, c: char, b: string)
    requires !IsWordChar(c)
    ensures Normalize(a) != "" && Normalize(b) != "" ==> Normalize(a + [c] + b) == Normalize(a) + " " + Normalize(b)
    ensures Normalize(a) == "" ==> Normalize(a + [c] + b) == Normalize(b)
    ensures Normalize(b) == "" ==> Normalize(a + [c] + b) == Normalize(a)
  {
    hide Normalize, Words, Join, LowerChar;
    NormalizedIsWords(a);
    NormalizedIsWords(b);
    NormalizedIsWords(a + [c] + b);
    BlankedApart(a, c, b);
    WordsApart(Blanked(a), ' ', Blanked(b));
    var p, q := Words(Blanked(a)), Words(Blanked(b));
    WordsAreFull(Blanked(a));
    WordsAreFull(Blanked(b));
    JoinIsEmpty(p);
    JoinIsEmpty(q);
    if p != [] && q != [] {
      JoinApart(p, q);
    } else {
      assert p + [] == p && [] + q == q;
    }
  }

  lemma BlankedApart(a: string, c: char, b: string)
    requires !IsWordChar(c)
    ensures Blanked(a + [c] + b) == Blanked(a) + [' '] + Blanked(b)
  {
  }

  // ------------------------------------------------------------ the field a name is given

  /** The name ends in a number in parentheses, white space aside. */
  predicate Numbered(name: string, before: string, digits: string) {
    && RStrip(name) == before + "(" + digits + ")"
    && digits != [] && forall i :: 0 <= i < |digits| ==> '0' <= digits[i] <= '9'
  }

  /** A parenthesised number is taken off the end once, and nothing else is. */
  lemma NumberTakenOff(name: string)
    ensures forall before, digits :: Numbered(name, before, digits) ==> Base(name) == RStrip(before)
    ensures (forall before, digits :: !Numbered(name, before, digits)) ==> Base(name) == name
  {
    hide RStrip, DigitsStart;
    forall before, digits | Numbered(name, before, digits) ensures Base(name) == RStrip(before) {
      NumberedBase(name, before, digits);
    }
    if Base(name) != name {
      var t := RStrip(name);
      var inner := t[..|t| - 1];
      var k := DigitsStart(inner);
      assert t == inner[..k - 1] + "(" + inner[k..] + ")";
      assert Numbered(name, inner[..k - 1], inner[k..]);
    }
  }

  lemma NumberedBase(name: string, before: string, digits: string)
    requires Numbered(name, before, digits)
    ensures Base(name) == RStrip(before)
  {
    hide RStrip, DigitsStart;
    var t := RStrip(name);
    var inner := t[..|t| - 1];
    assert t[|t| - 1] == ')' && inner == (before + "(") + digits;
    HeaderLaws.DigitsStartAt(before + "(", digits);
    assert inner[|before|] == '(' && inner[..|before|] == before;
  }

  /** A column claims a field exactly if what is left of its name is spelled as an alias of
      the field, and is not a figure the system derives. */
  lemma ClaimsIff(t: Tables, names: seq<string>, f: Field, name: string)
    ensures name in Claims(t, Keys(names), f) <==>
              && name in names && Normalize(Base(name)) !in t.derived
              && Normalize(Base(name)) in t.aliases && t.aliases[Normalize(Base(name))] == f
  {
    hide Normalize, Base, Claims, Keys;
    HeaderLaws.ClaimsMember(t, Keys(names), f, name);
    KeysAreNames(names);
  }

  // --------------------------------------------------------------------- repeated names

  /** Of the columns of one name the reader takes the first cell that is filled. */
  lemma {:induction false} FirstFilledIsFirst(names: seq<string>, cells: seq<string>, name: string)
    requires |cells| == |names|
    ensures var v := FirstFilled(Cells(names, cells, name));
      && (v == "" <==> forall i :: 0 <= i < |names| && names[i] == name ==> cells[i] == "")
      && (v != "" ==> exists i :: 0 <= i < |names| && names[i] == name && cells[i] == v
                        && forall j :: 0 <= j < i && names[j] == name ==> cells[j] == "")
  {
    hide Cells, FirstFilled;
    CellsCons(names, cells, name);
    if names != [] {
      FirstFilledIsFirst(names[1..], cells[1..], name);
      assert forall i :: 0 < i < |names| ==> names[i] == names[1..][i - 1] && cells[i] == cells[1..][i - 1];
      var v := FirstFilled(Cells(names, cells, name));
      if v != "" && !(names[0] == name && cells[0] != "") {
        var i :| 0 <= i < |names[1..]| && names[1..][i] == name && cells[1..][i] == v
                 && forall j :: 0 <= j < i && names[1..][j] == name ==> cells[1..][j] == "";
        assert names[i + 1] == name && cells[i + 1] == v;
      }
    }
  }

  lemma CellsCons(names: seq<string>, cells: seq<string>, name: string)
    requires |cells| == |names|
    ensures names == [] ==> FirstFilled(Cells(names, cells, name)) == ""
    ensures names != [] ==>
              FirstFilled(Cells(names, cells, name)) ==
                if names[0] == name && cells[0] != "" then cells[0]
                else FirstFilled(Cells(names[1..], cells[1..], name))
  {
    if names != [] {
      var rest := Cells(names[1..], cells[1..], name);
      assert ([cells[0]] + rest)[1..] == rest && [] + rest == rest;
    }
  }
}
