/** From stacked header rows to fields (app/excel_utils.py): composite labels, suffixes for
    repeated ones, the field each column is mapped to, and the conflicts refused. */
module HeaderImport {
  import opened Outcomes
  import opened Text

  type Field = string

  // ------------------------------------------------------------------ composite labels

  predicate Counts(cell: string) { cell != [] && Lower(cell) != "nan" && Lower(cell) != "none" }

  /** The stripped cells of one column of the header block that say something. */
  function Parts(block: seq<seq<string>>, col: nat): seq<string> {
    if block == [] then []
    else
      var cell := if col < |block[0]| then Strip(block[0][col]) else [];
      (if Counts(cell) then [cell] else []) + Parts(block[1..], col)
  }

  /** The label of a column before repeats are told apart. */
  function Label(block: seq<seq<string>>, col: nat): string {
    var name := Strip(Collapse(Join(" ", Parts(block, col))));
    if name == [] then "Unnamed: " + Dec(col) else name
  }

  function Width(block: seq<seq<string>>): nat {
    if block == [] then 0
    else var w := Width(block[1..]); if |block[0]| > w then |block[0]| else w
  }

  function Labels(block: seq<seq<string>>): seq<string> {
    seq(Width(block), col requires 0 <= col < Width(block) => Label(block, col))
  }

  /** There is a column for every cell of the longest row, and no more. */
  lemma {:induction false} WidthIsLongest(block: seq<seq<string>>)
    ensures forall i :: 0 <= i < |block| ==> |block[i]| <= Width(block)
    ensures Width(block) > 0 ==> exists i :: 0 <= i < |block| && |block[i]| == Width(block)
  {
    if block != [] {
      WidthIsLongest(block[1..]);
      assert forall i :: 0 < i < |block| ==> block[i] == block[1..][i - 1];
      if Width(block) > |block[0]| {
        var i :| 0 <= i < |block[1..]| && |block[1..][i]| == Width(block[1..]);
        assert |block[i + 1]| == Width(block);
      }
    }
  }

  lemma LabelsAreStripped(block: seq<seq<string>>, col: nat)
    ensures Label(block, col) != [] && Stripped(Label(block, col))
  {
    StripStrips(Collapse(Join(" ", Parts(block, col))));
    UnnamedIsStripped(col);
    hide Collapse, Parts, Join, Strip, Stripped;
  }

  lemma UnnamedIsStripped(col: nat)
    ensures Stripped("Unnamed: " + Dec(col))
  {
    DecIsDigits(col);
    var d := Dec(col);
    var s := "Unnamed: " + d;
    assert s[|s| - 1] == d[|d| - 1] && IsDigit(d[|d| - 1]);
    assert s[0] == 'U';
    hide Dec;
  }

  // -------------------------------------------------------------- telling repeats apart

  function Count(labels: seq<string>, x: string): nat {
    if labels == [] then 0 else Count(labels[..|labels| - 1], x) + (if labels[|labels| - 1] == x then 1 else 0)
  }

  function Suffix(n: nat): string { " (" + Dec(n) + ")" }

  /** The name of column i: its label, suffixed from the second occurrence on. */
  function Name(labels: seq<string>, i: nat): string
    requires i < |labels|
  {
    var n := Count(labels[..i + 1], labels[i]);
    if n > 1 then labels[i] + Suffix(n) else labels[i]
  }

  function Names(labels: seq<string>): (names: seq<string>)
    ensures |names| == |labels|
  {
    seq(|labels|, i requires 0 <= i < |labels| => Name(labels, i))
  }

  /** `build_composite_columns`: one pass with a counter per label. */
  method BuildCompositeColumns(block: seq<seq<string>>) returns (names: seq<string>)
    ensures names == Names(Labels(block))
    ensures forall i :: 0 <= i < |block| ==> |block[i]| <= |names|
    ensures names != [] ==> exists i :: 0 <= i < |block| && |block[i]| == |names|
  {
    hide Label, Suffix, Count, Names;
    WidthIsLongest(block);
    var labels := Labels(block);
    var seen: map<string, nat> := map[];
    names := [];
    CountNone(labels);
    for col := 0 to |labels|
      invariant |names| == col
      invariant forall i :: 0 <= i < col ==> names[i] == Name(labels, i)
      invariant forall x :: (if x in seen then seen[x] else 0) == Count(labels[..col], x)
    {
      var name := Label(block, col);
      var count := (if name in seen then seen[name] else 0) + 1;
      forall x ensures Count(labels[..col + 1], x) == Count(labels[..col], x) + (if labels[col] == x then 1 else 0) {
        CountStep(labels, col, x);
      }
      seen := seen[name := count];
      if count > 1 {
        name := name + Suffix(count);
      }
      names := names + [name];
    }
    NamesAre(labels, names);
  }

  lemma CountNone(labels: seq<string>)
    ensures forall x :: Count(labels[..0], x) == 0
  {
  }

  lemma CountStep(labels: seq<string>, i: nat, x: string)
    requires i < |labels|
    ensures Count(labels[..i + 1], x) == Count(labels[..i], x) + (if labels[i] == x then 1 else 0)
  {
    assert labels[..i + 1][..i] == labels[..i];
  }

  lemma NamesAre(labels: seq<string>, names: seq<string>)
    requires |names| == |labels| && forall i :: 0 <= i < |labels| ==> names[i] == Name(labels, i)
    ensures names == Names(labels)
  {
    hide Name;
  }

  // ----------------------------------------------------------------------- the mapping

  /** Where the digits that end s begin. */
  function DigitsStart(s: string): (k: nat)
    ensures k <= |s|
    ensures forall i :: k <= i < |s| ==> IsDigit(s[i])
    ensures k > 0 ==> !IsDigit(s[k - 1])
  {
    if s == [] || !IsDigit(s[|s| - 1]) then |s| else DigitsStart(s[..|s| - 1])
  }

  /** re.sub(r"\s*\(\d+\)\s*$", "", s): one parenthesised number off the end. */
  function Base(s: string): string {
    var t := RStrip(s);
    if t == [] || t[|t| - 1] != ')' then s
    else
      var inner := t[..|t| - 1];
      var k := DigitsStart(inner);
      if k == |inner| || k == 0 || inner[k - 1] != '(' then s else RStrip(inner[..k - 1])
  }

  predicate IsLowerAlnum(c: char) { IsDigit(c) || 'a' <= c <= 'z' }

  /** `normalize_label`. */
  function Normalize(s: string): string {
    Strip(Collapse(seq(|s|, i requires 0 <= i < |s| =>
      var c := LowerChar(s[i]); if IsLowerAlnum(c) then c else ' ')))
  }

  /** The tables of the source: normalised alias to field, and the derived headers. */
  datatype Tables = Tables(aliases: map<string, Field>, derived: set<string>)

  /** The field a label names as it is written. */
  function Resolve(t: Tables, text: string): Option<Field> {
    var n := Normalize(text);
    if n in t.derived || n !in t.aliases then None else Some(t.aliases[n])
  }

  /** The field a column name is mapped to. */
  function FieldOf(t: Tables, name: string): Option<Field> { Resolve(t, Base(name)) }

  /** The column names, each once, in order: the keys of the mapping. */
  function Keys(names: seq<string>): seq<string> {
    if names == [] then []
    else
      var before := Keys(names[..|names| - 1]);
      if names[|names| - 1] in before then before else before + [names[|names| - 1]]
  }

  /** The columns, by name, that claim the field. */
  function Claims(t: Tables, keys: seq<string>, field: Field): seq<string> {
    if keys == [] then []
    else Claims(t, keys[..|keys| - 1], field)
         + (if FieldOf(t, keys[|keys| - 1]) == Some(field) then [keys[|keys| - 1]] else [])
  }

  datatype Conflict = Claimed(field: Field, columns: seq<string>) | Missing(field: Field)

  ghost predicate Justified(t: Tables, keys: seq<string>, mandatory: seq<Field>, c: Conflict) {
    match c
    case Claimed(field, columns) => columns == Claims(t, keys, field) && |columns| > 1
    case Missing(field) => field in mandatory && Claims(t, keys, field) == []
  }

  /** `map_columns`. */
  method MapColumns(t: Tables, names: seq<string>) returns (mapping: map<string, Option<Field>>)
    ensures mapping == Mapping(t, names)
  {
    hide FieldOf;
    mapping := map[];
    for i := 0 to |names|
      invariant mapping == Mapping(t, names[..i])
    {
      mapping := mapping[names[i] := FieldOf(t, names[i])];
    }
    assert names[..|names|] == names;
  }

  function Mapping(t: Tables, names: seq<string>): map<string, Option<Field>> {
    map n | n in names :: FieldOf(t, n)
  }

  /** The fields claimed, in the order of their first claim, each with its columns. */
  method ClaimsByField(t: Tables, keys: seq<string>, mapping: map<string, Option<Field>>)
    returns (byField: map<Field, seq<string>>, fields: seq<Field>)
    requires forall i :: 0 <= i < |keys| ==> keys[i] in mapping && mapping[keys[i]] == FieldOf(t, keys[i])
    ensures forall f :: f in byField <==> f in fields
    ensures forall f :: (if f in byField then byField[f] else []) == Claims(t, keys, f)
    ensures forall f :: f in byField ==> byField[f] != []
  {
    hide FieldOf, Claims;
    byField, fields := map[], [];
    NoClaims(t, keys);
    for i := 0 to |keys|
      invariant forall f :: f in byField <==> f in fields
      invariant forall f :: (if f in byField then byField[f] else []) == Claims(t, keys[..i], f)
      invariant forall f :: f in byField ==> byField[f] != []
    {
      forall f
        ensures Claims(t, keys[..i + 1], f)
             == Claims(t, keys[..i], f) + (if FieldOf(t, keys[i]) == Some(f) then [keys[i]] else [])
      {
        ClaimsStep(t, keys, i, f);
      }
      var field := mapping[keys[i]];
      if field.Some? {
        var f := field.value;
        if f !in byField {
          fields := fields + [f];
        }
        byField := byField[f := (if f in byField then byField[f] else []) + [keys[i]]];
      }
    }
    assert keys[..|keys|] == keys;
  }

  lemma NoClaims(t: Tables, keys: seq<string>)
    ensures forall f :: Claims(t, keys[..0], f) == []
  {
  }

  lemma ClaimsStep(t: Tables, keys: seq<string>, i: nat, f: Field)
    requires i < |keys|
    ensures Claims(t, keys[..i + 1], f)
         == Claims(t, keys[..i], f) + (if FieldOf(t, keys[i]) == Some(f) then [keys[i]] else [])
  {
    assert keys[..i + 1][..i] == keys[..i];
  }

  /** `mapping_conflicts`: every conflict there is and no other. */
  method MappingConflicts(t: Tables, names: seq<string>, mandatory: seq<Field>) returns (errors: seq<Conflict>)
    ensures forall c :: c in errors <==> Justified(t, Keys(names), mandatory, c)
  {
    hide FieldOf, Claims, Keys;
    var mapping := MapColumns(t, names);
    var keys := Keys(names);
    KeysAreNames(names);
    forall i | 0 <= i < |keys| ensures keys[i] in mapping && mapping[keys[i]] == FieldOf(t, keys[i]) {
      assert keys[i] in keys;
    }
    var byField, fields := ClaimsByField(t, keys, mapping);
    errors := [];
    for i := 0 to |fields|
      invariant forall c :: c in errors <==> c.Claimed? && c.field in fields[..i] && Justified(t, keys, mandatory, c)
    {
      assert fields[i] in byField;
      if |byField[fields[i]]| > 1 {
        errors := errors + [Claimed(fields[i], byField[fields[i]])];
      }
    }
    assert fields[..|fields|] == fields;
    ghost var claimed := errors;
    for i := 0 to |mandatory|
      invariant forall c :: c in errors <==>
        c in claimed || (c.Missing? && c.field in mandatory[..i] && Justified(t, keys, mandatory, c))
    {
      if mandatory[i] !in byField {
        errors := errors + [Missing(mandatory[i])];
      }
    }
    assert mandatory[..|mandatory|] == mandatory;
  }

  lemma {:induction false} KeysAreNames(names: seq<string>)
    ensures forall n :: n in Keys(names) <==> n in names
    ensures forall i, j :: 0 <= i < j < |Keys(names)| ==> Keys(names)[i] != Keys(names)[j]
  {
    if names != [] {
      KeysAreNames(names[..|names| - 1]);
      assert names == names[..|names| - 1] + [names[|names| - 1]];
    }
  }

  // ------------------------------------------------------------------------ reading a row

  /** The cells of the columns of one name: a series when the name is not unique. */
  function Cells(names: seq<string>, cells: seq<string>, name: string): seq<string>
    requires |cells| == |names|
  {
    if names == [] then []
    else
      (if names[0] == name then [cells[0]] else []) + Cells(names[1..], cells[1..], name)
  }

  /** `scalar_cell_value`: the first cell that is not empty. */
  function FirstFilled(cells: seq<string>): string {
    if cells == [] then [] else if cells[0] != [] then cells[0] else FirstFilled(cells[1..])
  }

  /** The row reader of `mapped_rows_from_dataframe`, before amounts are parsed: every
      column of the mapping writes its field, the last one stays. */
  method ReadRow(t: Tables, names: seq<string>, cells: seq<string>) returns (row: map<Field, string>)
    requires |cells| == |names|
    ensures forall f :: f in row <==> Claims(t, Keys(names), f) != []
    ensures forall f :: f in row ==>
              var claims := Claims(t, Keys(names), f);
              row[f] == FirstFilled(Cells(names, cells, claims[|claims| - 1]))
  {
    hide FieldOf, Claims, Keys, Cells, FirstFilled;
    var mapping := MapColumns(t, names);
    var keys := Keys(names);
    KeysAreNames(names);
    NoClaims(t, keys);
    row := map[];
    for i := 0 to |keys|
      invariant forall f :: f in row <==> Claims(t, keys[..i], f) != []
      invariant forall f :: f in row ==>
                  var claims := Claims(t, keys[..i], f);
                  row[f] == FirstFilled(Cells(names, cells, claims[|claims| - 1]))
    {
      forall f
        ensures Claims(t, keys[..i + 1], f)
             == Claims(t, keys[..i], f) + (if FieldOf(t, keys[i]) == Some(f) then [keys[i]] else [])
      {
        ClaimsStep(t, keys, i, f);
      }
      assert keys[i] in keys;
      var field := mapping[keys[i]];
      if field.Some? {
        row := row[field.value := FirstFilled(Cells(names, cells, keys[i]))];
      }
    }
    assert keys[..|keys|] == keys;
  }
}
