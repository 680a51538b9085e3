/** Strings as the other modules need them: decimal numerals, strip, join and split. */
module Text {

  predicate IsDigit(c: char) { '0' <= c <= '9' }

  predicate IsAlnum(c: char) { IsDigit(c) || 'A' <= c <= 'Z' || 'a' <= c <= 'z' }

  function DigitChar(d: nat): (c: char)
    requires d < 10
    ensures IsDigit(c)
  {
    "0123456789"[d]
  }

  /** str(n) */
  function Dec(n: nat): (s: string)
    ensures |s| > 0
  {
    if n < 10 then [DigitChar(n)] else Dec(n / 10) + [DigitChar(n % 10)]
  }

  lemma {:induction false} DecIsDigits(n: nat)
    ensures forall i :: 0 <= i < |Dec(n)| ==> IsDigit(Dec(n)[i])
  {
    if n >= 10 {
      DecIsDigits(n / 10);
    }
  }

  /** The number a text of digits is read as, int(s). */
  function ReadDec(s: string): int {
    if s == [] then 0 else ReadDec(s[..|s| - 1]) * 10 + (s[|s| - 1] as int - 48)
  }

  /** A number is spelled in digits that read back as it, with no zero ahead of them. */
  lemma {:induction false} DecReadsBack(n: nat)
    ensures ReadDec(Dec(n)) == n && (n > 0 ==> Dec(n)[0] != '0')
  {
    var s := Dec(n);
    if n >= 10 {
      DecReadsBack(n / 10);
      assert s[..|s| - 1] == Dec(n / 10) && s[|s| - 1] == DigitChar(n % 10);
      DigitReads(n % 10);
    } else {
      assert s[..0] == [];
      DigitReads(n);
    }
  }

  lemma DigitReads(d: nat)
    requires d < 10
    ensures DigitChar(d) as int == 48 + d
  {
  }

  lemma {:induction false} DecLonger(n: nat)
    ensures n >= 10 ==> |Dec(n)| >= 2
  {
  }

  lemma DigitCharInjective(a: nat, b: nat)
    requires a < 10 && b < 10 && DigitChar(a) == DigitChar(b)
    ensures a == b
  {
  }

  lemma {:induction false} DecInjective(a: nat, b: nat)
    requires Dec(a) == Dec(b)
    ensures a == b
  {
    DecLonger(a);
    DecLonger(b);
    if a >= 10 && b >= 10 {
      var s := Dec(a);
      assert s[..|s| - 1] == Dec(a / 10) && s[..|s| - 1] == Dec(b / 10);
      assert s[|s| - 1] == DigitChar(a % 10) == DigitChar(b % 10);
      DigitCharInjective(a % 10, b % 10);
      DecInjective(a / 10, b / 10);
    } else {
      assert a < 10 && b < 10;
      assert Dec(a)[0] == Dec(b)[0];
      DigitCharInjective(a, b);
    }
  }

  function LowerChar(c: char): char { if 'A' <= c <= 'Z' then c - 'A' + 'a' else c }

  function Lower(s: string): (r: string)
    ensures |r| == |s|
  {
    seq(|s|, i requires 0 <= i < |s| => LowerChar(s[i]))
  }

  /** The white space of str.strip, up to U+00A0. */
  predicate IsSpace(c: char) {
    || c == ' ' || '\t' <= c <= '\r' || '\U{1c}' <= c <= '\U{1f}' || c == '\U{85}' || c == '\U{a0}'
  }

  function LStrip(s: string): (r: string)
    ensures r == [] || !IsSpace(r[0])
    ensures |r| <= |s| && r == s[|s| - |r|..]
  {
    if s != [] && IsSpace(s[0]) then LStrip(s[1..]) else s
  }

  function RStrip(s: string): (r: string)
    ensures r == [] || !IsSpace(r[|r| - 1])
    ensures r <= s
  {
    if s != [] && IsSpace(s[|s| - 1]) then RStrip(s[..|s| - 1]) else s
  }

  /** str.strip() */
  function Strip(s: string): string { RStrip(LStrip(s)) }

  /** No white space at either end. */
  predicate Stripped(s: string) { s == [] || (!IsSpace(s[0]) && !IsSpace(s[|s| - 1])) }

  lemma StripStrips(s: string)
    ensures Stripped(Strip(s))
    ensures Stripped(s) ==> Strip(s) == s
  {
  }

  lemma {:induction false} LStripPads(pad: string, s: string)
    requires forall i :: 0 <= i < |pad| ==> IsSpace(pad[i])
    ensures LStrip(pad + s) == LStrip(s)
  {
    if pad == [] {
      assert pad + s == s;
    } else {
      assert (pad + s)[1..] == pad[1..] + s;
      LStripPads(pad[1..], s);
    }
  }

  /** re.sub(r"\s+", " ", s) */
  function Collapse(s: string): string {
    if s == [] then []
    else if !IsSpace(s[0]) then [s[0]] + Collapse(s[1..])
    else if |s| > 1 && IsSpace(s[1]) then Collapse(s[1..])
    else " " + Collapse(s[1..])
  }

  lemma {:induction false} CollapseKeeps(s: string, c: char)
    requires !IsSpace(c)
    ensures c in Collapse(s) <==> c in s
  {
    if s != [] {
      CollapseKeeps(s[1..], c);
      assert s == [s[0]] + s[1..];
    }
  }

  lemma {:induction false} LStripKeeps(s: string, c: char)
    requires !IsSpace(c)
    ensures c in LStrip(s) <==> c in s
  {
    if s != [] {
      LStripKeeps(s[1..], c);
      assert s == [s[0]] + s[1..];
    }
  }

  lemma {:induction false} RStripKeeps(s: string, c: char)
    requires !IsSpace(c)
    ensures c in RStrip(s) <==> c in s
  {
    if s != [] {
      RStripKeeps(s[..|s| - 1], c);
      assert s == s[..|s| - 1] + [s[|s| - 1]];
    }
  }

  function Join(sep: string, parts: seq<string>): string {
    if parts == [] then [] else if |parts| == 1 then parts[0] else parts[0] + sep + Join(sep, parts[1..])
  }

  /** s.split(sep) for a one-character separator. */
  function Split(sep: char, s: string): (parts: seq<string>)
    ensures |parts| > 0
  {
    if s == [] then [[]]
    else
      var rest := Split(sep, s[1..]);
      if s[0] == sep then [[]] + rest else [[s[0]] + rest[0]] + rest[1..]
  }

  lemma {:induction false} SplitNone(sep: char, s: string)
    requires sep !in s
    ensures Split(sep, s) == [s]
  {
    if s != [] {
      SplitNone(sep, s[1..]);
      assert s[0] in s && s == [s[0]] + s[1..];
    }
  }

  lemma {:induction false} SplitFirst(sep: char, s: string, rest: string)
    requires sep !in s
    ensures Split(sep, s + [sep] + rest) == [s] + Split(sep, rest)
  {
    var whole := s + [sep] + rest;
    if s == [] {
      assert whole[1..] == rest;
    } else {
      assert whole[1..] == s[1..] + [sep] + rest;
      SplitFirst(sep, s[1..], rest);
      assert s[0] in s && s == [s[0]] + s[1..];
      assert Split(sep, whole[1..]) == [s[1..]] + Split(sep, rest);
    }
  }

  /** Splitting what was joined gives the parts back. */
  lemma {:induction false} SplitJoin(sep: char, parts: seq<string>)
    requires |parts| > 0 && forall i :: 0 <= i < |parts| ==> sep !in parts[i]
    ensures Split(sep, Join([sep], parts)) == parts
  {
    if |parts| == 1 {
      SplitNone(sep, parts[0]);
    } else {
      SplitJoin(sep, parts[1..]);
      SplitFirst(sep, parts[0], Join([sep], parts[1..]));
      assert parts == [parts[0]] + parts[1..];
    }
  }

  /** Joined lists whose parts do not hold the separator are equal only part by part. */
  lemma JoinInjective(sep: char, a: seq<string>, b: seq<string>)
    requires |a| > 0 && |b| > 0 && Join([sep], a) == Join([sep], b)
    requires forall i :: 0 <= i < |a| ==> sep !in a[i]
    requires forall i :: 0 <= i < |b| ==> sep !in b[i]
    ensures a == b
  {
    SplitJoin(sep, a);
    SplitJoin(sep, b);
  }
}
