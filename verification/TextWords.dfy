/** The words of a text: what str.split() gives, and what is left once white space is
    collapsed and stripped. */
module TextWords {
  import opened Text

  /** The runs of characters between white space: s.split(). */
  function Words(s: string): (words: seq<string>)
    ensures s != [] && !IsSpace(s[0]) ==> words != []
  {
    if s == [] then []
    else if IsSpace(s[0]) then Words(s[1..])
    else
      var rest := Words(s[1..]);
      if |s| > 1 && !IsSpace(s[1]) then [[s[0]] + rest[0]] + rest[1..] else [[s[0]]] + rest
  }

  lemma StripSpaceFirst(s: string)
    ensures Strip(" " + s) == Strip(s)
  {
    assert (" " + s)[1..] == s;
  }

  lemma {:induction false} RStripCons(c: char, s: string)
    ensures RStrip([c] + s) == if RStrip(s) == [] && IsSpace(c) then [] else [c] + RStrip(s)
  {
    if s == [] {
      assert [c] + s == [c] && [c][..0] == [];
    } else if IsSpace(s[|s| - 1]) {
      RStripCons(c, s[..|s| - 1]);
      assert ([c] + s)[..|s|] == [c] + s[..|s| - 1];
    }
  }

  /** A word's first letter, before the rest of it or before other words. */
  lemma StripCons(c: char, s: string)
    requires !IsSpace(c)
    ensures Strip([c] + s) == [c] + RStrip(s)
    ensures s != [] && !IsSpace(s[0]) ==> Strip([c] + s) == [c] + Strip(s)
    ensures s != [] && s[0] == ' ' && (|s| > 1 ==> !IsSpace(s[1])) ==>
              Strip([c] + s) == [c] + (if Strip(s) == [] then [] else " " + Strip(s))
  {
    RStripCons(c, s);
    if s != [] && s[0] == ' ' && (|s| > 1 ==> !IsSpace(s[1])) {
      assert s == " " + s[1..];
      RStripCons(' ', s[1..]);
      assert LStrip(s) == s[1..];
    }
  }

  lemma CollapseStarts(s: string)
    ensures s == [] <==> Collapse(s) == []
    ensures s != [] && !IsSpace(s[0]) ==> Collapse(s)[0] == s[0]
    ensures s != [] && IsSpace(s[0]) ==>
              Collapse(s)[0] == ' ' && (|Collapse(s)| > 1 ==> !IsSpace(Collapse(s)[1]))
  {
  }

  lemma JoinCons(c: char, words: seq<string>)
    requires words != []
    ensures Join(" ", [[c] + words[0]] + words[1..]) == [c] + Join(" ", words)
  {
    var longer := [[c] + words[0]] + words[1..];
    if |words| > 1 {
      assert longer[1..] == words[1..];
    }
  }

  lemma JoinOneMore(word: string, words: seq<string>)
    ensures Join(" ", [word] + words) == if words == [] then word else word + " " + Join(" ", words)
  {
    assert ([word] + words)[1..] == words;
  }

  lemma {:induction false} JoinIsEmpty(words: seq<string>)
    requires forall i :: 0 <= i < |words| ==> words[i] != []
    ensures Join(" ", words) == [] <==> words == []
  {
  }

  lemma {:induction false} WordsAreFull(s: string)
    ensures forall i :: 0 <= i < |Words(s)| ==> Words(s)[i] != []
  {
    if s != [] {
      WordsAreFull(s[1..]);
    }
  }

  /** Stripping and collapsing white space leaves the words, one space apart. */
  lemma {:induction false} CollapsedIsWords(s: string)
    ensures Strip(Collapse(s)) == Join(" ", Words(s))
  {
    hide *;
    if s == [] {
      NoWords();
    } else {
      CollapsedIsWords(s[1..]);
      if IsSpace(s[0]) {
        SpaceAhead(s);
      } else {
        LetterAhead(s);
      }
    }
  }

  lemma NoWords()
    ensures Strip(Collapse("")) == Join(" ", Words(""))
  {
  }

  lemma SpaceAhead(s: string)
    requires s != [] && IsSpace(s[0])
    ensures Strip(Collapse(s)) == Strip(Collapse(s[1..])) && Words(s) == Words(s[1..])
  {
    hide Strip;
    StripSpaceFirst(Collapse(s[1..]));
  }

  lemma LetterAhead(s: string)
    requires s != [] && !IsSpace(s[0]) && Strip(Collapse(s[1..])) == Join(" ", Words(s[1..]))
    ensures Strip(Collapse(s)) == Join(" ", Words(s))
  {
    hide Strip, Join, RStrip, LStrip, Collapse, Words;
    var c, rest, words := s[0], Collapse(s[1..]), Words(s[1..]);
    CollapseCons(s);
    CollapseStarts(s[1..]);
    StripCons(c, rest);
    WordsCons(s);
    if |s| > 1 && !IsSpace(s[1]) {
      JoinCons(c, words);
    } else {
      JoinOneMore([c], words);
      WordsAreFull(s[1..]);
      JoinIsEmpty(words);
      NothingLeft(c);
    }
  }

  lemma CollapseCons(s: string)
    requires s != [] && !IsSpace(s[0])
    ensures Collapse(s) == [s[0]] + Collapse(s[1..])
  {
  }

  lemma WordsCons(s: string)
    requires s != [] && !IsSpace(s[0])
    ensures |s| > 1 && !IsSpace(s[1]) ==> Words(s[1..]) != []
    ensures var rest := Words(s[1..]);
      Words(s) == if |s| > 1 && !IsSpace(s[1]) then [[s[0]] + rest[0]] + rest[1..] else [[s[0]]] + rest
  {
  }

  lemma NothingLeft(c: char)
    ensures RStrip("") == "" && [c] + "" == [c]
    ensures Strip("") == ""
  {
  }

  lemma WordsSkip(s: string)
    requires s != [] && IsSpace(s[0])
    ensures Words(s) == Words(s[1..])
  {
  }

  lemma Regrouped(c: char, p: seq<string>, q: seq<string>)
    ensures [[c]] + (p + q) == ([[c]] + p) + q
    ensures p != [] ==> p + q != [] && [[c] + (p + q)[0]] + (p + q)[1..] == ([[c] + p[0]] + p[1..]) + q
  {
    if p != [] {
      assert (p + q)[0] == p[0] && (p + q)[1..] == p[1..] + q;
    }
  }

  /** White space between two texts keeps their words apart. */
  lemma {:induction false} WordsApart(a: string, c: char, b: string)
    requires IsSpace(c)
    ensures Words(a + [c] + b) == Words(a) + Words(b)
  {
    hide Words;
    var whole := a + [c] + b;
    if a == [] {
      assert whole[0] == c && whole[1..] == b;
      WordsSkip(whole);
      NoneInNothing();
    } else {
      WordsApart(a[1..], c, b);
      assert whole[0] == a[0] && whole[1..] == a[1..] + [c] + b;
      if IsSpace(a[0]) {
        WordsSkip(a);
        WordsSkip(whole);
      } else {
        WordsCons(a);
        WordsCons(whole);
        Regrouped(a[0], Words(a[1..]), Words(b));
        if |a| > 1 {
          assert whole[1] == a[1];
        } else {
          assert a[1..] == [] && whole[1] == c;
          NoneInNothing();
        }
      }
    }
  }

  lemma {:induction false} JoinApart(a: seq<string>, b: seq<string>)
    requires a != [] && b != []
    ensures Join(" ", a + b) == Join(" ", a) + " " + Join(" ", b)
  {
    assert a + b == [a[0]] + (a[1..] + b) && a == [a[0]] + a[1..];
    JoinOneMore(a[0], a[1..] + b);
    JoinOneMore(a[0], a[1..]);
    if |a| > 1 {
      JoinApart(a[1..], b);
    } else {
      assert a[1..] + b == b;
    }
  }

  lemma {:induction false} OneWord(s: string)
    requires s != [] && forall i :: 0 <= i < |s| ==> !IsSpace(s[i])
    ensures Words(s) == [s]
  {
    hide Words;
    WordsCons(s);
    if |s| > 1 {
      assert forall i :: 0 <= i < |s[1..]| ==> s[1..][i] == s[i + 1];
      OneWord(s[1..]);
      assert s == [s[0]] + s[1..];
    } else {
      assert s[1..] == [] && s == [s[0]];
      NoneInNothing();
    }
  }

  lemma NoneInNothing()
    ensures Words("") == []
  {
  }

  lemma {:induction false} SomeWord(s: string)
    ensures Words(s) == [] <==> forall i :: 0 <= i < |s| ==> IsSpace(s[i])
  {
    if s != [] {
      SomeWord(s[1..]);
      assert s == [s[0]] + s[1..];
      assert forall i :: 0 < i < |s| ==> s[i] == s[1..][i - 1];
    }
  }

  lemma {:induction false} WordsIgnoreEnds(s: string)
    ensures Words(LStrip(s)) == Words(s)
  {
    if s != [] {
      WordsIgnoreEnds(s[1..]);
    }
  }

  lemma {:induction false} WordsIgnoreEnd(s: string)
    ensures Words(RStrip(s)) == Words(s)
  {
    if s != [] && IsSpace(s[|s| - 1]) {
      var before := s[..|s| - 1];
      WordsIgnoreEnd(before);
      assert s == before + [s[|s| - 1]] + [];
      WordsApart(before, s[|s| - 1], []);
    }
  }
}
