/** Storage keys: how receipts are named (app/receipts.py) and what a backend accepts
    (app/storage.py). */
module StorageKeys {
  import opened Outcomes
  import opened Text

  predicate IsKeyChar(c: char) { IsAlnum(c) || c == '.' || c == '_' || c == '-' }

  /** One segment of the key pattern: starts with a letter or digit. */
  predicate IsSegment(s: string) {
    s != [] && IsAlnum(s[0]) && forall i :: 0 <= i < |s| ==> IsKeyChar(s[i])
  }

  predicate MatchesPattern(key: string) {
    var parts := Split('/', key);
    forall i :: 0 <= i < |parts| ==> IsSegment(parts[i])
  }

  datatype StorageError = Empty | IllegalCharacter | IllegalKey | EscapesRoot

  /** `safe_key`. */
  function SafeKey(key: string): Result<string, StorageError> {
    var candidate := Strip(key);
    if candidate == [] then Err(Empty)
    else if '\0' in candidate || '\\' in candidate then Err(IllegalCharacter)
    else if !MatchesPattern(candidate) then Err(IllegalKey)
    else if "." in Split('/', candidate) || ".." in Split('/', candidate) then Err(IllegalKey)
    else Ok(candidate)
  }

  /** os.path.abspath on a path given as its segments. */
  function Resolve(base: seq<string>, parts: seq<string>): seq<string>
    decreases |parts|
  {
    if parts == [] then base
    else if parts[0] == "" || parts[0] == "." then Resolve(base, parts[1..])
    else if parts[0] == ".." then Resolve(if base == [] then [] else base[..|base| - 1], parts[1..])
    else Resolve(base + [parts[0]], parts[1..])
  }

  /** `LocalStorageBackend._path` for a root that is not the file system's own. */
  function Path(root: seq<string>, key: string): Result<seq<string>, StorageError> {
    match SafeKey(key)
    case Err(e) => Err(e)
    case Ok(relative) =>
      var path := Resolve(root, Split('/', relative));
      if root < path then Ok(path) else Err(EscapesRoot)
  }

  lemma {:induction false} ResolveSegments(base: seq<string>, parts: seq<string>)
    requires forall i :: 0 <= i < |parts| ==> IsSegment(parts[i])
    ensures Resolve(base, parts) == base + parts
    decreases |parts|
  {
    if parts != [] {
      assert IsSegment(parts[0]) && parts[0] != "" && parts[0] != "." && parts[0] != "..";
      ResolveSegments(base + [parts[0]], parts[1..]);
      assert base + [parts[0]] + parts[1..] == base + parts;
    }
  }

  /** A key that matches the pattern is never refused after that: not for a dotted segment,
      and not for leading out of the root. */
  lemma SafeKeysStayInside(root: seq<string>, key: string)
    requires var c := Strip(key); c != [] && '\0' !in c && '\\' !in c && MatchesPattern(c)
    ensures Path(root, key) == Ok(root + Split('/', Strip(key)))
  {
    var c := Strip(key);
    var parts := Split('/', c);
    assert "." !in parts && ".." !in parts by {
      assert !IsSegment(".") && !IsSegment("..");
    }
    ResolveSegments(root, parts);
  }

  /** receipts/<company>/<hex><extension> */
  function BuildKey(company: nat, hex: string, extension: string): string {
    Join("/", ["receipts", Dec(company), hex + extension])
  }

  predicate IsHex(s: string) { |s| == 32 && forall i :: 0 <= i < |s| ==> IsDigit(s[i]) || 'a' <= s[i] <= 'f' }

  const EXTENSIONS := {".pdf", ".png", ".jpg", ".jpeg"}

  lemma KeySpelled(company: nat, hex: string, extension: string)
    ensures BuildKey(company, hex, extension) == "receipts" + "/" + (Dec(company) + "/" + (hex + extension))
  {
    var parts := ["receipts", Dec(company), hex + extension];
    assert parts[1..] == [Dec(company), hex + extension];
    assert parts[1..][1..] == [hex + extension];
    assert Join("/", [hex + extension]) == hex + extension;
    assert Join("/", parts[1..]) == Dec(company) + "/" + (hex + extension);
  }

  lemma BuildParts(company: nat, hex: string, extension: string)
    requires IsHex(hex) && extension in EXTENSIONS
    ensures Split('/', BuildKey(company, hex, extension)) == ["receipts", Dec(company), hex + extension]
    ensures IsSegment("receipts") && IsSegment(Dec(company)) && IsSegment(hex + extension)
  {
    DecIsDigits(company);
    assert IsSegment(Dec(company));
    assert IsSegment(hex + extension);
    assert forall c :: IsKeyChar(c) ==> c != '/';
    SplitJoin('/', ["receipts", Dec(company), hex + extension]);
  }

  /** Every key the app builds is accepted as it stands, and lies under the company's own
      directory of the root. */
  lemma BuiltKeysAreSafe(root: seq<string>, company: nat, hex: string, extension: string)
    requires IsHex(hex) && extension in EXTENSIONS
    ensures SafeKey(BuildKey(company, hex, extension)) == Ok(BuildKey(company, hex, extension))
    ensures Path(root, BuildKey(company, hex, extension)) == Ok(root + ["receipts", Dec(company), hex + extension])
  {
    hide *;
    var key := BuildKey(company, hex, extension);
    BuiltKeyStripped(company, hex, extension);
    BuildParts(company, hex, extension);
    BuiltKeyPlain(company, hex, extension);
    AllSegments("receipts", Dec(company), hex + extension, key);
    SafeKeysStayInside(root, key);
    PathSafe(root, key);
  }

  lemma BuiltKeyStripped(company: nat, hex: string, extension: string)
    requires IsHex(hex) && extension in EXTENSIONS
    ensures BuildKey(company, hex, extension) != []
    ensures Strip(BuildKey(company, hex, extension)) == BuildKey(company, hex, extension)
  {
    hide BuildKey, Dec, Strip;
    var key, last := BuildKey(company, hex, extension), hex + extension;
    KeySpelled(company, hex, extension);
    assert key[|key| - 1] == last[|last| - 1] && key[0] == 'r';
    assert IsKeyChar(last[|last| - 1]);
    StripStrips(key);
  }

  lemma BuiltKeyPlain(company: nat, hex: string, extension: string)
    requires IsHex(hex) && extension in EXTENSIONS
    ensures '\0' !in BuildKey(company, hex, extension) && '\\' !in BuildKey(company, hex, extension)
  {
    hide BuildKey;
    var key := BuildKey(company, hex, extension);
    forall i | 0 <= i < |key| ensures key[i] != '\0' && key[i] != '\\' {
      BuiltChars(company, hex, extension, i);
    }
  }

  lemma AllSegments(a: string, b: string, c: string, key: string)
    requires Split('/', key) == [a, b, c] && IsSegment(a) && IsSegment(b) && IsSegment(c)
    ensures MatchesPattern(key)
  {
    hide Split, IsSegment;
  }

  /** What a path is made of is accepted by the first gate as it stands. */
  lemma PathSafe(root: seq<string>, key: string)
    requires Path(root, key).Ok? && Strip(key) == key
    ensures SafeKey(key) == Ok(key)
  {
    hide Strip, Split, Resolve, MatchesPattern;
  }

  lemma BuiltChars(company: nat, hex: string, extension: string, i: nat)
    requires IsHex(hex) && extension in EXTENSIONS && i < |BuildKey(company, hex, extension)|
    ensures IsKeyChar(BuildKey(company, hex, extension)[i]) || BuildKey(company, hex, extension)[i] == '/'
  {
    hide BuildKey, Dec, Split;
    BuildParts(company, hex, extension);
    KeySpelled(company, hex, extension);
  }

  /** Two built keys are equal only for the same company, identifier and extension. */
  lemma BuiltKeysDiffer(c1: nat, h1: string, e1: string, c2: nat, h2: string, e2: string)
    requires IsHex(h1) && IsHex(h2) && e1 in EXTENSIONS && e2 in EXTENSIONS
    requires BuildKey(c1, h1, e1) == BuildKey(c2, h2, e2)
    ensures c1 == c2 && h1 == h2 && e1 == e2
  {
    BuildParts(c1, h1, e1);
    BuildParts(c2, h2, e2);
    DecInjective(c1, c2);
    assert (h1 + e1)[..32] == h1 && (h2 + e2)[..32] == h2;
    assert (h1 + e1)[32..] == e1 && (h2 + e2)[32..] == e2;
  }

  // -------------------------------------------------------------------- what a key is

  /** A slash before a letter or digit, or a letter, digit, dot, underscore or dash. */
  predicate Fits(s: string, i: nat)
    requires i < |s|
  {
    if s[i] == '/' then i + 1 < |s| && IsAlnum(s[i + 1])
    else IsAlnum(s[i]) || s[i] == '.' || s[i] == '_' || s[i] == '-'
  }

  predicate Continues(s: string) { forall i :: 0 <= i < |s| ==> Fits(s, i) }

  lemma ContinuesCons(s: string)
    requires s != []
    ensures Continues(s) <==> Fits(s, 0) && Continues(s[1..])
  {
    var t := s[1..];
    forall i | 0 <= i < |t| ensures Fits(t, i) <==> Fits(s, i + 1) {
      assert t[i] == s[i + 1] && (i + 1 < |t| ==> t[i + 1] == s[i + 2]);
    }
    if Fits(s, 0) && Continues(t) {
      forall i | 0 <= i < |s| ensures Fits(s, i) {
        if i > 0 {
          assert Fits(t, i - 1);
        }
      }
    }
  }

  /** The first part holds characters of a key, and the others are segments. */
  predicate PartsContinue(parts: seq<string>)
    requires |parts| > 0
  {
    && (forall k :: 0 <= k < |parts[0]| ==> IsKeyChar(parts[0][k]))
    && (forall i :: 0 < i < |parts| ==> IsSegment(parts[i]))
  }

  lemma {:induction false} ContinuesIff(s: string)
    ensures Continues(s) <==> PartsContinue(Split('/', s))
  {
    if s != [] {
      hide Continues, PartsContinue;
      ContinuesIff(s[1..]);
      ContinuesCons(s);
      FirstPart(s[1..]);
      var rest := Split('/', s[1..]);
      if s[0] == '/' {
        NewPart(rest);
      } else {
        LongerPart(s[0], rest);
      }
    } else {
      assert Split('/', s) == [[]];
    }
  }

  lemma NewPart(rest: seq<string>)
    requires |rest| > 0
    ensures PartsContinue([[]] + rest) <==> PartsContinue(rest) && rest[0] != [] && IsAlnum(rest[0][0])
  {
    hide IsKeyChar, IsAlnum;
    var parts := [[]] + rest;
    assert forall i :: 0 <= i < |rest| ==> rest[i] == parts[i + 1];
    assert IsSegment(parts[1]) <==>
      rest[0] != [] && IsAlnum(rest[0][0]) && forall k :: 0 <= k < |rest[0]| ==> IsKeyChar(rest[0][k]);
    if PartsContinue(rest) && IsSegment(rest[0]) {
      forall i | 0 < i < |parts| ensures IsSegment(parts[i]) {
        assert parts[i] == rest[i - 1];
      }
    }
    if PartsContinue(parts) {
      forall i | 0 < i < |rest| ensures IsSegment(rest[i]) {
        assert rest[i] == parts[i + 1];
      }
    }
  }

  lemma LongerPart(c: char, rest: seq<string>)
    requires |rest| > 0
    ensures PartsContinue([[c] + rest[0]] + rest[1..]) <==> IsKeyChar(c) && PartsContinue(rest)
  {
    hide IsKeyChar, IsSegment;
    var parts := [[c] + rest[0]] + rest[1..];
    assert forall i :: 0 < i < |parts| ==> parts[i] == rest[i];
    assert parts[0][0] == c && forall k :: 0 <= k < |rest[0]| ==> parts[0][k + 1] == rest[0][k];
    if IsKeyChar(c) && PartsContinue(rest) {
      forall k | 0 <= k < |parts[0]| ensures IsKeyChar(parts[0][k]) {
        assert k > 0 ==> parts[0][k] == rest[0][k - 1];
      }
    }
  }

  lemma FirstPart(s: string)
    ensures var first := Split('/', s)[0];
      if s == [] || s[0] == '/' then first == [] else first != [] && first[0] == s[0]
  {
  }

  /** Exactly which keys are accepted, and what each other key is told. */
  lemma SafeKeyIff(key: string)
    ensures var c := Strip(key);
      match SafeKey(key)
      case Ok(kept) => kept == c && c != "" && IsAlnum(c[0]) && Continues(c)
      case Err(Empty) => c == ""
      case Err(IllegalCharacter) => c != "" && ('\0' in c || '\\' in c)
      case Err(_) =>
        c != "" && '\0' !in c && '\\' !in c && !(IsAlnum(c[0]) && Continues(c)) && SafeKey(key) == Err(IllegalKey)
  {
    hide Strip, Split, Continues, PartsContinue, MatchesPattern;
    var c := Strip(key);
    if c != "" {
      ContinuesIff(c);
      FirstPart(c);
      PatternIff(c);
      SegmentsAreNoDots(c);
      PlainCharacters(c);
    }
  }

  lemma PatternIff(c: string)
    requires c != ""
    ensures MatchesPattern(c) <==> IsAlnum(c[0]) && PartsContinue(Split('/', c))
  {
    hide Split;
    FirstPart(c);
    var parts := Split('/', c);
    assert MatchesPattern(c) <==> IsSegment(parts[0]) && forall i :: 0 < i < |parts| ==> IsSegment(parts[i]);
  }

  lemma SegmentsAreNoDots(c: string)
    ensures MatchesPattern(c) ==> "." !in Split('/', c) && ".." !in Split('/', c)
  {
    assert !IsSegment(".") && !IsSegment("..");
  }

  lemma NotAlnum()
    ensures !IsAlnum('\0') && !IsAlnum('\\')
  {
  }

  lemma PlainCharacters(c: string)
    ensures Continues(c) ==> '\0' !in c && '\\' !in c
  {
    hide IsAlnum;
    NotAlnum();
    if Continues(c) {
      forall i | 0 <= i < |c| ensures c[i] != '\0' && c[i] != '\\' {
        assert Fits(c, i);
      }
    }
  }
}
