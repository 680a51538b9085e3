/** The text a licence signature covers (app/licensing.py), and the identifiers and encoding
    beside it. */
module Licence {
  import opened Outcomes
  import opened Sorting
  import opened Text

  /** `features` as it may arrive: missing, one string by mistake, or a list. */
  datatype Features = Absent | Single(text: string) | Listed(items: seq<string>)

  /** The terms, each string field as str() gives it; `maxEmployees` is None where int()
      refuses the value. */
  datatype Terms = Terms(
    installId: string, licenseExpiry: string, firmName: string, licenseId: string,
    plan: string, issued: string, maxEmployees: Option<int>, features: Features)

  datatype LicenceError =
    | EmptyField(field: string) | FieldHasDelimiter(field: string)
    | NotAList | BadFeature(text: string) | NotANumber | TooFew(count: int)

  // --------------------------------------------------------------------------- ordering

  /** Python's order of strings: code point by code point, a prefix first. */
  predicate StrLeq(a: string, b: string) {
    a == [] || (b != [] && (a[0] < b[0] || (a[0] == b[0] && StrLeq(a[1..], b[1..]))))
  }

  lemma {:induction false} StrTotal(a: string, b: string)
    ensures StrLeq(a, b) || StrLeq(b, a)
    ensures StrLeq(a, b) && StrLeq(b, a) ==> a == b
  {
    if a != [] && b != [] && a[0] == b[0] {
      StrTotal(a[1..], b[1..]);
      assert a == [a[0]] + a[1..] && b == [b[0]] + b[1..];
    }
  }

  lemma {:induction false} StrTransitive(a: string, b: string, c: string)
    requires StrLeq(a, b) && StrLeq(b, c)
    ensures StrLeq(a, c)
  {
    if a != [] && b != [] && c != [] && a[0] == b[0] == c[0] {
      StrTransitive(a[1..], b[1..], c[1..]);
    }
  }

  function ByCode(): (string, string) -> bool { (a, b) => StrLeq(a, b) }

  lemma ByCodeIsOrder()
    ensures TotalOrder(ByCode())
  {
    forall a, b
      ensures ByCode()(a, b) || ByCode()(b, a)
      ensures ByCode()(a, b) && ByCode()(b, a) ==> a == b
    {
      StrTotal(a, b);
    }
    forall a, b, c | ByCode()(a, b) && ByCode()(b, c) ensures ByCode()(a, c) {
      StrTransitive(a, b, c);
    }
  }

  // --------------------------------------------------------------------------- features

  /** The stripped, non-empty features, or the first that holds a separator. */
  function Cleaned(items: seq<string>): Result<seq<string>, LicenceError> {
    if items == [] then Ok([])
    else
      match Cleaned(items[..|items| - 1])
      case Err(e) => Err(e)
      case Ok(before) =>
        var text := Strip(items[|items| - 1]);
        if text == [] then Ok(before)
        else if ',' in text || '|' in text then Err(BadFeature(text))
        else Ok(before + [text])
  }

  /** set(xs) as a list, without repeats. */
  function Dedup(xs: seq<string>): seq<string> {
    if xs == [] then []
    else
      var before := Dedup(xs[..|xs| - 1]);
      if xs[|xs| - 1] in before then before else before + [xs[|xs| - 1]]
  }

  function Canonical(cleaned: seq<string>): string { Join(",", Sort(ByCode(), Dedup(cleaned))) }

  /** `canonical_features`, one pass over the list. */
  method CanonicalFeatures(features: Features) returns (r: Result<string, LicenceError>)
    ensures r == FeatureText(features)
  {
    hide Strip, Dedup, Sort, Canonical, ByCode;
    if features.Absent? {
      return Ok("");
    }
    if features.Single? {
      return Err(NotAList);
    }
    var items := features.items;
    var cleaned: seq<string> := [];
    for i := 0 to |items|
      invariant Cleaned(items[..i]) == Ok(cleaned)
    {
      assert items[..i + 1][..i] == items[..i];
      var text := Strip(items[i]);
      if text != [] {
        if ',' in text || '|' in text {
          CleanedFails(items, i + 1);
          return Err(BadFeature(text));
        }
        cleaned := cleaned + [text];
      }
    }
    assert items[..|items|] == items;
    return Ok(Canonical(cleaned));
  }

  function FeatureText(features: Features): Result<string, LicenceError> {
    match features
    case Absent => Ok("")
    case Single(_) => Err(NotAList)
    case Listed(items) =>
      match Cleaned(items)
      case Err(e) => Err(e)
      case Ok(cleaned) => Ok(Canonical(cleaned))
  }

  lemma {:induction false} CleanedFails(items: seq<string>, k: nat)
    requires k <= |items| && Cleaned(items[..k]).Err?
    ensures Cleaned(items) == Cleaned(items[..k])
    decreases |items|
  {
    if k == |items| {
      assert items[..k] == items;
    } else {
      var before := items[..|items| - 1];
      assert before[..k] == items[..k];
      CleanedFails(before, k);
    }
  }

  // ---------------------------------------------------------------------------- payload

  const PREFIX := "payrolla-desktop"
  const VERSION := "v2"

  function CountText(n: Option<int>): Result<string, LicenceError> {
    if n.None? then Err(NotANumber)
    else if n.value < 1 then Err(TooFew(n.value))
    else Ok(Dec(n.value))
  }

  function FieldText(name: string, value: string): Result<string, LicenceError> {
    if Strip(value) == [] then Err(EmptyField(name)) else Ok(Strip(value))
  }

  /** The i-th signed field, checked and in canonical form. */
  function Part(t: Terms, i: nat): Result<string, LicenceError>
    requires i < 8
  {
    if i == 0 then FieldText("install_id", t.installId)
    else if i == 1 then FieldText("license_expiry", t.licenseExpiry)
    else if i == 2 then FieldText("firm_name", t.firmName)
    else if i == 3 then FieldText("license_id", t.licenseId)
    else if i == 4 then FieldText("plan", t.plan)
    else if i == 5 then FieldText("issued", t.issued)
    else if i == 6 then CountText(t.maxEmployees)
    else FeatureText(t.features)
  }

  const NAMES: seq<string> := [
    "install_id", "license_expiry", "firm_name", "license_id", "plan", "issued", "max_employees", "features"]

  function SignedPart(t: Terms, i: nat): Result<string, LicenceError>
    requires i < 8
  {
    match Part(t, i)
    case Err(e) => Err(e)
    case Ok(text) => if '|' in text then Err(FieldHasDelimiter(NAMES[i])) else Ok(text)
  }

  /** Every field can be signed. */
  ghost predicate Signable(t: Terms) { forall i: nat :: i < 8 ==> SignedPart(t, i).Ok? }

  /** The eight canonical fields. */
  ghost function Fields(t: Terms): (parts: seq<string>)
    requires Signable(t)
    ensures |parts| == 8
  {
    seq(8, i requires 0 <= i < 8 => SignedPart(t, i).value)
  }

  /** `signing_payload`: the parts joined, or the error of the first field that has one. */
  method SigningPayload(t: Terms) returns (r: Result<string, LicenceError>)
    ensures r.Ok? <==> Signable(t)
    ensures r.Ok? ==> r.value == Payload(t)
    ensures r.Err? ==> exists i: nat :: i < 8 && SignedPart(t, i) == Err(r.error)
                                     && forall j: nat :: j < i ==> SignedPart(t, j).Ok?
  {
    hide SignedPart, Join;
    var parts := [PREFIX, VERSION];
    for i := 0 to 8
      invariant forall j: nat :: j < i ==> SignedPart(t, j).Ok?
      invariant parts == [PREFIX, VERSION]
                       + seq(i, j requires 0 <= j < i => if SignedPart(t, j).Ok? then SignedPart(t, j).value else [])
    {
      var part := SignedPart(t, i);
      if part.Err? {
        return Err(part.error);
      }
      parts := parts + [part.value];
    }
    assert parts == [PREFIX, VERSION] + Fields(t);
    return Ok(Join("|", parts));
  }

  ghost function Payload(t: Terms): string
    requires Signable(t)
  {
    Join("|", [PREFIX, VERSION] + Fields(t))
  }

  // ------------------------------------------------------------- names and identifiers

  predicate Unsignable(c: char) { c <= '\U{1f}' || c == '\U{7f}' || c == '|' }

  function Spaced(name: string): (r: string)
    ensures |r| == |name|
  {
    seq(|name|, i requires 0 <= i < |name| => if Unsignable(name[i]) then ' ' else name[i])
  }

  /** `clean_firm_name`. */
  function CleanFirmName(name: string): Result<string, LicenceError> {
    var text := Take(Strip(Collapse(Spaced(name))), 160);
    if text == [] then Err(EmptyField("firm_name")) else Ok(text)
  }

  /** re.sub(r"[^A-Za-z0-9]+", "-", s) */
  function Hyphenate(s: string): string {
    if s == [] then []
    else if IsAlnum(s[0]) then [LowerChar(s[0])] + Hyphenate(s[1..])
    else if |s| > 1 && !IsAlnum(s[1]) then Hyphenate(s[1..])
    else "-" + Hyphenate(s[1..])
  }

  function TrimLeft(s: string): string { if s != [] && s[0] == '-' then TrimLeft(s[1..]) else s }

  function TrimRight(s: string): string {
    if s != [] && s[|s| - 1] == '-' then TrimRight(s[..|s| - 1]) else s
  }

  /** `slugify`. */
  function Slugify(company: string): string {
    var slug := TrimRight(TrimLeft(Hyphenate(Strip(company))));
    if slug == [] then "firm" else slug
  }

  /** INSTALL_ID_RE: the install id becomes a directory name. */
  predicate IsInstallId(s: string) {
    && 1 <= |s| <= 64 && IsAlnum(s[0])
    && forall i :: 0 <= i < |s| ==> IsAlnum(s[i]) || s[i] == '.' || s[i] == '_' || s[i] == '-'
  }

  /** The letters and digits of a string, lower-cased. */
  function Letters(s: string): string {
    if s == [] then [] else (if IsAlnum(s[0]) then [LowerChar(s[0])] else []) + Letters(s[1..])
  }

  /** `mint_install_id` for the four random bytes given. */
  function MintInstallId(company: string, random: seq<Byte>): Result<string, LicenceError> {
    var candidate := Take(Slugify(company), 50) + "-" + Take(Letters(Encode(random)), 6);
    if IsInstallId(candidate) then Ok(candidate) else Err(EmptyField("install_id"))
  }

  // -------------------------------------------------------------------------- base64url

  type Byte = x: int | 0 <= x < 256

  function Symbol(d: int): char
    requires 0 <= d < 64
  {
    if d < 26 then 'A' + d as char
    else if d < 52 then 'a' + (d - 26) as char
    else if d < 62 then '0' + (d - 52) as char
    else if d == 62 then '-' else '_'
  }

  function Value(c: char): Option<int> {
    if 'A' <= c <= 'Z' then Some(c as int - 'A' as int)
    else if 'a' <= c <= 'z' then Some(c as int - 'a' as int + 26)
    else if '0' <= c <= '9' then Some(c as int - '0' as int + 52)
    else if c == '-' then Some(62) else if c == '_' then Some(63) else None
  }

  /** `_b64url`: base64url without padding (RFC 4648, section 5). */
  function Encode(raw: seq<Byte>): string {
    if raw == [] then []
    else if |raw| == 1 then [Symbol(raw[0] / 4), Symbol(raw[0] % 4 * 16)]
    else if |raw| == 2 then
      [Symbol(raw[0] / 4), Symbol(raw[0] % 4 * 16 + raw[1] / 16), Symbol(raw[1] % 16 * 4)]
    else
      [Symbol(raw[0] / 4), Symbol(raw[0] % 4 * 16 + raw[1] / 16), Symbol(raw[1] % 16 * 4 + raw[2] / 64),
       Symbol(raw[2] % 64)]
      + Encode(raw[3..])
  }

  /** `_b64url_decode` on text of the alphabet: None where one character is left over. */
  function Decode(text: string): Option<seq<Byte>>
    requires forall i :: 0 <= i < |text| ==> Value(text[i]).Some?
  {
    if text == [] then Some([])
    else if |text| == 1 then None
    else
      var w, x := Value(text[0]).value, Value(text[1]).value;
      if |text| == 2 then Some([w * 4 + x / 16])
      else
        var y := Value(text[2]).value;
        if |text| == 3 then Some([w * 4 + x / 16, x % 16 * 16 + y / 4])
        else
          var z := Value(text[3]).value;
          match Decode(text[4..])
          case None => None
          case Some(rest) => Some([w * 4 + x / 16, x % 16 * 16 + y / 4, y % 4 * 64 + z] + rest)
  }
}
