/** Elixir version resolution: `AVAILABLE_ELIXIR_VERSIONS`,
    `get_closest_version` and `get_nix_elixir_pkg`.

    Versions are `f64` in the provider. Here every version and every catalog
    floor is an integer number of hundredths: a parsed token and a catalog
    literal are both exact multiples of 0.01 well inside the range where `f64`
    rounding preserves their order, so comparing hundredths decides every
    `>=` the provider evaluates exactly as the `f64` comparison does. */
module ElixirVersions {
  import opened Wrappers
  import opened MixProject

  /** One `(f64, &str)` pair of the catalog; `floor` is in hundredths. */
  datatype CatalogEntry = CatalogEntry(floor: nat, pkg: string)

  /** `AVAILABLE_ELIXIR_VERSIONS`, in the order listed. The literal `1.10` is
      the `f64` 1.1, so the floors are 1.9, 1.1, 1.11, 1.12, 1.13 and the
      catalog is not ascending. */
  const AvailableElixirVersions: seq<CatalogEntry> := [
    CatalogEntry(190, "elixir_1_9"),
    CatalogEntry(110, "elixir_1_10"),
    CatalogEntry(111, "elixir_1_11"),
    CatalogEntry(112, "elixir_1_12"),
    CatalogEntry(113, "elixir")
  ]

  /** The catalog literals as the source writes them. */
  ghost const CatalogLiterals: seq<real> := [1.9, 1.10, 1.11, 1.12, 1.13]

  /** `DEFAULT_ELIXIR_PKG_NAME`. */
  const DefaultElixirPkgName: string := "elixir"

  /** `\d`, restricted to ASCII digits. */
  predicate IsDigit(c: char) {
    '0' <= c <= '9'
  }

  function DigitValue(c: char): (d: nat)
    requires IsDigit(c)
    ensures d <= 9
  {
    (c as int) - ('0' as int)
  }

  /** The pattern `\d.\d` matches the three characters at `i`; its unescaped
      `.` accepts any character except a line feed. */
  predicate TokenAt(s: string, i: int) {
    && 0 <= i
    && i + 3 <= |s|
    && IsDigit(s[i])
    && s[i + 1] != '\n'
    && IsDigit(s[i + 2])
  }

  /** `i` is where the leftmost match starts. */
  predicate FirstTokenAt(s: string, i: int) {
    TokenAt(s, i) && forall j :: 0 <= j < i ==> !TokenAt(s, j)
  }

  /** A whole string that `\d.\d` matches. */
  predicate IsToken(tok: string) {
    |tok| == 3 && TokenAt(tok, 0)
  }

  /** Scan for a match starting at `from` or later. */
  function FindToken(s: string, from: nat): (r: Option<nat>)
    requires from <= |s|
    ensures r.None? ==> forall i :: from <= i ==> !TokenAt(s, i)
    ensures r.Some? ==> from <= r.value && TokenAt(s, r.value) &&
                        forall i :: from <= i < r.value ==> !TokenAt(s, i)
    decreases |s| - from
  {
    if from + 3 > |s| then None
    else if TokenAt(s, from) then Some(from)
    else FindToken(s, from + 1)
  }

  /** `Regex::new("\\d.\\d").captures(s)`: where the leftmost match starts. */
  function VersionMatch(s: string): (r: Option<nat>)
    ensures r.None? <==> forall i :: !TokenAt(s, i)
    ensures r.Some? ==> FirstTokenAt(s, r.value)
  {
    FindToken(s, 0)
  }

  /** The middle characters with which a digit-?-digit string is a valid
      Rust float literal: `1.2`, `102` and the exponent forms `1e2`, `1E2`. */
  predicate FloatSeparator(c: char) {
    c == '.' || c == 'e' || c == 'E' || IsDigit(c)
  }

  function Pow10(n: nat): nat {
    if n == 0 then 1 else 10 * Pow10(n - 1)
  }

  /** The number a parseable token denotes. */
  ghost function LiteralValue(tok: string): real
    requires IsToken(tok) && FloatSeparator(tok[1])
  {
    var a := DigitValue(tok[0]) as real;
    var b := DigitValue(tok[2]);
    if tok[1] == '.' then a + b as real / 10.0
    else if IsDigit(tok[1]) then 100.0 * a + 10.0 * DigitValue(tok[1]) as real + b as real
    else a * Pow10(b) as real
  }

  /** The value of a parseable token in hundredths, computed in integers;
      it is exactly 100 times the number the literal denotes. */
  function Hundredths(tok: string): (h: nat)
    requires IsToken(tok) && FloatSeparator(tok[1])
    ensures h as real == 100.0 * LiteralValue(tok)
  {
    var a := DigitValue(tok[0]);
    var b := DigitValue(tok[2]);
    ghost var x := LiteralValue(tok);
    if tok[1] == '.' then PointHundredths(a, b, x)
    else if IsDigit(tok[1]) then WholeHundredths(a, DigitValue(tok[1]), b, x)
    else ExponentHundredths(a, Pow10(b), x)
  }

  /** `a.b` is `100a + 10b` hundredths. */
  function PointHundredths(a: nat, b: nat, ghost x: real): (h: nat)
    requires x == a as real + b as real / 10.0
    ensures h as real == 100.0 * x
  {
    100 * a + 10 * b
  }

  /** `amb` is `100(100a + 10m + b)` hundredths. */
  function WholeHundredths(a: nat, m: nat, b: nat, ghost x: real): (h: nat)
    requires x == 100.0 * a as real + 10.0 * m as real + b as real
    ensures h as real == 100.0 * x
  {
    100 * (100 * a + 10 * m + b)
  }

  /** `aEb` is `100 a 10^b` hundredths, with `p` = 10^b. */
  function ExponentHundredths(a: nat, p: nat, ghost x: real): (h: nat)
    requires x == a as real * p as real
    ensures h as real == 100.0 * x
  {
    ProductAsReal(a, p);
    100 * (a * p)
  }

  /** Converting a product of naturals to a real distributes. */
  lemma {:induction false} ProductAsReal(x: nat, y: nat)
    ensures (x * y) as real == x as real * y as real
  {
    if y > 0 {
      ProductAsReal(x, y - 1);
      assert x * y == x * (y - 1) + x;
    }
  }

  /** `parse::<f64>()` of a matched token, in hundredths. */
  function ParseHundredths(tok: string): (r: Result<nat, Error>)
    requires IsToken(tok)
    ensures r.Ok? <==> FloatSeparator(tok[1])
    ensures r.Err? ==> r.error == InvalidFloat(tok)
    ensures r.Ok? ==> r.value as real == 100.0 * LiteralValue(tok)
  {
    if FloatSeparator(tok[1]) then Ok(Hundredths(tok))
    else Err(InvalidFloat(tok))
  }

  /** Entry `i` is the first whose floor is at least `v`. */
  predicate FirstFloorAt(catalog: seq<CatalogEntry>, v: nat, i: int) {
    && 0 <= i < |catalog|
    && catalog[i].floor >= v
    && forall j :: 0 <= j < i ==> catalog[j].floor < v
  }

  /** `.iter().find(|(f, _)| f >= &version)` from position `from` on. */
  function FindFloor(catalog: seq<CatalogEntry>, v: nat, from: nat): (r: Option<nat>)
    requires from <= |catalog|
    ensures r.None? ==> forall i :: from <= i < |catalog| ==> catalog[i].floor < v
    ensures r.Some? ==> from <= r.value < |catalog| && catalog[r.value].floor >= v &&
                        forall i :: from <= i < r.value ==> catalog[i].floor < v
    decreases |catalog| - from
  {
    if from == |catalog| then None
    else if catalog[from].floor >= v then Some(from)
    else FindFloor(catalog, v, from + 1)
  }

  /** The identifier of the first catalog entry, in listed order, whose floor
      is at least `v` (in hundredths). */
  function ClosestPackage(v: nat): (r: Option<string>)
    ensures r.None? <==> forall i :: 0 <= i < |AvailableElixirVersions| ==> AvailableElixirVersions[i].floor < v
    ensures r.Some? ==> exists i :: FirstFloorAt(AvailableElixirVersions, v, i) && r.value == AvailableElixirVersions[i].pkg
  {
    match FindFloor(AvailableElixirVersions, v, 0)
    case None => None
    case Some(i) => Some(AvailableElixirVersions[i].pkg)
  }

  /** `get_closest_version`: no token gives `Ok(None)`; a token that is not a
      float literal is an error; otherwise, because of the catalog order, every
      version up to 1.9 gives `elixir_1_9` and every larger one `None`. */
  function GetClosestVersion(s: string): (r: Result<Option<string>, Error>)
    ensures (forall i :: !TokenAt(s, i)) ==> r == Ok(None)
    ensures forall i :: FirstTokenAt(s, i) && !FloatSeparator(s[i + 1]) ==>
              r == Err(InvalidFloat(s[i..i + 3]))
    ensures forall i :: FirstTokenAt(s, i) && FloatSeparator(s[i + 1]) ==>
              r == Ok(if LiteralValue(s[i..i + 3]) <= 1.9 then Some("elixir_1_9") else None)
  {
    match VersionMatch(s)
    case None => Ok(None)
    case Some(i) =>
      var tok := s[i..i + 3];
      match ParseHundredths(tok)
      case Err(e) => Err(e)
      case Ok(v) =>
        ResolutionCollapses(v);
        Ok(ClosestPackage(v))
  }

  /** With this catalog the search stops at the first entry or not at all. */
  lemma ResolutionCollapses(v: nat)
    ensures ClosestPackage(v) == if v <= 190 then Some("elixir_1_9") else None
  {
    if v <= 190 {
      assert AvailableElixirVersions[0].floor >= v;
      assert FindFloor(AvailableElixirVersions, v, 0) == Some(0);
    }
  }

  /** `get_nix_elixir_pkg`: the default package unless the project declares an
      Elixir version that resolves; a parse error is propagated. */
  function GetNixElixirPkg(project: Option<MixProject>): (r: Result<string, Error>)
    ensures project.None? || project.value.elixirVersion.None? ==> r == Ok(DefaultElixirPkgName)
    ensures project.Some? && project.value.elixirVersion.Some? ==>
              var resolved := GetClosestVersion(project.value.elixirVersion.value);
              && (r.Err? <==> resolved.Err?)
              && (resolved.Err? ==> r.error == resolved.error)
              && (resolved == Ok(None) ==> r == Ok(DefaultElixirPkgName))
              && (resolved.Ok? && resolved.value.Some? ==> r == Ok(resolved.value.value))
    ensures r.Ok? ==> r.value == "elixir_1_9" || r.value == DefaultElixirPkgName
    ensures r.Err? ==> r.error.InvalidFloat?
  {
    if project.Some? && project.value.elixirVersion.Some? then
      match GetClosestVersion(project.value.elixirVersion.value)
      case Err(e) => Err(e)
      case Ok(None) => Ok(DefaultElixirPkgName)
      case Ok(Some(pkg)) => Ok(pkg)
    else Ok(DefaultElixirPkgName)
  }

  /** Floors listed in strictly increasing order. */
  predicate StrictlyAscending(catalog: seq<CatalogEntry>) {
    forall i, j :: 0 <= i < j < |catalog| ==> catalog[i].floor < catalog[j].floor
  }

  /** The hundredths floors are the source's literals, and because `1.10`
      denotes 1.1 the catalog is not in ascending order. */
  lemma CatalogAsWritten()
    ensures |AvailableElixirVersions| == |CatalogLiterals|
    ensures forall i :: 0 <= i < |CatalogLiterals| ==>
              AvailableElixirVersions[i].floor as real == 100.0 * CatalogLiterals[i]
    ensures !StrictlyAscending(AvailableElixirVersions)
  {
    assert AvailableElixirVersions[0].floor >= AvailableElixirVersions[1].floor;
  }

  /** Resolution is monotone: when a version resolves to a package, every
      smaller version resolves to the same package. */
  lemma ResolutionMonotone(a: nat, b: nat)
    requires a <= b
    requires ClosestPackage(b).Some?
    ensures ClosestPackage(a) == ClosestPackage(b)
  {
    ResolutionCollapses(a);
    ResolutionCollapses(b);
  }

  /** A version equal to a catalog floor does not in general select that
      entry: 1.11 selects `elixir_1_9`. */
  lemma ExactFloorNotSelected()
    ensures AvailableElixirVersions[2].floor == 111
    ensures ClosestPackage(111) == Some("elixir_1_9")
    ensures ClosestPackage(111) != Some(AvailableElixirVersions[2].pkg)
  {
    ResolutionCollapses(111);
  }
}
