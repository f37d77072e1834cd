/**
 The order on release versions that decides whether an update is offered (backend/update.go), after
 section 11 of Semantic Versioning 2.0.0.  Numbers are limited to Go's 64-bit int.
 */
module SemVer {
  import opened Strings
  import opened Wrappers

  const MAX_INT: nat := 0x7FFF_FFFF_FFFF_FFFF

  // ---------------------------------------------------------------- splitting

  function Split(s: string): (r: seq<string>)
    ensures r != []
    decreases |s|
  {
    var i := Index(s, '.');
    if i == |s| then [s] else [s[..i]] + Split(s[i + 1..])
  }

  function Join(parts: seq<string>): string
    requires parts != []
  {
    if |parts| == 1 then parts[0] else parts[0] + "." + Join(parts[1..])
  }

  lemma {:induction false} JoinOfSplit(s: string)
    ensures Join(Split(s)) == s
    ensures forall p :: p in Split(s) ==> '.' !in p
    decreases |s|
  {
    var i := Index(s, '.');
    if i < |s| {
      JoinOfSplit(s[i + 1..]);
      assert Split(s)[1..] == Split(s[i + 1..]);
      assert s == s[..i] + "." + s[i + 1..];
    } else {
      assert s[..i] == s;
    }
  }

  lemma {:induction false} SplitOfJoin(parts: seq<string>)
    requires parts != [] && forall p :: p in parts ==> '.' !in p
    ensures Split(Join(parts)) == parts
  {
    var s := Join(parts);
    if |parts| == 1 {
      IndexAfter(s, '.', "");
    } else {
      SplitOfJoin(parts[1..]);
      IndexAfter(parts[0], '.', Join(parts[1..]));
      assert s == parts[0] + ['.'] + Join(parts[1..]);
      assert s[..|parts[0]|] == parts[0] && s[|parts[0]| + 1..] == Join(parts[1..]);
    }
  }

  // ---------------------------------------------------------------- numbers

  predicate IsDigit(c: char) { '0' <= c <= '9' }

  predicate IsDigits(s: string) {
    s != "" && forall i :: 0 <= i < |s| ==> IsDigit(s[i])
  }

  predicate LeadingZero(s: string) {
    |s| > 1 && s[0] == '0'
  }

  /** The value of a decimal numeral. */
  function Number(s: string): nat
    requires forall i :: 0 <= i < |s| ==> IsDigit(s[i])
  {
    if s == "" then 0
    else
      var last := s[|s| - 1];
      assert IsDigit(last);
      10 * Number(s[..|s| - 1]) + (last as int - '0' as int)
  }

  function Digit(d: nat): (c: char)
    requires d < 10
    ensures IsDigit(c)
  {
    ('0' as int + d) as char
  }

  function Numeral(n: nat): (s: string)
    ensures IsDigits(s)
  {
    if n < 10 then [Digit(n)] else Numeral(n / 10) + [Digit(n % 10)]
  }

  lemma {:induction false} NumeralOfNumber(s: string)
    requires IsDigits(s) && !LeadingZero(s)
    ensures Numeral(Number(s)) == s
    ensures s[0] != '0' ==> Number(s) > 0
  {
    var init, d := s[..|s| - 1], s[|s| - 1] as int - '0' as int;
    assert s == init + [Digit(d)];
    if |s| > 1 {
      NumeralOfNumber(init);
    } else {
      assert init == "";
    }
  }

  lemma {:induction false} NumberOfNumeral(n: nat)
    ensures Number(Numeral(n)) == n && !LeadingZero(Numeral(n))
    ensures n > 0 ==> Numeral(n)[0] != '0'
  {
    var s := Numeral(n);
    if n < 10 {
      assert s[..0] == "";
    } else {
      NumberOfNumeral(n / 10);
      assert s[..|s| - 1] == Numeral(n / 10);
    }
  }

  // ---------------------------------------------------------------- versions

  datatype Identifier = Identifier(value: string, numeric: bool, number: nat)

  datatype Version = Version(major: nat, minor: nat, patch: nat, pre: seq<Identifier>)

  predicate IdentifierChar(c: char) {
    IsDigit(c) || 'A' <= c <= 'Z' || 'a' <= c <= 'z' || c == '-'
  }

  predicate ValidPart(part: string, prerelease: bool) {
    && part != ""
    && (forall i :: 0 <= i < |part| ==> IdentifierChar(part[i]))
    && !(prerelease && IsDigits(part) && LeadingZero(part))
  }

  predicate ValidList(value: string, prerelease: bool) {
    value != "" && forall part :: part in Split(value) ==> ValidPart(part, prerelease)
  }

  function Atoi(s: string): Option<nat>
    requires IsDigits(s)
  {
    if Number(s) <= MAX_INT then Some(Number(s)) else None
  }

  function CoreNumber(s: string): Option<nat> {
    if !IsDigits(s) || LeadingZero(s) then None else Atoi(s)
  }

  function IdentifierOf(raw: string): Option<Identifier> {
    if !IsDigits(raw) then Some(Identifier(raw, false, 0))
    else if Atoi(raw).None? then None
    else Some(Identifier(raw, true, Atoi(raw).value))
  }

  function Identifiers(raws: seq<string>): Option<seq<Identifier>> {
    if raws == [] then Some([])
    else
      var first, rest := IdentifierOf(raws[0]), Identifiers(raws[1..]);
      if first.None? || rest.None? then None else Some([first.value] + rest.value)
  }

  function TrimV(s: string): string {
    if "v" <= s then s[1..] else s
  }

  /** What is compared: the text between the "v" and the build metadata. */
  function Precedence(version: string): string {
    var value := TrimV(TrimSpace(version));
    value[..Index(value, '+')]
  }

  predicate ValidMetadata(version: string) {
    var value := TrimV(TrimSpace(version));
    var plus := Index(value, '+');
    value != "" && (plus < |value| ==> ValidList(value[plus + 1..], false))
  }

  /** The version without build metadata. */
  function ParsePrecedence(value: string): Option<Version> {
    var dash := Index(value, '-');
    var parts := Split(value[..dash]);
    if dash < |value| && !ValidList(value[dash + 1..], true) then None
    else if |parts| != 3 then None
    else
      var major, minor, patch := CoreNumber(parts[0]), CoreNumber(parts[1]), CoreNumber(parts[2]);
      var pre := if dash < |value| then Identifiers(Split(value[dash + 1..])) else Some([]);
      if major.None? || minor.None? || patch.None? || pre.None? then None
      else Some(Version(major.value, minor.value, patch.value, pre.value))
  }

  function Parse(version: string): Option<Version> {
    if ValidMetadata(version) then ParsePrecedence(Precedence(version)) else None
  }

  // ---------------------------------------------------------------- the normal form

  predicate WellFormedIdentifier(x: Identifier) {
    && ValidPart(x.value, true)
    && (x.numeric <==> IsDigits(x.value))
    && x.number == (if x.numeric then Number(x.value) else 0) <= MAX_INT
  }

  predicate WellFormed(v: Version) {
    && v.major <= MAX_INT && v.minor <= MAX_INT && v.patch <= MAX_INT
    && forall x :: x in v.pre ==> WellFormedIdentifier(x)
  }

  function Values(pre: seq<Identifier>): (r: seq<string>)
    ensures |r| == |pre| && forall i :: 0 <= i < |pre| ==> r[i] == pre[i].value
  {
    if pre == [] then [] else [pre[0].value] + Values(pre[1..])
  }

  function RenderCore(v: Version): string {
    Join([Numeral(v.major), Numeral(v.minor), Numeral(v.patch)])
  }

  function Render(v: Version): string {
    if v.pre == [] then RenderCore(v) else RenderCore(v) + "-" + Join(Values(v.pre))
  }

  lemma {:induction false} IdentifiersKeepText(raws: seq<string>)
    requires forall p :: p in raws ==> ValidPart(p, true)
    requires Identifiers(raws).Some?
    ensures Values(Identifiers(raws).value) == raws
    ensures forall x :: x in Identifiers(raws).value ==> WellFormedIdentifier(x)
  {
    if raws != [] {
      IdentifiersKeepText(raws[1..]);
      assert WellFormedIdentifier(IdentifierOf(raws[0]).value);
    }
  }

  lemma {:induction false} IdentifiersOfValues(pre: seq<Identifier>)
    requires forall x :: x in pre ==> WellFormedIdentifier(x)
    ensures Identifiers(Values(pre)) == Some(pre)
  {
    if pre != [] {
      IdentifiersOfValues(pre[1..]);
      assert Values(pre)[1..] == Values(pre[1..]);
      assert WellFormedIdentifier(pre[0]);
      assert [pre[0]] + pre[1..] == pre;
      assert IdentifierOf(pre[0].value) == Some(pre[0]);
    }
  }

  lemma CoreNumberIsNumeral(s: string)
    requires CoreNumber(s).Some?
    ensures CoreNumber(s).value <= MAX_INT && Numeral(CoreNumber(s).value) == s
  {
    NumeralOfNumber(s);
  }

  lemma PreKeepsText(raw: string)
    requires ValidList(raw, true) && Identifiers(Split(raw)).Some?
    ensures var pre := Identifiers(Split(raw)).value;
            pre != [] && Join(Values(pre)) == raw && forall x :: x in pre ==> WellFormedIdentifier(x)
  {
    hide Split, Join, ValidPart, WellFormedIdentifier;
    IdentifiersKeepText(Split(raw));
    JoinOfSplit(raw);
  }

  /** A parsed version renders to the very text it came from: no two spellings of one version. */
  lemma ParsedIsNormal(value: string)
    requires ParsePrecedence(value).Some?
    ensures WellFormed(ParsePrecedence(value).value)
    ensures Render(ParsePrecedence(value).value) == value
  {
    hide Split, Join, Index, Identifiers, ValidList, CoreNumber, Values, WellFormedIdentifier;
    var v := ParsePrecedence(value).value;
    var dash := Index(value, '-');
    var parts := Split(value[..dash]);
    JoinOfSplit(value[..dash]);
    CoreNumberIsNumeral(parts[0]);
    CoreNumberIsNumeral(parts[1]);
    CoreNumberIsNumeral(parts[2]);
    assert parts == [Numeral(v.major), Numeral(v.minor), Numeral(v.patch)];
    if dash < |value| {
      PreKeepsText(value[dash + 1..]);
      assert value == value[..dash] + "-" + value[dash + 1..];
    } else {
      assert value[..dash] == value;
    }
  }

  lemma CharsOfJoin(parts: seq<string>, c: char)
    requires parts != [] && c != '.' && forall p :: p in parts ==> c !in p
    ensures c !in Join(parts)
  {
    if |parts| > 1 {
      CharsOfJoin(parts[1..], c);
    }
  }

  lemma DigitsHave(s: string, c: char)
    requires IsDigits(s) && !IsDigit(c)
    ensures c !in s
  {
  }

  lemma NumeralIsCoreNumber(n: nat)
    requires n <= MAX_INT
    ensures CoreNumber(Numeral(n)) == Some(n) && '.' !in Numeral(n) && '-' !in Numeral(n)
  {
    NumberOfNumeral(n);
    DigitsHave(Numeral(n), '.');
    DigitsHave(Numeral(n), '-');
  }

  lemma CoreIsParsed(v: Version)
    requires v.major <= MAX_INT && v.minor <= MAX_INT && v.patch <= MAX_INT
    ensures Split(RenderCore(v)) == [Numeral(v.major), Numeral(v.minor), Numeral(v.patch)]
    ensures '-' !in RenderCore(v)
  {
    hide Split, Numeral, Join;
    var numerals := [Numeral(v.major), Numeral(v.minor), Numeral(v.patch)];
    NumeralIsCoreNumber(v.major);
    NumeralIsCoreNumber(v.minor);
    NumeralIsCoreNumber(v.patch);
    SplitOfJoin(numerals);
    CharsOfJoin(numerals, '-');
  }

  lemma PreIsParsed(pre: seq<Identifier>)
    requires pre != [] && forall x :: x in pre ==> WellFormedIdentifier(x)
    ensures Split(Join(Values(pre))) == Values(pre)
    ensures ValidList(Join(Values(pre)), true)
  {
    hide Split, WellFormedIdentifier, IsDigits, LeadingZero;
    var raws := Values(pre);
    forall p | p in raws ensures ValidPart(p, true) && '.' !in p {
      var i :| 0 <= i < |raws| && raws[i] == p;
      PartOfIdentifier(pre[i]);
    }
    SplitOfJoin(raws);
    assert ValidPart(raws[0], true);
    JoinNotEmpty(raws);
  }

  lemma PartOfIdentifier(x: Identifier)
    requires WellFormedIdentifier(x)
    ensures ValidPart(x.value, true) && '.' !in x.value
  {
    forall i | 0 <= i < |x.value| ensures x.value[i] != '.' {
      assert IdentifierChar(x.value[i]);
    }
  }

  /** Every well-formed version is read back from its text. */
  lemma NormalIsParsed(v: Version)
    requires WellFormed(v)
    ensures ParsePrecedence(Render(v)) == Some(v)
  {
    hide Split, Join, Index, Identifiers, ValidList, CoreNumber, Values, WellFormedIdentifier, RenderCore, Numeral;
    var core, value := RenderCore(v), Render(v);
    CoreIsParsed(v);
    NumeralIsCoreNumber(v.major);
    NumeralIsCoreNumber(v.minor);
    NumeralIsCoreNumber(v.patch);
    if v.pre == [] {
      IndexAfter(core, '-', "");
      assert value[..|core|] == core;
    } else {
      var pre := Join(Values(v.pre));
      IndexAfter(core, '-', pre);
      assert value == core + ['-'] + pre;
      assert value[..|core|] == core && value[|core| + 1..] == pre;
      PreIsParsed(v.pre);
      IdentifiersOfValues(v.pre);
    }
  }

  lemma JoinNotEmpty(parts: seq<string>)
    requires parts != [] && parts[0] != ""
    ensures Join(parts) != ""
  {
  }

  // ---------------------------------------------------------------- the order

  function CompareInt(a: int, b: int): int {
    if a < b then -1 else if a > b then 1 else 0
  }

  /** Lexicographic comparison: the first difference decides, then the length. */
  function Lexicographic<T>(cmp: (T, T) -> int, a: seq<T>, b: seq<T>): int {
    if a == [] || b == [] then CompareInt(|a|, |b|)
    else if cmp(a[0], b[0]) != 0 then cmp(a[0], b[0])
    else Lexicographic(cmp, a[1..], b[1..])
  }

  /** A comparison that is antisymmetric and transitive. */
  ghost predicate IsOrder<T(!new)>(cmp: (T, T) -> int) {
    && (forall x, y :: cmp(x, y) == -cmp(y, x))
    && (forall x, y, z :: Chains(cmp, x, y, z))
  }

  ghost predicate Chains<T>(cmp: (T, T) -> int, x: T, y: T, z: T) {
    cmp(x, y) <= 0 && cmp(y, z) <= 0 ==> cmp(x, z) <= 0 && (cmp(x, z) == 0 ==> cmp(x, y) == 0 && cmp(y, z) == 0)
  }

  lemma {:induction false} LexicographicAntisymmetric<T(!new)>(cmp: (T, T) -> int, a: seq<T>, b: seq<T>)
    requires IsOrder(cmp)
    ensures Lexicographic(cmp, a, b) == -Lexicographic(cmp, b, a)
  {
    if a != [] && b != [] && cmp(a[0], b[0]) == 0 {
      LexicographicAntisymmetric(cmp, a[1..], b[1..]);
    }
  }

  lemma {:induction false} LexicographicChains<T(!new)>(cmp: (T, T) -> int, a: seq<T>, b: seq<T>, c: seq<T>)
    requires IsOrder(cmp)
    ensures Chains((x, y) => Lexicographic(cmp, x, y), a, b, c)
  {
    if a != [] && b != [] && c != [] {
      assert Chains(cmp, a[0], b[0], c[0]);
      LexicographicChains(cmp, a[1..], b[1..], c[1..]);
      assert cmp(a[0], b[0]) == -cmp(b[0], a[0]);
      assert Chains(cmp, b[0], a[0], c[0]);
    }
  }

  function CompareChars(a: char, b: char): int {
    CompareInt(a as int, b as int)
  }

  function CompareStrings(a: string, b: string): int {
    Lexicographic(CompareChars, a, b)
  }

  function CompareIdentifiers(a: Identifier, b: Identifier): int {
    if a.numeric && b.numeric then CompareInt(a.number, b.number)
    else if a.numeric then -1
    else if b.numeric then 1
    else CompareStrings(a.value, b.value)
  }

  function CompareCore(a: Version, b: Version): int {
    if a.major != b.major then CompareInt(a.major, b.major)
    else if a.minor != b.minor then CompareInt(a.minor, b.minor)
    else CompareInt(a.patch, b.patch)
  }

  function ComparePre(a: seq<Identifier>, b: seq<Identifier>): int {
    if a == [] && b == [] then 0
    else if a == [] then 1
    else if b == [] then -1
    else Lexicographic(CompareIdentifiers, a, b)
  }

  function Compare(a: Version, b: Version): int {
    if CompareCore(a, b) != 0 then CompareCore(a, b) else ComparePre(a.pre, b.pre)
  }

  lemma StringsAreOrdered()
    ensures IsOrder(CompareStrings)
  {
    assert IsOrder(CompareChars);
    forall a: string, b: string ensures CompareStrings(a, b) == -CompareStrings(b, a) {
      LexicographicAntisymmetric(CompareChars, a, b);
    }
    forall a: string, b: string, c: string ensures Chains(CompareStrings, a, b, c) {
      LexicographicChains(CompareChars, a, b, c);
    }
  }

  lemma IdentifiersAreOrdered()
    ensures IsOrder(CompareIdentifiers)
  {
    hide CompareStrings;
    StringsAreOrdered();
    forall a: Identifier, b: Identifier, c: Identifier ensures Chains(CompareIdentifiers, a, b, c) {
      assert Chains(CompareStrings, a.value, b.value, c.value);
    }
  }

  /** Comparison is antisymmetric and transitive on all versions, whatever order they come in. */
  lemma VersionsAreOrdered()
    ensures IsOrder(Compare)
  {
    hide Lexicographic;
    IdentifiersAreOrdered();
    forall a: Version, b: Version ensures Compare(a, b) == -Compare(b, a) {
      LexicographicAntisymmetric(CompareIdentifiers, a.pre, b.pre);
    }
    forall a: Version, b: Version, c: Version ensures Chains(Compare, a, b, c) {
      LexicographicChains(CompareIdentifiers, a.pre, b.pre, c.pre);
      PreChains(a.pre, b.pre, c.pre);
    }
  }

  lemma PreChains(a: seq<Identifier>, b: seq<Identifier>, c: seq<Identifier>)
    requires Chains((x, y) => Lexicographic(CompareIdentifiers, x, y), a, b, c)
    ensures Chains(ComparePre, a, b, c)
  {
    hide Lexicographic;
  }

  // ---------------------------------------------------------------- precedence, as the standard states it

  /** The first difference decides; a proper prefix is lower. */
  ghost predicate Lower<T>(less: (T, T) -> bool, a: seq<T>, b: seq<T>) {
    exists i :: LowerAt(less, a, b, i)
  }

  ghost predicate LowerAt<T>(less: (T, T) -> bool, a: seq<T>, b: seq<T>, i: int) {
    0 <= i <= |a| && i < |b| && a[..i] == b[..i] && (i == |a| || less(a[i], b[i]))
  }

  ghost predicate Agrees<T>(cmp: (T, T) -> int, less: (T, T) -> bool, x: T, y: T) {
    (cmp(x, y) == 0 <==> x == y) && (cmp(x, y) < 0 <==> less(x, y))
  }

  lemma {:induction false} LexicographicIsLower<T>(cmp: (T, T) -> int, less: (T, T) -> bool, a: seq<T>, b: seq<T>)
    requires forall i, j :: 0 <= i < |a| && 0 <= j < |b| ==> Agrees(cmp, less, a[i], b[j])
    ensures Lexicographic(cmp, a, b) < 0 <==> Lower(less, a, b)
    ensures Lexicographic(cmp, a, b) == 0 <==> a == b
  {
    if a == [] || b == [] {
      if a == [] && b != [] {
        assert LowerAt(less, a, b, 0);
      }
    } else {
      assert Agrees(cmp, less, a[0], b[0]);
      LexicographicIsLower(cmp, less, a[1..], b[1..]);
      LowerTail(less, a, b);
      if a[0] == b[0] {
        assert a == [a[0]] + a[1..] && b == [b[0]] + b[1..];
      }
    }
  }

  lemma HeadOfPrefix<T>(a: seq<T>, b: seq<T>, i: int)
    requires a != [] && b != [] && 0 <= i <= |a| && i <= |b|
    ensures a[..i] == b[..i] ==> i == 0 || a[0] == b[0]
  {
    if a[..i] == b[..i] && i > 0 {
      assert a[0] == a[..i][0];
    }
  }

  lemma LowerTail<T>(less: (T, T) -> bool, a: seq<T>, b: seq<T>)
    requires a != [] && b != []
    requires a[0] == b[0] ==> !less(a[0], b[0])
    ensures Lower(less, a, b) <==> if a[0] == b[0] then Lower(less, a[1..], b[1..]) else less(a[0], b[0])
  {
    if a[0] == b[0] {
      if Lower(less, a, b) {
        var i :| LowerAt(less, a, b, i);
        assert i > 0;
        assert a[1..][..i - 1] == a[..i][1..] && b[1..][..i - 1] == b[..i][1..];
        assert LowerAt(less, a[1..], b[1..], i - 1);
      }
      if Lower(less, a[1..], b[1..]) {
        var i :| LowerAt(less, a[1..], b[1..], i);
        assert a[..i + 1] == [a[0]] + a[1..][..i] && b[..i + 1] == [b[0]] + b[1..][..i];
        assert LowerAt(less, a, b, i + 1);
      }
    } else {
      if Lower(less, a, b) {
        var i :| LowerAt(less, a, b, i);
        HeadOfPrefix(a, b, i);
        assert i == 0;
      }
      if less(a[0], b[0]) {
        assert LowerAt(less, a, b, 0);
      }
    }
  }

  predicate LowerChar(a: char, b: char) { a < b }

  /** Numeric identifiers by value, below all others; the others in ASCII order. */
  ghost predicate LowerIdentifier(a: Identifier, b: Identifier) {
    if a.numeric && b.numeric then a.number < b.number
    else if a.numeric || b.numeric then a.numeric
    else Lower(LowerChar, a.value, b.value)
  }

  /** Section 11 of Semantic Versioning 2.0.0: a has lower precedence than b. */
  ghost predicate Precedes(a: Version, b: Version) {
    || a.major < b.major
    || (a.major == b.major && a.minor < b.minor)
    || (a.major == b.major && a.minor == b.minor && a.patch < b.patch)
    || (a.major == b.major && a.minor == b.minor && a.patch == b.patch && LowerPre(a.pre, b.pre))
  }

  ghost predicate LowerPre(a: seq<Identifier>, b: seq<Identifier>) {
    if b == [] then a != [] else a != [] && Lower(LowerIdentifier, a, b)
  }

  lemma IdentifiersAgree(a: Identifier, b: Identifier)
    requires WellFormedIdentifier(a) && WellFormedIdentifier(b)
    ensures Agrees(CompareIdentifiers, LowerIdentifier, a, b)
  {
    forall i, j | 0 <= i < |a.value| && 0 <= j < |b.value|
      ensures Agrees(CompareChars, LowerChar, a.value[i], b.value[j])
    {
    }
    LexicographicIsLower(CompareChars, LowerChar, a.value, b.value);
    if a.numeric && b.numeric {
      NumeralOfNumber(a.value);
      NumeralOfNumber(b.value);
    }
  }

  /** The code's comparison is the standard's precedence, and only a version compares equal to itself. */
  lemma CompareIsPrecedence(a: Version, b: Version)
    requires WellFormed(a) && WellFormed(b)
    ensures Compare(a, b) < 0 <==> Precedes(a, b)
    ensures Compare(a, b) == 0 <==> a == b
    ensures Compare(a, b) > 0 <==> Precedes(b, a)
  {
    hide WellFormedIdentifier, CompareIdentifiers, LowerIdentifier, Lexicographic, Lower;
    forall i, j | 0 <= i < |a.pre| && 0 <= j < |b.pre|
      ensures Agrees(CompareIdentifiers, LowerIdentifier, a.pre[i], b.pre[j])
      ensures Agrees(CompareIdentifiers, LowerIdentifier, b.pre[j], a.pre[i])
    {
      IdentifiersAgree(a.pre[i], b.pre[j]);
      IdentifiersAgree(b.pre[j], a.pre[i]);
    }
    LexicographicIsLower(CompareIdentifiers, LowerIdentifier, a.pre, b.pre);
    LexicographicIsLower(CompareIdentifiers, LowerIdentifier, b.pre, a.pre);
    VersionsAreOrdered();
    assert Compare(a, b) == -Compare(b, a);
  }

  /** Two parsed texts compare equal exactly when they differ in nothing but the build metadata. */
  lemma EqualUpToMetadata(x: string, y: string)
    requires Parse(x).Some? && Parse(y).Some?
    ensures Compare(Parse(x).value, Parse(y).value) == 0 <==> Precedence(x) == Precedence(y)
  {
    hide Render, ParsePrecedence, WellFormed, Compare, ValidMetadata, Precedence;
    ParsedIsNormal(Precedence(x));
    ParsedIsNormal(Precedence(y));
    CompareIsPrecedence(Parse(x).value, Parse(y).value);
  }

  // ---------------------------------------------------------------- the loops

  method IdentifierList(value: string, prerelease: bool) returns (ok: bool)
    ensures ok == ValidList(value, prerelease)
    ensures ok ==> value != ""
  {
    if value == "" {
      return false;
    }
    var parts := Split(value);
    for n := 0 to |parts|
      invariant forall k :: 0 <= k < n ==> ValidPart(parts[k], prerelease)
    {
      var part := parts[n];
      assert part in parts;
      if part == "" {
        return false;
      }
      for k := 0 to |part|
        invariant forall j :: 0 <= j < k ==> IdentifierChar(part[j])
      {
        if !IdentifierChar(part[k]) {
          return false;
        }
      }
      if prerelease && IsDigits(part) && LeadingZero(part) {
        return false;
      }
    }
    ok := true;
  }

  lemma {:induction false} IdentifiersStep(raws: seq<string>, n: nat)
    requires n < |raws|
    ensures Identifiers(raws).Some? ==> Identifiers(raws[..n]).Some? && IdentifierOf(raws[n]).Some?
    ensures Identifiers(raws[..n]).Some? && IdentifierOf(raws[n]).Some? ==>
              Identifiers(raws[..n + 1]) == Some(Identifiers(raws[..n]).value + [IdentifierOf(raws[n]).value])
  {
    if n > 0 {
      IdentifiersStep(raws[1..], n - 1);
      assert raws[..n][1..] == raws[1..][..n - 1] && raws[..n + 1][1..] == raws[1..][..n];
      if Identifiers(raws[..n]).Some? && IdentifierOf(raws[n]).Some? {
        assert Identifiers(raws[..n + 1]).value == Identifiers(raws[..n]).value + [IdentifierOf(raws[n]).value];
      }
    } else {
      var one := raws[..1];
      EmptyIdentifiers();
      assert one[1..] == [] && raws[..0] == [] && one == raws[..n + 1];
      if IdentifierOf(raws[n]).Some? {
        var none: seq<Identifier>, x := [], IdentifierOf(raws[n]).value;
        assert Identifiers(one) == Some([x] + none);
        assert [x] + none == none + [x];
      }
    }
  }

  lemma EmptyIdentifiers()
    ensures Identifiers([]) == Some([])
  {
  }

  method CompareVersions(a: Version, b: Version) returns (r: int)
    ensures r == Compare(a, b)
  {
    r := CompareInt(a.major, b.major);
    if r != 0 {
      return;
    }
    r := CompareInt(a.minor, b.minor);
    if r != 0 {
      return;
    }
    r := CompareInt(a.patch, b.patch);
    if r != 0 {
      return;
    }
    if a.pre == [] && b.pre == [] {
      return 0;
    }
    if a.pre == [] {
      return 1;
    }
    if b.pre == [] {
      return -1;
    }
    var limit := if |b.pre| < |a.pre| then |b.pre| else |a.pre|;
    for n := 0 to limit
      invariant Lexicographic(CompareIdentifiers, a.pre, b.pre)
             == Lexicographic(CompareIdentifiers, a.pre[n..], b.pre[n..])
    {
      r := CompareIdentifiers(a.pre[n], b.pre[n]);
      if r != 0 {
        return;
      }
      assert a.pre[n..][1..] == a.pre[n + 1..] && b.pre[n..][1..] == b.pre[n + 1..];
    }
    r := CompareInt(|a.pre|, |b.pre|);
  }

  method ParseVersion(version: string) returns (r: Option<Version>)
    ensures r == Parse(version)
  {
    hide Split, Index, ValidList, CoreNumber, Identifiers, IdentifierOf, TrimSpace;
    var value := TrimV(TrimSpace(version));
    if value == "" {
      return None;
    }
    var plus := Index(value, '+');
    if plus < |value| {
      var ok := IdentifierList(value[plus + 1..], false);
      if !ok {
        return None;
      }
    }
    value := value[..plus];
    assert value == Precedence(version);
    var dash := Index(value, '-');
    var raw := "";
    if dash < |value| {
      raw := value[dash + 1..];
      var ok := IdentifierList(raw, true);
      if !ok {
        return None;
      }
    }
    var parts := Split(value[..dash]);
    if |parts| != 3 {
      return None;
    }
    var major, minor, patch := CoreNumber(parts[0]), CoreNumber(parts[1]), CoreNumber(parts[2]);
    if major.None? || minor.None? || patch.None? {
      return None;
    }
    var pre := [];
    if raw != "" {
      var raws := Split(raw);
      EmptyIdentifiers();
      for n := 0 to |raws|
        invariant Identifiers(raws[..n]) == Some(pre)
      {
        IdentifiersStep(raws, n);
        var identifier := IdentifierOf(raws[n]);
        if identifier.None? {
          return None;
        }
        pre := pre + [identifier.value];
      }
      assert raws[..|raws|] == raws;
    }
    r := Some(Version(major.value, minor.value, patch.value, pre));
  }

  // ---------------------------------------------------------------- the update offer

  datatype Offer = Invalid | Checked(available: bool, version: string)

  predicate IsNewer(a: string, b: string) {
    Parse(a).Some? && Parse(b).Some? && Compare(Parse(a).value, Parse(b).value) > 0
  }

  /** The release with this tag, seen from the running version; hasAsset: it has a file for this platform. */
  function EvaluateRelease(tag: string, current: string, hasAsset: bool): Offer {
    var latest := TrimV(TrimSpace(tag));
    if Parse(latest).None? then Invalid
    else Checked(IsNewer(latest, current) && hasAsset, latest)
  }

  /** An update is offered exactly when the release has a file and a higher precedence than what runs. */
  lemma OffersOnlyNewer(tag: string, current: string, hasAsset: bool)
    ensures var r := EvaluateRelease(tag, current, hasAsset);
            r.Checked? && r.available <==>
              hasAsset && Parse(TrimV(TrimSpace(tag))).Some? && Parse(current).Some?
              && Precedes(Parse(current).value, Parse(TrimV(TrimSpace(tag))).value)
  {
    hide Compare, Precedes, ParsePrecedence, Precedence, ValidMetadata, TrimSpace;
    var latest := TrimV(TrimSpace(tag));
    if Parse(latest).Some? && Parse(current).Some? {
      ParsedIsNormal(Precedence(latest));
      ParsedIsNormal(Precedence(current));
      CompareIsPrecedence(Parse(latest).value, Parse(current).value);
    }
  }

  /** Updates never go round: whoever was offered b over a is not offered, later, anything up to a. */
  lemma NoDowngradeChain(a: string, tagB: string, tagC: string)
    requires EvaluateRelease(tagB, a, true) == Checked(true, TrimV(TrimSpace(tagB)))
    requires EvaluateRelease(tagC, TrimV(TrimSpace(tagB)), true) == Checked(true, TrimV(TrimSpace(tagC)))
    ensures IsNewer(TrimV(TrimSpace(tagC)), a)
    ensures EvaluateRelease(tagC, TrimV(TrimSpace(tagC)), true) == Checked(false, TrimV(TrimSpace(tagC)))
    ensures forall tag, hasAsset :: TrimV(TrimSpace(tag)) == a ==>
              EvaluateRelease(tag, TrimV(TrimSpace(tagC)), hasAsset) == Checked(false, a)
  {
    hide Compare, Parse, TrimSpace;
    VersionsAreOrdered();
    var b, c := TrimV(TrimSpace(tagB)), TrimV(TrimSpace(tagC));
    assert Chains(Compare, Parse(a).value, Parse(b).value, Parse(c).value);
    assert Compare(Parse(a).value, Parse(b).value) == -Compare(Parse(b).value, Parse(a).value);
    assert Compare(Parse(b).value, Parse(c).value) == -Compare(Parse(c).value, Parse(b).value);
    assert Compare(Parse(a).value, Parse(c).value) == -Compare(Parse(c).value, Parse(a).value);
    assert Compare(Parse(c).value, Parse(c).value) == -Compare(Parse(c).value, Parse(c).value);
  }
}
