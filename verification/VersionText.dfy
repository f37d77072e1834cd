/**
 The texts that are read as a version, and what a release with such a tag offers (backend/update.go,
 parseSemanticVersion and evaluateRelease), in the terms of section 2, 9 and 10 of Semantic Versioning 2.0.0.
 */
module VersionText {
  import opened SemVer
  import opened Strings
  import opened Wrappers

  // ---------------------------------------------------------------- versions and metadata, by their characters

  /** ASCII letters, digits and hyphens, at least one. */
  predicate Alphanumeric(s: string) {
    s != "" && forall i :: 0 <= i < |s| ==>
      '0' <= s[i] <= '9' || 'A' <= s[i] <= 'Z' || 'a' <= s[i] <= 'z' || s[i] == '-'
  }

  predicate AllDigits(s: string) {
    forall i :: 0 <= i < |s| ==> '0' <= s[i] <= '9'
  }

  /** A numeric identifier has no leading zero; its number must fit a 64-bit int. */
  ghost predicate GoodIdentifier(x: Identifier) {
    && Alphanumeric(x.value)
    && if AllDigits(x.value)
       then x.numeric && (|x.value| > 1 ==> x.value[0] != '0') && x.number == Number(x.value) <= 9223372036854775807
       else !x.numeric && x.number == 0
  }

  ghost predicate GoodVersion(v: Version) {
    && v.major <= 9223372036854775807 && v.minor <= 9223372036854775807 && v.patch <= 9223372036854775807
    && forall x :: x in v.pre ==> GoodIdentifier(x)
  }

  /** Dot-separated identifiers. */
  predicate GoodParts(parts: seq<string>) {
    parts != [] && forall p :: p in parts ==> Alphanumeric(p)
  }

  lemma GoodIdentifierMeaning(x: Identifier)
    ensures GoodIdentifier(x) <==> WellFormedIdentifier(x)
  {
    assert x.value != "" ==> (AllDigits(x.value) <==> IsDigits(x.value));
    assert Alphanumeric(x.value) <==> x.value != "" && forall i :: 0 <= i < |x.value| ==> IdentifierChar(x.value[i]);
  }

  lemma GoodVersionMeaning(v: Version)
    ensures GoodVersion(v) <==> WellFormed(v)
  {
    hide GoodIdentifier, WellFormedIdentifier;
    forall x: Identifier ensures GoodIdentifier(x) <==> WellFormedIdentifier(x) {
      GoodIdentifierMeaning(x);
    }
  }

  lemma GoodPart(p: string)
    ensures Alphanumeric(p) <==> ValidPart(p, false)
    ensures Alphanumeric(p) ==> '.' !in p && '+' !in p
    ensures Alphanumeric(p) ==> !IsSpace(p[0]) && !IsSpace(p[|p| - 1])
  {
  }

  lemma GoodPartsMeaning(meta: string)
    ensures ValidList(meta, false) <==> exists parts :: GoodParts(parts) && meta == Join(parts)
  {
    hide Split, Join, ValidPart, Alphanumeric;
    forall p: string ensures Alphanumeric(p) <==> ValidPart(p, false) {
      GoodPart(p);
    }
    if ValidList(meta, false) {
      JoinOfSplit(meta);
      assert GoodParts(Split(meta));
    }
    forall parts | GoodParts(parts) && meta == Join(parts) ensures ValidList(meta, false) {
      GoodListOfParts(parts);
    }
  }

  lemma GoodListOfParts(parts: seq<string>)
    requires GoodParts(parts)
    ensures ValidList(Join(parts), false)
  {
    hide Split, Join, ValidPart, Alphanumeric;
    forall p | p in parts ensures ValidPart(p, false) && '.' !in p {
      GoodPart(p);
    }
    SplitOfJoin(parts);
    GoodPart(parts[0]);
    NonEmptyPart(parts[0]);
    JoinNotEmpty(parts);
  }

  lemma NonEmptyPart(p: string)
    requires ValidPart(p, false)
    ensures p != ""
  {
  }

  // ---------------------------------------------------------------- ends of texts

  lemma {:induction false} JoinEnds(parts: seq<string>)
    requires parts != [] && forall i :: 0 <= i < |parts| ==> parts[i] != ""
    ensures Join(parts) != "" && Join(parts)[0] == parts[0][0]
    ensures var last := parts[|parts| - 1]; Join(parts)[|Join(parts)| - 1] == last[|last| - 1]
  {
    if |parts| > 1 {
      JoinEnds(parts[1..]);
      assert Join(parts) == parts[0] + "." + Join(parts[1..]);
    }
  }

  lemma CoreEnds(v: Version)
    ensures var t := RenderCore(v); t != "" && IsDigit(t[0]) && IsDigit(t[|t| - 1]) && '+' !in t
  {
    hide Join, Numeral;
    var parts := [Numeral(v.major), Numeral(v.minor), Numeral(v.patch)];
    DigitsHave(parts[0], '+');
    DigitsHave(parts[1], '+');
    DigitsHave(parts[2], '+');
    JoinEnds(parts);
    CharsOfJoin(parts, '+');
    assert parts[0] == Numeral(v.major) && parts[2] == Numeral(v.patch);
  }

  lemma PreEnds(pre: seq<Identifier>)
    requires pre != [] && forall x :: x in pre ==> GoodIdentifier(x)
    ensures var t := Join(Values(pre)); t != "" && !IsSpace(t[|t| - 1]) && '+' !in t
  {
    hide Join, IsSpace;
    var parts := Values(pre);
    forall p | p in parts ensures p != "" && '+' !in p && !IsSpace(p[|p| - 1]) {
      var i :| 0 <= i < |parts| && parts[i] == p;
      assert GoodIdentifier(pre[i]);
      GoodPart(p);
    }
    JoinEnds(parts);
    CharsOfJoin(parts, '+');
  }

  lemma RenderEnds(v: Version)
    requires GoodVersion(v)
    ensures var t := Render(v); t != "" && IsDigit(t[0]) && !IsSpace(t[0]) && !IsSpace(t[|t| - 1]) && '+' !in t
  {
    hide Join, Values, RenderCore, GoodIdentifier;
    CoreEnds(v);
    if v.pre != [] {
      PreEnds(v.pre);
      var core, pre := RenderCore(v), Join(Values(v.pre));
      assert Render(v) == core + "-" + pre;
    }
  }

  lemma PartsEnds(parts: seq<string>)
    requires GoodParts(parts)
    ensures var t := Join(parts); t != "" && !IsSpace(t[|t| - 1])
  {
    hide Join, IsSpace;
    forall p | p in parts ensures p != "" && !IsSpace(p[|p| - 1]) {
      GoodPart(p);
    }
    JoinEnds(parts);
  }

  // ---------------------------------------------------------------- the texts that are versions

  /** The version's own text, after an optional v and before optional metadata. */
  ghost predicate IsBody(body: string, v: Version, tag: string, meta: string) {
    && GoodVersion(v) && (tag == "" || tag == "v") && body == tag + Render(v) + meta
    && (meta == "" || exists parts :: GoodParts(parts) && meta == "+" + Join(parts))
  }

  ghost predicate Spells(text: string, v: Version, before: string, tag: string, meta: string, after: string) {
    && text == before + (tag + Render(v) + meta) + after && IsBody(tag + Render(v) + meta, v, tag, meta)
    && AllSpace(before) && AllSpace(after)
  }

  lemma BodyEnds(body: string, v: Version, tag: string, meta: string)
    requires IsBody(body, v, tag, meta)
    ensures body != "" && !IsSpace(body[0]) && !IsSpace(body[|body| - 1])
    ensures TrimV(body) == Render(v) + meta
  {
    hide Render, Join, GoodVersion, Alphanumeric, IsSpace;
    RenderEnds(v);
    NotSpaces();
    if meta != "" {
      var parts :| GoodParts(parts) && meta == "+" + Join(parts);
      PartsEnds(parts);
    }
    if tag == "v" {
      assert body[1..] == Render(v) + meta;
    } else {
      assert body == Render(v) + meta && body[0] == Render(v)[0] && body[0] != 'v';
    }
  }

  lemma NotSpaces()
    ensures !IsSpace('v') && forall c :: IsDigit(c) ==> c != 'v' && !IsSpace(c)
  {
  }

  lemma RestIsRead(v: Version, meta: string)
    requires IsBody(Render(v) + meta, v, "", meta)
    ensures var rest := Render(v) + meta; var plus := Index(rest, '+');
            && rest != "" && plus == |Render(v)| && rest[..plus] == Render(v)
            && (plus < |rest| ==> ValidList(rest[plus + 1..], false))
  {
    hide Render, Join, GoodVersion, Alphanumeric, Index, ValidList;
    RenderEnds(v);
    if meta == "" {
      assert Render(v) + meta == Render(v);
      IndexAfter(Render(v), '+', "");
      assert Render(v)[..|Render(v)|] == Render(v);
    } else {
      var parts :| GoodParts(parts) && meta == "+" + Join(parts);
      IndexAfter(Render(v), '+', Join(parts));
      assert Render(v) + meta == Render(v) + ['+'] + Join(parts);
      assert (Render(v) + meta)[|Render(v)| + 1..] == Join(parts);
      GoodListOfParts(parts);
    }
  }

  /** Every way to write a version is read as that version. */
  lemma SpelledIsParsed(text: string, v: Version, before: string, tag: string, meta: string, after: string)
    requires Spells(text, v, before, tag, meta, after)
    ensures Parse(text) == Some(v) && TrimV(TrimSpace(text)) == Render(v) + meta
  {
    hide Render, Index, ValidList, ParsePrecedence, TrimSpace, TrimV, GoodVersion, IsSpace;
    var body := tag + Render(v) + meta;
    BodyEnds(body, v, tag, meta);
    TrimSpaceAround(before, body, after);
    assert "" + Render(v) + meta == Render(v) + meta;
    assert IsBody(Render(v) + meta, v, "", meta);
    RestIsRead(v, meta);
    GoodVersionMeaning(v);
    NormalIsParsed(v);
    assert Precedence(text) == Render(v);
  }

  /** The text between the white space, taken apart. */
  lemma BodyOfParsed(text: string) returns (tag: string, meta: string)
    requires Parse(text).Some?
    ensures TrimSpace(text) == tag + Render(Parse(text).value) + meta
    ensures IsBody(TrimSpace(text), Parse(text).value, tag, meta)
  {
    hide Render, Index, ValidList, ParsePrecedence, TrimSpace, GoodVersion, Join, Alphanumeric;
    var trimmed := TrimSpace(text);
    tag := if "v" <= trimmed then "v" else "";
    var value := TrimV(trimmed);
    var plus := Index(value, '+');
    meta := value[plus..];
    ParsedIsNormal(value[..plus]);
    GoodVersionMeaning(Parse(text).value);
    assert value == value[..plus] + meta;
    if plus < |value| {
      GoodPartsMeaning(value[plus + 1..]);
      assert meta == "+" + value[plus + 1..];
    }
    assert trimmed == tag + value;
  }

  lemma ParsedIsSpelled(text: string) returns (before: string, tag: string, meta: string, after: string)
    requires Parse(text).Some?
    ensures Spells(text, Parse(text).value, before, tag, meta, after)
  {
    hide Render, Parse, TrimSpace, IsBody, IsSpace, AllSpace;
    before, after := TrimSpaceSplits(text);
    tag, meta := BodyOfParsed(text);
  }

  /** A text is read as a version exactly when it is that version's text, with or without a v before it
      and metadata behind it, and with any white space around. */
  lemma ParsedExactly(text: string, v: Version)
    ensures Parse(text) == Some(v) <==> exists before, tag, meta, after :: Spells(text, v, before, tag, meta, after)
  {
    hide Parse, Spells;
    if Parse(text) == Some(v) {
      var before, tag, meta, after := ParsedIsSpelled(text);
    }
    forall before, tag, meta, after | Spells(text, v, before, tag, meta, after) ensures Parse(text) == Some(v) {
      SpelledIsParsed(text, v, before, tag, meta, after);
    }
  }

  /** What follows the first plus must be a list of identifiers. */
  lemma BadMetadataIsRefused(before: string, value: string, meta: string, after: string)
    requires AllSpace(before) && AllSpace(after) && value != "" && !IsSpace(value[0]) && '+' !in value
    requires meta == "" || !IsSpace(meta[|meta| - 1])
    requires forall parts :: GoodParts(parts) ==> meta != Join(parts)
    ensures Parse(before + (value + "+" + meta) + after) == None
  {
    hide ParsePrecedence, Index, ValidList, TrimSpace, IsSpace, AllSpace;
    var body := value + "+" + meta;
    PlusIsNoSpace();
    TrimSpaceAround(before, body, after);
    var rest := if value[0] == 'v' then value[1..] else value;
    assert TrimV(body) == rest + "+" + meta;
    IndexAfter(rest, '+', meta);
    assert rest + ['+'] + meta == rest + "+" + meta;
    assert (rest + "+" + meta)[|rest| + 1..] == meta;
    GoodPartsMeaning(meta);
  }

  lemma PlusIsNoSpace()
    ensures !IsSpace('+')
  {
  }

  // ---------------------------------------------------------------- what is offered

  /** A release tagged with a version, a v before it, is offered over another exactly when it has a
      file and the higher precedence; the offer names the version without the v and the white space. */
  lemma OfferExactly(tag: string, current: string, v: Version, c: Version, hasAsset: bool,
                     before: string, mark: string, meta: string, after: string,
                     before2: string, mark2: string, meta2: string, after2: string)
    requires Spells(tag, v, before, mark, meta, after) && Spells(current, c, before2, mark2, meta2, after2)
    ensures EvaluateRelease(tag, current, hasAsset) == Checked(Precedes(c, v) && hasAsset, Render(v) + meta)
  {
    hide Parse, TrimSpace, TrimV, Precedes, Compare, WellFormed, Render, GoodVersion;
    SpelledIsParsed(tag, v, before, mark, meta, after);
    SpelledIsParsed(current, c, before2, mark2, meta2, after2);
    LatestIsParsed(v, meta);
    GoodVersionMeaning(v);
    GoodVersionMeaning(c);
    CompareIsPrecedence(v, c);
  }

  lemma LatestIsParsed(v: Version, meta: string)
    requires exists mark :: IsBody(mark + Render(v) + meta, v, mark, meta)
    ensures Parse(Render(v) + meta) == Some(v)
  {
    hide Parse, Render, GoodVersion;
    var none := "";
    assert none + (none + Render(v) + meta) + none == Render(v) + meta;
    SpelledIsParsed(Render(v) + meta, v, none, none, meta, none);
  }

  /** Tags that are no version are refused, and nothing is offered over a running version that is none. */
  lemma RefusedExactly(tag: string, current: string, hasAsset: bool)
    ensures EvaluateRelease(tag, current, hasAsset) == Invalid <==> Parse(TrimV(TrimSpace(tag))) == None
    ensures Parse(current) == None && EvaluateRelease(tag, current, hasAsset).Checked? ==>
              !EvaluateRelease(tag, current, hasAsset).available
  {
    hide Parse, TrimSpace, TrimV, Compare;
  }

  /** A tag that is a v and a version, seen from a running version. */
  lemma PlainTagIsOffered(v: Version, c: Version, hasAsset: bool)
    requires GoodVersion(v) && GoodVersion(c)
    ensures EvaluateRelease("v" + Render(v), Render(c), hasAsset) == Checked(Precedes(c, v) && hasAsset, Render(v))
    ensures Parse(Render(v)) == Parse("v" + Render(v)) == Some(v)
  {
    hide Parse, TrimSpace, TrimV, Precedes, Compare, WellFormed, Render, GoodVersion;
    var none := "";
    assert none + ("v" + Render(v) + none) + none == "v" + Render(v);
    assert none + (none + Render(v) + none) + none == Render(v);
    assert none + (none + Render(c) + none) + none == Render(c);
    assert Spells("v" + Render(v), v, none, "v", none, none) && Spells(Render(v), v, none, none, none, none);
    assert Spells(Render(c), c, none, none, none, none);
    SpelledIsParsed("v" + Render(v), v, none, "v", none, none);
    SpelledIsParsed(Render(v), v, none, none, none, none);
    OfferExactly("v" + Render(v), Render(c), v, c, hasAsset, none, "v", none, none, none, none, none, none);
    assert Render(v) + none == Render(v);
  }
}
