/**
 VK call hashes (backend/vk_hash.go): the normal form of what a user or VK gives, and the loop that
 asks VK for new ones.
 */
module VkHash {
  import opened Strings
  import opened Wrappers

  const MAX_HASHES := 4
  const MIN_LENGTH := 16

  predicate HashChar(c: char) {
    '0' <= c <= '9' || 'A' <= c <= 'Z' || 'a' <= c <= 'z' || c == '_' || c == '-'
  }

  predicate Normal(h: string) {
    |h| >= MIN_LENGTH && forall i :: 0 <= i < |h| ==> HashChar(h[i])
  }

  function LowerChar(c: char): char {
    if 'A' <= c <= 'Z' then (c as int + 32) as char else c
  }

  predicate HasPrefixFold(s: string, prefix: string) {
    |prefix| <= |s| && forall i :: 0 <= i < |prefix| ==> LowerChar(s[i]) == prefix[i]
  }

  predicate IsUrl(s: string) {
    HasPrefixFold(s, "http://") || HasPrefixFold(s, "https://")
  }

  function Before(s: string, c: char): string {
    s[..Index(s, c)]
  }

  function TrimSlashes(s: string): string {
    if s == "" then s
    else if s[0] == '/' then TrimSlashes(s[1..])
    else if s[|s| - 1] == '/' then TrimSlashes(s[..|s| - 1])
    else s
  }

  /** What follows /call/join/ in the path of a VK link; None for any other link. */
  type Links = string -> Option<string>

  function FromLink(links: Links, s: string): Option<string> {
    if !IsUrl(s) then Some(s)
    else match links(s)
      case None => None
      case Some(path) => Some(Before(TrimSlashes(TrimSpace(path)), '/'))
  }

  function Normalize(links: Links, raw: string): Option<string> {
    var s := TrimSpace(raw);
    if s == "" || FromLink(links, s).None? then None
    else
      var value := TrimSpace(Before(Before(FromLink(links, s).value, '?'), '#'));
      if Normal(value) then Some(value) else None
  }

  /** What every other part relies on: results are in normal form, and the normal form is a fixed point. */
  ghost predicate Normalizer(f: string -> Option<string>) {
    && (forall raw :: f(raw).Some? ==> Normal(f(raw).value))
    && (forall h :: Normal(h) ==> f(h) == Some(h))
  }

  lemma BeforeKeeps(s: string, c: char)
    requires c !in s
    ensures Before(s, c) == s
  {
    IndexIs(s, c, |s|);
  }

  lemma NormalIsPlain(h: string)
    requires Normal(h)
    ensures TrimSpace(h) == h && !IsUrl(h) && '?' !in h && '#' !in h && '/' !in h
  {
    forall i | 0 <= i < |h| ensures !IsSpace(h[i]) {
      assert HashChar(h[i]);
    }
    TrimSpaceKeeps(h);
    assert HashChar(h[4]) && HashChar(h[5]);
  }

  lemma NormalizeIsNormalizer(links: Links)
    ensures Normalizer(raw => Normalize(links, raw))
  {
    forall h | Normal(h) ensures Normalize(links, h) == Some(h) {
      NormalIsPlain(h);
      BeforeKeeps(h, '?');
      BeforeKeeps(h, '#');
    }
  }

  /** Trimming takes nothing from a text that starts and ends with a kept character, only what follows it. */
  lemma {:induction false} TrimSpaceAfter(h: string, rest: string) returns (k: nat)
    requires h != "" && !IsSpace(h[0]) && !IsSpace(h[|h| - 1])
    ensures k <= |rest| && TrimSpace(h + rest) == h + rest[..k]
    decreases |rest|
  {
    var s := h + rest;
    k := |rest|;
    if IsSpace(s[|s| - 1]) {
      assert s[..|s| - 1] == h + rest[..|rest| - 1];
      k := TrimSpaceAfter(h, rest[..|rest| - 1]);
      assert rest[..|rest| - 1][..k] == rest[..k];
    } else {
      assert rest[..k] == rest;
    }
  }

  lemma {:induction false} TrimSlashesAfter(h: string, rest: string) returns (k: nat)
    requires h != "" && h[0] != '/' && h[|h| - 1] != '/'
    ensures k <= |rest| && TrimSlashes(h + rest) == h + rest[..k]
    decreases |rest|
  {
    var s := h + rest;
    k := |rest|;
    if s[|s| - 1] == '/' {
      assert s[..|s| - 1] == h + rest[..|rest| - 1];
      k := TrimSlashesAfter(h, rest[..|rest| - 1]);
      assert rest[..|rest| - 1][..k] == rest[..k];
    } else {
      assert rest[..k] == rest;
    }
  }

  /** A VK link and the hash in it are one hash, whatever follows the hash in the path. */
  lemma LinkNamesItsHash(links: Links, raw: string, h: string, rest: string)
    requires Normal(h) && IsUrl(TrimSpace(raw))
    requires links(TrimSpace(raw)) == Some(h + rest) && (rest == "" || rest[0] == '/')
    ensures Normalize(links, raw) == Normalize(links, h) == Some(h)
  {
    hide TrimSpace, TrimSlashes, IsUrl;
    NormalizeIsNormalizer(links);
    NormalIsPlain(h);
    assert HashChar(h[0]) && HashChar(h[|h| - 1]);
    var k := TrimSpaceAfter(h, rest);
    var m := TrimSlashesAfter(h, rest[..k]);
    var tail := rest[..k][..m];
    assert (h + tail)[..|h|] == h;
    IndexIs(h + tail, '/', |h|);
    BeforeKeeps(h, '?');
    BeforeKeeps(h, '#');
    NotEmpty(raw);
  }

  lemma NotEmpty(raw: string)
    ensures IsUrl(TrimSpace(raw)) ==> TrimSpace(raw) != ""
  {
  }

  // ---------------------------------------------------------------- what is a hash

  /** At least sixteen ASCII digits, letters, hyphens and underscores. */
  lemma NormalMeaning(h: string)
    ensures Normal(h) <==>
              |h| >= 16 && forall i :: 0 <= i < |h| ==>
                var n := h[i] as int; 48 <= n <= 57 || 65 <= n <= 90 || 97 <= n <= 122 || n == 45 || n == 95
  {
  }

  lemma {:induction false} IndexStays(s: string, c: char, t: string)
    ensures Before(s, c) <= s && c !in Before(s, c)
    ensures Before(s, c) == s || s[|Before(s, c)|] == c
  {
    var i := Index(s, c);
    if i == |s| { assert s[..i] == s; }
  }

  /** A text that is no link, taken apart: white space, the hash, white space, and anything behind a ? or a #. */
  ghost predicate PlainText(raw: string, h: string, before: string, gap: string, tail: string) {
    && raw == before + h + gap + tail && AllSpace(before) && AllSpace(gap)
    && (tail == "" || tail[0] == '?' || tail[0] == '#')
  }

  lemma CutAtMark(h: string, gap: string, tail: string)
    requires Normal(h) && AllSpace(gap) && (tail == "" || tail[0] == '?' || tail[0] == '#')
    ensures Before(Before(h + gap + tail, '?'), '#') == h + gap
  {
    NormalIsPlain(h);
    assert '?' !in gap && '#' !in gap;
    var s := h + gap + tail;
    BeforeKeeps(h + gap, '?');
    BeforeKeeps(h + gap, '#');
    if tail == "" {
      assert s == h + gap;
    } else if tail[0] == '?' {
      assert s[..|h + gap|] == h + gap;
      IndexIs(s, '?', |h + gap|);
    } else {
      var t := Before(s, '?');
      var n := |h + gap|;
      assert forall i :: 0 <= i <= n ==> s[i] == (h + gap + ['#'])[i];
      IndexPast(s, '?', n);
      IndexStays(s, '?', tail);
      assert t[..|h + gap|] == s[..|h + gap|] == h + gap && t[|h + gap|] == s[|h + gap|] == '#';
      IndexIs(t, '#', |h + gap|);
    }
  }

  lemma IndexPast(s: string, c: char, n: nat)
    requires n < |s| && forall i :: 0 <= i <= n ==> s[i] != c
    ensures |Before(s, c)| > n
  {
  }

  lemma EndsOfNormal(h: string)
    requires Normal(h)
    ensures h != "" && !IsSpace(h[0]) && !IsSpace(h[|h| - 1])
  {
    assert HashChar(h[0]) && HashChar(h[|h| - 1]);
  }

  lemma PlainTextIsRead(links: Links, raw: string, h: string, before: string, gap: string, tail: string)
    requires Normal(h) && PlainText(raw, h, before, gap, tail) && !IsUrl(TrimSpace(raw))
    ensures Normalize(links, raw) == Some(h)
  {
    hide TrimSpace, IsUrl, Normal, Before, IsSpace;
    EndsOfNormal(h);
    var rest := gap + tail;
    var trimmed := TrimSpace(raw);
    var b, a := TrimSpaceSplits(raw);
    BeforeIsTrimmed(raw, before, h, rest);
    var k := TrimSpaceAfter(h, rest);
    assert trimmed == h + rest[..k];
    if k <= |gap| {
      assert rest[..k] == gap[..k] + "";
      assert h + rest[..k] == h + gap[..k] + "";
      CutAtMark(h, gap[..k], "");
      TrimSpaceAround("", h, gap[..k]);
      assert "" + h + gap[..k] == h + gap[..k];
    } else {
      assert rest[..k] == gap + tail[..k - |gap|];
      assert h + rest[..k] == h + gap + tail[..k - |gap|];
      CutAtMark(h, gap, tail[..k - |gap|]);
      TrimSpaceAround("", h, gap);
      assert "" + h + gap == h + gap;
    }
  }

  lemma {:induction false} BeforeIsTrimmed(raw: string, before: string, h: string, rest: string)
    requires raw == before + h + rest && AllSpace(before) && h != "" && !IsSpace(h[0])
    ensures TrimSpace(raw) == TrimSpace(h + rest)
    decreases |before|
  {
    hide IsSpace;
    if before == "" {
      assert raw == h + rest;
    } else {
      assert raw[1..] == before[1..] + h + rest;
      BeforeIsTrimmed(raw[1..], before[1..], h, rest);
    }
  }

  lemma ReadIsPlainText(links: Links, raw: string) returns (before: string, gap: string, tail: string)
    requires Normalize(links, raw).Some? && !IsUrl(TrimSpace(raw))
    ensures PlainText(raw, Normalize(links, raw).value, before, gap, tail)
  {
    hide TrimSpace, IsUrl, Normal, Before, IsSpace, AllSpace;
    var h, s := Normalize(links, raw).value, TrimSpace(raw);
    var after;
    before, after := TrimSpaceSplits(raw);
    var first := Before(s, '?');
    var second := Before(first, '#');
    IndexStays(s, '?', "");
    IndexStays(first, '#', "");
    var b, g := TrimSpaceSplits(second);
    assert second == b + h + g;
    assert s == second + s[|second|..];
    before := before + b;
    if second == s {
      gap, tail := g + after, "";
      SpacesJoin(g, after);
    } else {
      gap, tail := g, s[|second|..] + after;
    }
    SpacesJoin(before[..|before| - |b|], b);
    assert before == before[..|before| - |b|] + b;
  }

  lemma SpacesJoin(a: string, b: string)
    ensures AllSpace(a) && AllSpace(b) ==> AllSpace(a + b)
  {
  }

  /** A text that is no link names a hash exactly when it is that hash with white space around, and perhaps
      a ? or a # and anything more behind it. */
  lemma PlainTextExactly(links: Links, raw: string, h: string)
    requires !IsUrl(TrimSpace(raw))
    ensures Normalize(links, raw) == Some(h) <==>
              Normal(h) && exists before, gap, tail :: PlainText(raw, h, before, gap, tail)
  {
    hide TrimSpace, IsUrl, Normal, Before, IsSpace, AllSpace, PlainText;
    NormalizeIsNormalizer(links);
    if Normalize(links, raw) == Some(h) {
      var before, gap, tail := ReadIsPlainText(links, raw);
      NormalizedIsNormal(links, raw);
    }
    forall before, gap, tail | Normal(h) && PlainText(raw, h, before, gap, tail) ensures Normalize(links, raw) == Some(h) {
      PlainTextIsRead(links, raw, h, before, gap, tail);
    }
  }

  lemma NormalizedIsNormal(links: Links, raw: string)
    requires Normalize(links, raw).Some?
    ensures Normal(Normalize(links, raw).value)
  {
  }

  /** Links are told by their scheme, in any case of letters. */
  lemma LinksAreTold(scheme: string, rest: string)
    requires |scheme| == 4 || |scheme| == 5
    requires scheme[0] in "hH" && scheme[1] in "tT" && scheme[2] in "tT" && scheme[3] in "pP" && (|scheme| == 5 ==> scheme[4] in "sS")
    ensures IsUrl(scheme + "://" + rest)
  {
    var text := scheme + "://" + rest;
    var prefix := if |scheme| == 4 then "http://" else "https://";
    forall i | 0 <= i < |prefix| ensures LowerChar(text[i]) == prefix[i] {
      if i < |scheme| {
        assert text[i] == scheme[i];
      } else {
        assert text[i] == ("://" + rest)[i - |scheme|];
      }
    }
    assert HasPrefixFold(text, prefix);
  }

  /** Everything else is taken as it is. */
  lemma OnlyLinksAreTold(s: string)
    requires IsUrl(s)
    ensures |s| >= 7 && s[0] in "hH" && s[1] in "tT" && s[2] in "tT" && s[3] in "pP"
    ensures s[4..7] == "://" || (|s| >= 8 && s[4] in "sS" && s[5..8] == "://")
  {
    forall c: char ensures LowerChar(c) == 'h' ==> c in "hH" {}
    forall c: char ensures LowerChar(c) == 't' ==> c in "tT" {}
    forall c: char ensures LowerChar(c) == 'p' ==> c in "pP" {}
    forall c: char ensures LowerChar(c) == 's' ==> c in "sS" {}
    assert LowerChar(s[0]) == 'h' && LowerChar(s[1]) == 't' && LowerChar(s[2]) == 't' && LowerChar(s[3]) == 'p';
    if HasPrefixFold(s, "http://") {
      assert LowerChar(s[4]) == ':' && LowerChar(s[5]) == '/' && LowerChar(s[6]) == '/';
    } else {
      assert LowerChar(s[4]) == 's' && LowerChar(s[5]) == ':' && LowerChar(s[6]) == '/' && LowerChar(s[7]) == '/';
    }
  }

  // ---------------------------------------------------------------- new hashes

  datatype CallReply = Link(text: string) | CallFailed

  datatype GenerateError = BadCount | Exhausted | Stopped | Failed | BadLink

  /** VK's side of the loop: the reply to each attempt, and whether the wait before it was canceled. */
  datatype Vk = Vk(reply: nat -> CallReply, canceled: nat -> bool)

  /** The hash in reply n, if VK answered with a good link. */
  function HashOf(f: string -> Option<string>, vk: Vk, n: nat): Option<string> {
    match vk.reply(n)
    case Link(text) => f(text)
    case CallFailed => None
  }

  ghost predicate GoodReplies(f: string -> Option<string>, vk: Vk, n: nat) {
    forall k: nat :: k < n ==> HashOf(f, vk, k).Some?
  }

  /** The hashes of the first n replies that were not known, each once, in order. */
  function Fresh(f: string -> Option<string>, vk: Vk, n: nat, known: set<string>): seq<string> {
    if n == 0 then []
    else
      var before := Fresh(f, vk, n - 1, known);
      match HashOf(f, vk, n - 1)
      case None => before
      case Some(h) => if h in known || h in before then before else before + [h]
  }

  /** New hashes are distinct, unknown, in normal form, and none that VK gave is missing. */
  lemma {:induction false} FreshMeaning(f: string -> Option<string>, vk: Vk, n: nat, known: set<string>)
    requires Normalizer(f)
    ensures var r := Fresh(f, vk, n, known);
            && (forall i :: 0 <= i < |r| ==> r[i] !in known && Normal(r[i]))
            && (forall i, j :: 0 <= i < j < |r| ==> r[i] != r[j])
            && (forall k: nat :: k < n && HashOf(f, vk, k).Some? ==>
                  HashOf(f, vk, k).value in known || HashOf(f, vk, k).value in r)
  {
    if n > 0 {
      FreshMeaning(f, vk, n - 1, known);
    }
  }

  function Known(f: string -> Option<string>, existing: seq<string>): (r: set<string>)
    ensures forall i :: 0 <= i < |existing| && f(existing[i]).Some? ==> f(existing[i]).value in r
    ensures forall h :: h in r ==> exists i :: 0 <= i < |existing| && f(existing[i]) == Some(h)
  {
    set i | 0 <= i < |existing| && f(existing[i]).Some? :: f(existing[i]).value
  }

  /** How the loop ends from the moment when n good replies are in: the hashes, the replies used, the error. */
  function Generate(f: string -> Option<string>, count: nat, known: set<string>, vk: Vk, n: nat)
    : (seq<string>, nat, Option<GenerateError>)
    decreases count + MAX_HASHES - n
  {
    var result := Fresh(f, vk, n, known);
    if |result| >= count then (result, n, None)
    else if n >= count + MAX_HASHES then (result, n, Some(Exhausted))
    else if n > 0 && vk.canceled(n) then (result, n, Some(Stopped))
    else if vk.reply(n).CallFailed? then (result, n + 1, Some(Failed))
    else if HashOf(f, vk, n).None? then (result, n + 1, Some(BadLink))
    else Generate(f, count, known, vk, n + 1)
  }

  /** The one hash that a replacement asks for. */
  function OneHash(f: string -> Option<string>, existing: seq<string>, vk: Vk): Option<string> {
    var (result, _, error) := Generate(f, 1, Known(f, existing), vk, 0);
    if error.None? && result != [] then Some(result[0]) else None
  }

  lemma {:induction false} GeneratedIsFresh(f: string -> Option<string>, count: nat, known: set<string>, vk: Vk, n: nat)
    ensures var (result, used, error) := Generate(f, count, known, vk, n); result == Fresh(f, vk, used, known)
    decreases count + MAX_HASHES - n
  {
    if |Fresh(f, vk, n, known)| < count && n < count + MAX_HASHES && !(n > 0 && vk.canceled(n))
       && !vk.reply(n).CallFailed? && HashOf(f, vk, n).Some? {
      GeneratedIsFresh(f, count, known, vk, n + 1);
    }
  }

  /** It goes on only while hashes are missing and no wait is canceled. */
  lemma {:induction false} GenerateGoesOn(f: string -> Option<string>, count: nat, known: set<string>, vk: Vk, n: nat)
    ensures var used := Generate(f, count, known, vk, n).1;
            && n <= used
            && (forall k: nat :: n <= k < used ==> |Fresh(f, vk, k, known)| < count && (k > 0 ==> !vk.canceled(k)))
            && (forall k: nat :: n <= k < used - 1 ==> HashOf(f, vk, k).Some?)
    decreases count + MAX_HASHES - n
  {
    hide Fresh, HashOf;
    if |Fresh(f, vk, n, known)| < count && n < count + MAX_HASHES && !(n > 0 && vk.canceled(n))
       && !vk.reply(n).CallFailed? && HashOf(f, vk, n).Some? {
      GenerateGoesOn(f, count, known, vk, n + 1);
    }
  }

  /** The last reply used had a good link. */
  predicate LastIsGood(f: string -> Option<string>, vk: Vk, n: nat, used: nat) {
    used > n ==> HashOf(f, vk, used - 1).Some?
  }

  /** It stops for enough hashes, a canceled wait, the four spare replies, a failed call or a bad link. */
  lemma {:induction false} GenerateStops(f: string -> Option<string>, count: nat, known: set<string>, vk: Vk, n: nat)
    ensures var (result, used, error) := Generate(f, count, known, vk, n);
            match error
            case None => |result| >= count && LastIsGood(f, vk, n, used)
            case Some(Stopped) => |result| < count && 0 < used < count + 4 && vk.canceled(used) && LastIsGood(f, vk, n, used)
            case Some(Exhausted) => |result| < count && used >= count + 4 && LastIsGood(f, vk, n, used)
            case Some(Failed) => used > n && vk.reply(used - 1).CallFailed?
            case Some(BadLink) => used > n && vk.reply(used - 1).Link? && HashOf(f, vk, used - 1).None?
            case Some(BadCount) => false
    decreases count + MAX_HASHES - n
  {
    hide Fresh, HashOf;
    if |Fresh(f, vk, n, known)| < count && n < count + MAX_HASHES && !(n > 0 && vk.canceled(n))
       && !vk.reply(n).CallFailed? && HashOf(f, vk, n).Some? {
      GenerateStops(f, count, known, vk, n + 1);
      GenerateGoesOn(f, count, known, vk, n + 1);
    }
  }

  /** VK answers every request with the same hash. */
  function Repeating(h: string): Vk {
    Vk((n: nat) => Link(h), (n: nat) => false)
  }

  /** Generation can return a normal hash exactly when no existing one is the same. */
  lemma GenerableExactly(f: string -> Option<string>, existing: seq<string>, h: string)
    requires Normalizer(f) && Normal(h)
    ensures (exists vk :: OneHash(f, existing, vk) == Some(h)) <==> h !in Known(f, existing)
    ensures h !in Known(f, existing) ==> OneHash(f, existing, Repeating(h)) == Some(h)
  {
    hide Known;
    var known := Known(f, existing);
    if h !in known {
      assert Fresh(f, Repeating(h), 0, known) == [];
      assert HashOf(f, Repeating(h), 0) == Some(h);
      assert Fresh(f, Repeating(h), 1, known) == [h];
      assert OneHash(f, existing, Repeating(h)) == Some(h);
    }
    if vk :| OneHash(f, existing, vk) == Some(h) {
      NewIsUnknown(f, existing, vk);
    }
  }

  lemma NewIsUnknown(f: string -> Option<string>, existing: seq<string>, vk: Vk)
    requires Normalizer(f) && OneHash(f, existing, vk).Some?
    ensures OneHash(f, existing, vk).value !in Known(f, existing) && Normal(OneHash(f, existing, vk).value)
  {
    hide Known, Generate, Fresh;
    var known := Known(f, existing);
    GeneratedIsFresh(f, 1, known, vk, 0);
    FreshMeaning(f, vk, Generate(f, 1, known, vk, 0).1, known);
  }

  /** Asks VK until count new hashes are there; at most four replies may be wasted. */
  method GenerateHashes(f: string -> Option<string>, count: int, existing: seq<string>, vk: Vk)
    returns (result: seq<string>, attempts: nat, error: Option<GenerateError>)
    ensures error == Some(BadCount) <==> !(1 <= count <= MAX_HASHES)
    ensures error == Some(BadCount) ==> attempts == 0
    ensures error != Some(BadCount) ==> attempts <= count + MAX_HASHES
    ensures 1 <= count <= MAX_HASHES ==> (result, attempts, error) == Generate(f, count, Known(f, existing), vk, 0)
    ensures result == Fresh(f, vk, attempts, Known(f, existing))
    ensures error.None? <==> |result| == count && error != Some(BadCount)
    ensures error.None? || error == Some(Exhausted) || error == Some(Stopped) ==> GoodReplies(f, vk, attempts)
    ensures error == Some(Exhausted) ==> attempts == count + MAX_HASHES
    ensures error == Some(Stopped) ==> 0 < attempts && vk.canceled(attempts)
    ensures error == Some(Failed) || error == Some(BadLink) ==>
              attempts > 0 && GoodReplies(f, vk, attempts - 1) && HashOf(f, vk, attempts - 1).None?
              && (error == Some(Failed) <==> vk.reply(attempts - 1).CallFailed?)
  {
    result, attempts, error := [], 0, None;
    if count < 1 || count > MAX_HASHES {
      error := Some(BadCount);
      return;
    }
    var seen := Known(f, existing);
    ghost var known := seen;
    var maxAttempts := count + MAX_HASHES;
    while |result| < count
      invariant |result| <= count && attempts <= maxAttempts
      invariant GoodReplies(f, vk, attempts)
      invariant result == Fresh(f, vk, attempts, known)
      invariant Generate(f, count, known, vk, 0) == Generate(f, count, known, vk, attempts)
      invariant forall h :: h in seen <==> h in known || h in result
      invariant error.None?
      decreases maxAttempts - attempts
    {
      if attempts >= maxAttempts {
        error := Some(Exhausted);
        return;
      }
      if attempts > 0 && vk.canceled(attempts) {
        error := Some(Stopped);
        return;
      }
      var reply := vk.reply(attempts);
      attempts := attempts + 1;
      if reply.CallFailed? {
        error := Some(Failed);
        return;
      }
      var hash := f(reply.text);
      if hash.None? {
        error := Some(BadLink);
        return;
      }
      assert hash == HashOf(f, vk, attempts - 1);
      if hash.value !in seen {
        seen := seen + {hash.value};
        result := result + [hash.value];
      }
    }
  }
}
