/** The string functions of Go's library the models rely on. */
module Strings {

  /** The first position of c, or the length. */
  function Index(s: string, c: char): (i: nat)
    ensures i <= |s| && c !in s[..i]
    ensures i < |s| ==> s[i] == c
  {
    if s == "" || s[0] == c then 0 else 1 + Index(s[1..], c)
  }

  lemma {:induction false} IndexIs(s: string, c: char, k: nat)
    requires k <= |s| && c !in s[..k] && (k < |s| ==> s[k] == c)
    ensures Index(s, c) == k
  {
    if k > 0 {
      assert s[0] == s[..k][0];
      assert s[1..][..k - 1] == s[..k][1..];
      IndexIs(s[1..], c, k - 1);
    }
  }

  lemma IndexAfter(a: string, c: char, b: string)
    requires c !in a
    ensures Index(a + [c] + b, c) == |a| && Index(a, c) == |a|
  {
    assert (a + [c] + b)[..|a|] == a && a[..|a|] == a;
    IndexIs(a + [c] + b, c, |a|);
    IndexIs(a, c, |a|);
  }

  predicate IsSpace(c: char) {
    || '\t' <= c <= '\r' || c == ' ' || c == '\U{0085}' || c == '\U{00A0}' || c == '\U{1680}'
    || '\U{2000}' <= c <= '\U{200A}' || '\U{2028}' <= c <= '\U{2029}' || c == '\U{202F}'
    || c == '\U{205F}' || c == '\U{3000}'
  }

  function TrimSpace(s: string): string {
    if s == "" then s
    else if IsSpace(s[0]) then TrimSpace(s[1..])
    else if IsSpace(s[|s| - 1]) then TrimSpace(s[..|s| - 1])
    else s
  }

  /** Nothing is trimmed from a string without white space. */
  lemma TrimSpaceKeeps(s: string)
    requires forall i :: 0 <= i < |s| ==> !IsSpace(s[i])
    ensures TrimSpace(s) == s
  {
  }

  predicate AllSpace(s: string) {
    forall i :: 0 <= i < |s| ==> IsSpace(s[i])
  }

  /** White space around a text that begins and ends with none is what is trimmed. */
  lemma {:induction false} TrimSpaceAround(before: string, s: string, after: string)
    requires AllSpace(before) && AllSpace(after) && s != "" && !IsSpace(s[0]) && !IsSpace(s[|s| - 1])
    ensures TrimSpace(before + s + after) == s
    decreases |before| + |after|
  {
    var whole := before + s + after;
    if before != "" {
      assert whole[1..] == before[1..] + s + after;
      TrimSpaceAround(before[1..], s, after);
    } else if after != "" {
      assert whole[0] == s[0] && whole[..|whole| - 1] == before + s + after[..|after| - 1];
      TrimSpaceAround(before, s, after[..|after| - 1]);
    } else {
      assert whole == s;
    }
  }

  lemma TrimSpaceStep(s: string)
    requires s != ""
    ensures IsSpace(s[0]) ==> TrimSpace(s) == TrimSpace(s[1..])
    ensures !IsSpace(s[0]) && IsSpace(s[|s| - 1]) ==> TrimSpace(s) == TrimSpace(s[..|s| - 1])
    ensures !IsSpace(s[0]) && !IsSpace(s[|s| - 1]) ==> TrimSpace(s) == s
  {
  }

  lemma NothingToTrim()
    ensures TrimSpace("") == ""
  {
  }

  /** Only white space is trimmed, at both ends. */
  lemma {:induction false} TrimSpaceSplits(s: string) returns (before: string, after: string)
    ensures s == before + TrimSpace(s) + after && AllSpace(before) && AllSpace(after)
    ensures TrimSpace(s) != "" ==> !IsSpace(TrimSpace(s)[0]) && !IsSpace(TrimSpace(s)[|TrimSpace(s)| - 1])
    decreases |s|
  {
    hide TrimSpace, IsSpace;
    before, after := "", "";
    if s == "" {
      NothingToTrim();
    } else {
      TrimSpaceStep(s);
      if IsSpace(s[0]) {
        before, after := TrimSpaceSplits(s[1..]);
        assert s == [s[0]] + (before + TrimSpace(s) + after);
        before := [s[0]] + before;
      } else if IsSpace(s[|s| - 1]) {
        before, after := TrimSpaceSplits(s[..|s| - 1]);
        assert s == (before + TrimSpace(s) + after) + [s[|s| - 1]];
        after := after + [s[|s| - 1]];
      }
    }
  }
}
