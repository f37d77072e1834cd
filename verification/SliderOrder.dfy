/**
 What the order of slider candidates means (core/captcha_v2_slider.go, rankSliderGuessesV2), and where it
 falls short: a candidate without a second score can be tried before one that has it.
 */
module SliderOrder {
  import opened Finite
  import opened Slider
  import opened SliderRanking
  import opened Wrappers

  // ---------------------------------------------------------------- ranks

  lemma RankBelow(less: Order, among: set<nat>, x: nat)
    requires StrictTotal(less) && x in among
    ensures Rank(less, among, x) < |among|
  {
    var before := set y | y in among && less(y, x);
    SubsetSize(before, among - {x});
  }

  lemma RankAscends(less: Order, among: set<nat>, a: nat, b: nat)
    requires StrictTotal(less) && a in among && less(a, b)
    ensures Rank(less, among, a) < Rank(less, among, b)
  {
    var before, more := set y | y in among && less(y, a), set y | y in among && less(y, b);
    assert before <= more - {a};
    SubsetSize(before, more - {a});
  }

  lemma StageTwoSize(n: nat, s: Scores)
    ensures |StageTwo(n, s)| == if n > 12 then 12 else n
  {
    hide Rank, All, By, Sort;
    var indexes := seq(n, i => i + 1);
    AllIndexes(n, indexes);
    ByIsTotal(s.luma);
    var order := Sort(indexes, By(s.luma));
    SortMeaning(indexes, By(s.luma));
    FirstTwelve(n, s, order);
    var first := order[..if n > STAGE_TWO then STAGE_TWO else n];
    DistinctCount(first, By(s.luma));
  }

  // ---------------------------------------------------------------- the scores decide

  /** In every score a is at least as good as b, and a has the smaller number where they are equal. */
  predicate AtLeastAsGood(s: Scores, a: nat, b: nat) {
    && (s.luma(a) < s.luma(b) || (s.luma(a) == s.luma(b) && a < b))
    && (s.rgb(a) < s.rgb(b) || (s.rgb(a) == s.rgb(b) && a < b))
    && (s.text(a) < s.text(b) || (s.text(a) == s.text(b) && a < b))
  }

  lemma BetterIsEarlier(n: nat, s: Scores, a: nat, b: nat)
    requires a in StageTwo(n, s) && b in StageTwo(n, s) && AtLeastAsGood(s, a, b)
    ensures FinalLess(n, s)(a, b)
  {
    hide Rank;
    ByIsTotal(s.luma);
    ByIsTotal(s.rgb);
    ByRealIsTotal(s.text);
    RankAscends(By(s.luma), All(n), a, b);
    RankAscends(By(s.rgb), StageTwo(n, s), a, b);
    RankAscends(ByReal(s.text), StageTwo(n, s), a, b);
  }

  lemma RankingFollows(n: nat, s: Scores, r: seq<nat>, i: nat, k: nat)
    requires IsRanking(n, s, r) && i < |r| && k < |r| && FinalLess(n, s)(r[i], r[k])
    ensures i < k
  {
    hide Consensus, All, ByBoth;
    ByBothIsTotal((x: nat) => Consensus(n, s, x), s.luma);
    assert StrictTotal(FinalLess(n, s));
    assert !FinalLess(n, s)(r[i], r[i]);
  }

  /** Among the candidates with a second score, one at least as good in every score is tried first; so it
      is among those without one, where only the luma counts. */
  lemma BetterIsTriedFirst(n: nat, s: Scores, r: seq<nat>, i: nat, k: nat)
    requires IsRanking(n, s, r) && i < |r| && k < |r|
    requires r[i] in StageTwo(n, s) <==> r[k] in StageTwo(n, s)
    requires r[i] in StageTwo(n, s) ==> AtLeastAsGood(s, r[i], r[k])
    requires s.luma(r[i]) < s.luma(r[k]) || (s.luma(r[i]) == s.luma(r[k]) && r[i] < r[k])
    ensures i < k
  {
    assert r[i] in Elements(r) && r[k] in Elements(r);
    if r[i] in StageTwo(n, s) {
      BetterIsEarlier(n, s, r[i], r[k]);
    } else {
      ByIsTotal(s.luma);
      RankAscends(By(s.luma), All(n), r[i], r[k]);
    }
    RankingFollows(n, s, r, i, k);
  }

  // ---------------------------------------------------------------- who has a second score

  /** The candidates that fewer than twelve others beat in the luma score, ties going to the smaller number. */
  lemma SecondScoreExactly(n: nat, s: Scores, k: nat)
    ensures k in StageTwo(n, s) <==>
              && 1 <= k <= n
              && |set y | y in All(n) && (s.luma(y) < s.luma(k) || (s.luma(y) == s.luma(k) && y < k))| < 12
  {
    assert (set y | y in All(n) && By(s.luma)(y, k))
        == (set y | y in All(n) && (s.luma(y) < s.luma(k) || (s.luma(y) == s.luma(k) && y < k)));
  }

  // ---------------------------------------------------------------- candidates without a second score

  lemma SecondScoresFirst(n: nat, s: Scores, a: nat, b: nat)
    requires n >= 21 && a in StageTwo(n, s) && b in All(n) && b !in StageTwo(n, s)
    ensures FinalLess(n, s)(a, b)
  {
    hide Rank, By;
    ByIsTotal(s.luma);
    ByIsTotal(s.rgb);
    ByRealIsTotal(s.text);
    StageTwoSize(n, s);
    RankBelow(By(s.rgb), StageTwo(n, s), a);
    RankBelow(ByReal(s.text), StageTwo(n, s), a);
    if By(s.luma)(b, a) {
      RankAscends(By(s.luma), All(n), b, a);
    }
    assert By(s.luma)(a, b);
    LumaDecides(s, a, b);
  }

  lemma LumaDecides(s: Scores, a: nat, b: nat)
    requires By(s.luma)(a, b)
    ensures s.luma(a) < s.luma(b) || (s.luma(a) == s.luma(b) && a < b)
  {
  }

  /** Every score of a candidate is its number: the earlier, the better. */
  function InOrder(): Scores {
    Scores((k: nat) => k, (k: nat) => k, (k: nat) => k as real)
  }

  lemma RankInOrder(less: Order, m: nat, k: nat)
    requires 1 <= k <= m && forall a: nat, b: nat :: less(a, b) <==> a < b
    ensures Rank(less, All(m), k) == k - 1
  {
    assert (set y | y in All(m) && less(y, k)) == All(k - 1);
  }

  lemma InOrderStageTwo(n: nat)
    requires n >= 12
    ensures StageTwo(n, InOrder()) == All(12)
  {
    hide Rank, All;
    var s := InOrder();
    forall k | k in All(n) ensures k in StageTwo(n, s) <==> k <= 12 {
      RankInOrder(By(s.luma), n, k);
    }
    assert forall k :: k in All(12) ==> k in All(n);
  }

  /** With 13 to 20 candidates, the twelfth of them, ahead of the thirteenth in every score, is tried after it. */
  lemma ThirteenthBeforeTwelfth(n: nat)
    requires 13 <= n <= 20
    ensures var s := InOrder();
            && 12 in StageTwo(n, s) && 13 in All(n) && 13 !in StageTwo(n, s)
            && AtLeastAsGood(s, 12, 13) && FinalLess(n, s)(13, 12)
  {
    hide Rank, By, ByReal, All, StageTwo;
    var s := InOrder();
    InOrderStageTwo(n);
    ByInOrder();
    RankInOrder(By(s.luma), n, 12);
    RankInOrder(By(s.luma), n, 13);
    RankInOrder(By(s.rgb), 12, 12);
    RankInOrder(ByReal(s.text), 12, 12);
  }

  lemma ByInOrder()
    ensures forall a: nat, b: nat :: By(InOrder().luma)(a, b) <==> a < b
    ensures forall a: nat, b: nat :: By(InOrder().rgb)(a, b) <==> a < b
    ensures forall a: nat, b: nat :: ByReal(InOrder().text)(a, b) <==> a < b
  {
  }

  /** The candidates with a second score are always tried before the others exactly when there are no others,
      or at least 21 candidates in all. */
  lemma SecondScoresFirstExactly(n: nat)
    ensures (forall s: Scores, a: nat, b: nat ::
               a in StageTwo(n, s) && b in All(n) && b !in StageTwo(n, s) ==> FinalLess(n, s)(a, b))
            <==> n <= 12 || n >= 21
  {
    hide FinalLess, Rank, By, StageTwo, All;
    if n <= 12 {
      forall s: Scores, b: nat | b in All(n) ensures b in StageTwo(n, s) {
        EveryoneHasSecondScore(n, s, b);
      }
    } else if n >= 21 {
      forall s: Scores, a: nat, b: nat | a in StageTwo(n, s) && b in All(n) && b !in StageTwo(n, s)
        ensures FinalLess(n, s)(a, b)
      {
        SecondScoresFirst(n, s, a, b);
      }
    } else {
      ThirteenthBeforeTwelfth(n);
      NotBoth(n, InOrder(), 12, 13);
    }
  }

  lemma EveryoneHasSecondScore(n: nat, s: Scores, b: nat)
    requires n <= 12 && b in All(n)
    ensures b in StageTwo(n, s)
  {
    ByIsTotal(s.luma);
    RankBelow(By(s.luma), All(n), b);
  }

  lemma NotBoth(n: nat, s: Scores, a: nat, b: nat)
    ensures !(FinalLess(n, s)(a, b) && FinalLess(n, s)(b, a))
  {
    hide Consensus;
  }
}
