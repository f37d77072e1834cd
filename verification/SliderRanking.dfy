/**
 The order in which slider candidates are tried (core/captcha_v2_slider.go).  Candidates are numbered
 from 1; their scores are any numbers.  Up to twelve get a second score from a pool of workers, whose
 results arrive in any order.
 */
module SliderRanking {
  import opened Finite
  import opened Slider
  import opened Wrappers

  const STAGE_TWO := 12

  datatype Scores = Scores(luma: nat -> int, rgb: nat -> int, text: nat -> real)

  type Order = (nat, nat) -> bool

  ghost predicate StrictTotal(less: Order) {
    && (forall a: nat :: !less(a, a))
    && (forall a: nat, b: nat :: a != b ==> less(a, b) || less(b, a))
    && (forall a: nat, b: nat, c: nat :: less(a, b) && less(b, c) ==> less(a, c))
  }

  ghost predicate Ascending(s: seq<nat>, less: Order) {
    forall i, j :: 0 <= i < j < |s| ==> less(s[i], s[j])
  }

  function Elements(s: seq<nat>): (r: set<nat>)
    ensures forall x :: x in r <==> x in s
  {
    set x | x in s
  }

  // ---------------------------------------------------------------- sorting

  function Insert(x: nat, s: seq<nat>, less: Order): seq<nat> {
    if s == [] || less(x, s[0]) then [x] + s else [s[0]] + Insert(x, s[1..], less)
  }

  /** Stands for the library's sort; SortedIsUnique says that no other sorted order exists. */
  function Sort(s: seq<nat>, less: Order): seq<nat> {
    if s == [] then [] else Insert(s[0], Sort(s[1..], less), less)
  }

  lemma {:induction false} InsertKeepsOrder(x: nat, s: seq<nat>, less: Order)
    requires StrictTotal(less) && Ascending(s, less) && x !in s
    ensures Ascending(Insert(x, s, less), less) && Elements(Insert(x, s, less)) == Elements(s) + {x}
    ensures |Insert(x, s, less)| == |s| + 1
  {
    if s != [] && !less(x, s[0]) {
      InsertKeepsOrder(x, s[1..], less);
      var rest := Insert(x, s[1..], less);
      assert s == [s[0]] + s[1..];
      forall k | 0 <= k < |rest| ensures less(s[0], rest[k]) {
        assert rest[k] in Elements(s[1..]) + {x};
      }
    } else if s != [] {
      forall k | 0 <= k < |s| ensures less(x, s[k]) {
        assert k > 0 ==> less(s[0], s[k]);
      }
    }
  }

  ghost predicate NoRepeat(s: seq<nat>) {
    forall i, j :: 0 <= i < j < |s| ==> s[i] != s[j]
  }

  lemma {:induction false} SortMeaning(s: seq<nat>, less: Order)
    requires StrictTotal(less) && NoRepeat(s)
    ensures Ascending(Sort(s, less), less) && Elements(Sort(s, less)) == Elements(s) && |Sort(s, less)| == |s|
  {
    if s != [] {
      SortMeaning(s[1..], less);
      assert s == [s[0]] + s[1..];
      assert s[0] !in s[1..];
      assert s[0] !in Elements(Sort(s[1..], less));
      InsertKeepsOrder(s[0], Sort(s[1..], less), less);
    }
  }

  /** An ascending order of given elements is the only one. */
  lemma {:induction false} SortedIsUnique(a: seq<nat>, b: seq<nat>, less: Order)
    requires StrictTotal(less) && Ascending(a, less) && Ascending(b, less) && Elements(a) == Elements(b)
    ensures a == b
  {
    HeadIsLeast(a, less);
    HeadIsLeast(b, less);
    if a != [] {
      assert b != [] && b[0] in Elements(a) && a[0] in Elements(b);
      assert a[0] == b[0];
      TailElements(a, less);
      TailElements(b, less);
      SortedIsUnique(a[1..], b[1..], less);
    }
  }

  lemma HeadIsLeast(s: seq<nat>, less: Order)
    requires StrictTotal(less) && Ascending(s, less)
    ensures s != [] ==> forall x :: x in s && x != s[0] ==> less(s[0], x) && !less(x, s[0])
    ensures s != [] ==> s[0] in Elements(s)
  {
  }

  lemma TailElements(s: seq<nat>, less: Order)
    requires StrictTotal(less) && Ascending(s, less) && s != []
    ensures Elements(s[1..]) == Elements(s) - {s[0]}
  {
    assert s == [s[0]] + s[1..];
  }

  // ---------------------------------------------------------------- ranks

  /** How many of a set come before x. */
  function Rank(less: Order, among: set<nat>, x: nat): nat {
    |set y | y in among && less(y, x)|
  }

  /** The position in an ascending order is the number of elements before. */
  lemma PositionIsRank(order: seq<nat>, less: Order, k: nat)
    requires StrictTotal(less) && Ascending(order, less) && k < |order|
    ensures Rank(less, Elements(order), order[k]) == k
  {
    var before := set y | y in Elements(order) && less(y, order[k]);
    assert before == Elements(order[..k]);
    DistinctCount(order[..k], less);
  }

  lemma {:induction false} DistinctCount(s: seq<nat>, less: Order)
    requires StrictTotal(less) && Ascending(s, less)
    ensures |Elements(s)| == |s|
  {
    if s != [] {
      TailElements(s, less);
      DistinctCount(s[1..], less);
    }
  }

  /** By a score, then by number. */
  function By(key: nat -> int): Order {
    (a: nat, b: nat) => key(a) < key(b) || (key(a) == key(b) && a < b)
  }

  function ByReal(key: nat -> real): Order {
    (a: nat, b: nat) => key(a) < key(b) || (key(a) == key(b) && a < b)
  }

  function ByBoth(first: nat -> int, second: nat -> int): Order {
    (a: nat, b: nat) =>
      first(a) < first(b)
      || (first(a) == first(b) && (second(a) < second(b) || (second(a) == second(b) && a < b)))
  }

  lemma ByIsTotal(key: nat -> int)
    ensures StrictTotal(By(key))
  {
  }

  lemma ByRealIsTotal(key: nat -> real)
    ensures StrictTotal(ByReal(key))
  {
  }

  lemma ByBothIsTotal(first: nat -> int, second: nat -> int)
    ensures StrictTotal(ByBoth(first, second))
  {
    var less := ByBoth(first, second);
    assert forall a: nat :: !less(a, a);
  }

  /** Candidates 1 to n. */
  function All(n: nat): (r: set<nat>)
    ensures forall k: nat :: k in r <==> 1 <= k <= n
    ensures |r| == n
  {
    if n == 0 then {} else All(n - 1) + {n}
  }

  /** Those with fewer than twelve better lumas. */
  function StageTwo(n: nat, s: Scores): set<nat> {
    set k | k in All(n) && Rank(By(s.luma), All(n), k) < STAGE_TWO
  }

  function Consensus(n: nat, s: Scores, k: nat): int {
    Rank(By(s.luma), All(n), k)
    + if k in StageTwo(n, s) then Rank(By(s.rgb), StageTwo(n, s), k) + Rank(ByReal(s.text), StageTwo(n, s), k) else n
  }

  /** By consensus rank, then luma score, then number. */
  function FinalLess(n: nat, s: Scores): Order {
    ByBoth((k: nat) => Consensus(n, s, k), s.luma)
  }

  /** All candidates, once each, in the final order. */
  ghost predicate IsRanking(n: nat, s: Scores, r: seq<nat>) {
    Elements(r) == All(n) && Ascending(r, FinalLess(n, s))
  }

  /** The ranking is a permutation of the candidates and depends on nothing but the scores. */
  lemma RankingIsDetermined(n: nat, s: Scores, a: seq<nat>, b: seq<nat>)
    requires IsRanking(n, s, a) && IsRanking(n, s, b)
    ensures a == b && |a| == n && NoRepeat(a)
  {
    hide Consensus, All, ByBoth;
    ByBothIsTotal((k: nat) => Consensus(n, s, k), s.luma);
    assert StrictTotal(FinalLess(n, s));
    SortedIsUnique(a, b, FinalLess(n, s));
    DistinctCount(a, FinalLess(n, s));
  }

  // ---------------------------------------------------------------- the pool

  /** Jobs not taken, jobs being scored, and results in the order they came. */
  datatype Pool = Pool(queue: seq<nat>, busy: set<nat>, results: seq<nat>)

  datatype Event = Take | Deliver(job: nat)

  predicate Enabled(p: Pool, e: Event) {
    match e
    case Take => p.queue != []
    case Deliver(job) => job in p.busy
  }

  function Apply(p: Pool, e: Event): Pool {
    if !Enabled(p, e) then p
    else match e
      case Take => Pool(p.queue[1..], p.busy + {p.queue[0]}, p.results)
      case Deliver(job) => Pool(p.queue, p.busy - {job}, p.results + [job])
  }

  function Final(p: Pool, events: seq<Event>): Pool
    decreases |events|
  {
    if events == [] then p else Final(Apply(p, events[0]), events[1..])
  }

  /** Every job is in one place. */
  ghost predicate Accounted(p: Pool, jobs: set<nat>) {
    && Elements(p.queue) + p.busy + Elements(p.results) == jobs
    && Elements(p.queue) !! p.busy !! Elements(p.results)
    && NoRepeat(p.queue) && NoRepeat(p.results)
  }

  lemma StepAccounts(p: Pool, e: Event, jobs: set<nat>)
    requires Accounted(p, jobs)
    ensures Accounted(Apply(p, e), jobs)
  {
    if Enabled(p, e) {
      match e {
        case Take => assert p.queue == [p.queue[0]] + p.queue[1..];
        case Deliver(job) => assert job !in Elements(p.results);
      }
    }
  }

  lemma {:induction false} RunAccounts(p: Pool, events: seq<Event>, jobs: set<nat>)
    requires Accounted(p, jobs)
    ensures Accounted(Final(p, events), jobs)
    decreases |events|
  {
    if events != [] {
      StepAccounts(p, events[0], jobs);
      RunAccounts(Apply(p, events[0]), events[1..], jobs);
    }
  }

  /** However many workers there are and however they interleave, each job has one result. */
  lemma ResultsAreComplete(jobs: seq<nat>, events: seq<Event>)
    requires NoRepeat(jobs)
    ensures var end := Final(Pool(jobs, {}, []), events);
            end.queue == [] && end.busy == {} ==> Elements(end.results) == Elements(jobs) && NoRepeat(end.results)
  {
    RunAccounts(Pool(jobs, {}, []), events, Elements(jobs));
  }

  // ---------------------------------------------------------------- the ranking

  /** The permutation of candidate index: its swaps, applied to the tiles in place. */
  ghost predicate IsMapping(gridSize: int, swaps: seq<int>, index: nat, mapping: seq<int>) {
    && |ActiveSwaps(swaps, index)| % 2 == 0 && InRange(TileCount(gridSize), ActiveSwaps(swaps, index))
    && mapping == Swapped(Identity(TileCount(gridSize)), ActiveSwaps(swaps, index))
    && IsPermutation(mapping, TileCount(gridSize))
  }

  /** One permutation for every candidate, unless a swap is out of range. */
  method MapCandidates(gridSize: int, swaps: seq<int>) returns (r: Result<seq<seq<int>>, SwapError>)
    ensures r.Success? ==> |r.value| == |swaps| / 2
    ensures r.Success? ==> forall k :: 0 <= k < |swaps| / 2 ==> IsMapping(gridSize, swaps, k + 1, r.value[k])
    ensures r.Failure? ==> gridSize == 0 || exists k :: 0 <= k < |swaps| && !(0 <= swaps[k] < TileCount(gridSize))
  {
    hide TileCount, IsPermutation;
    var mappings := [];
    for k := 0 to |swaps| / 2
      invariant |mappings| == k
      invariant forall j :: 0 <= j < k ==> IsMapping(gridSize, swaps, j + 1, mappings[j])
    {
      ActiveIsPrefix(swaps, k + 1);
      var mapping := ApplySwaps(gridSize, ActiveSwaps(swaps, k + 1));
      if mapping.Failure? {
        return Failure(mapping.error);
      }
      mappings := mappings + [mapping.value];
    }
    r := Success(mappings);
  }

  method PositionsOf(order: seq<nat>) returns (m: map<nat, nat>)
    requires NoRepeat(order)
    ensures m.Keys == Elements(order) && forall k :: 0 <= k < |order| ==> m[order[k]] == k
  {
    m := map[];
    for k := 0 to |order|
      invariant m.Keys == Elements(order[..k])
      invariant forall j :: 0 <= j < k ==> order[j] in m && m[order[j]] == j
    {
      assert order[..k + 1] == order[..k] + [order[k]];
      m := m[order[k] := k];
    }
    assert order[..|order|] == order;
  }

  lemma AscendingIsDistinct(s: seq<nat>, less: Order)
    requires StrictTotal(less) && Ascending(s, less)
    ensures NoRepeat(s)
  {
  }

  /** Sorts by a score that is known to agree with the real one, and returns the rank of each element. */
  method RanksBy(s: seq<nat>, less: Order, ghost actual: Order) returns (order: seq<nat>, ranks: map<nat, nat>)
    requires StrictTotal(less) && StrictTotal(actual) && NoRepeat(s)
    requires forall a, b :: a in s && b in s ==> less(a, b) == actual(a, b)
    ensures Elements(order) == Elements(s) == ranks.Keys && |order| == |s| && Ascending(order, actual)
    ensures forall k :: 0 <= k < |order| ==> ranks[order[k]] == k == Rank(actual, Elements(s), order[k])
    ensures forall x :: x in ranks ==> ranks[x] == Rank(actual, Elements(s), x)
  {
    hide Rank, Sort;
    order := Sort(s, less);
    SortMeaning(s, less);
    AscendingIsDistinct(order, less);
    assert forall k :: 0 <= k < |order| ==> order[k] in Elements(s);
    ranks := PositionsOf(order);
    forall k | 0 <= k < |order| ensures ranks[order[k]] == k == Rank(actual, Elements(s), order[k]) {
      PositionIsRank(order, actual, k);
    }
    forall x | x in ranks ensures ranks[x] == Rank(actual, Elements(s), x) {
      var k :| 0 <= k < |order| && order[k] == x;
    }
  }

  /** The first twelve by luma are those with fewer than twelve better. */
  lemma FirstTwelve(n: nat, s: Scores, order: seq<nat>)
    requires Elements(order) == All(n) && |order| == n && Ascending(order, By(s.luma))
    ensures Elements(order[..if n > STAGE_TWO then STAGE_TWO else n]) == StageTwo(n, s)
  {
    hide Rank, All, By;
    ByIsTotal(s.luma);
    var m := if n > STAGE_TWO then STAGE_TWO else n;
    forall k | 0 <= k < n ensures Rank(By(s.luma), All(n), order[k]) == k {
      PositionIsRank(order, By(s.luma), k);
    }
    forall x ensures x in order[..m] <==> x in StageTwo(n, s) {
      if x in StageTwo(n, s) {
        var k :| 0 <= k < n && order[k] == x;
        assert order[..m][k] == x;
      }
      if x in order[..m] {
        var k :| 0 <= k < m && order[..m][k] == x;
        assert order[k] == x;
      }
    }
  }

  function Lookup<T>(m: map<nat, T>, otherwise: T): nat -> T {
    (k: nat) => if k in m then m[k] else otherwise
  }

  /** Stores the results as they come. */
  method Collect(s: Scores, arrivals: seq<nat>) returns (rgb: map<nat, int>, text: map<nat, real>)
    ensures rgb.Keys == text.Keys == Elements(arrivals)
    ensures forall x :: x in rgb ==> rgb[x] == s.rgb(x) && text[x] == s.text(x)
  {
    rgb, text := map[], map[];
    for k := 0 to |arrivals|
      invariant rgb.Keys == text.Keys == Elements(arrivals[..k])
      invariant forall x :: x in rgb ==> rgb[x] == s.rgb(x) && text[x] == s.text(x)
    {
      assert arrivals[..k + 1] == arrivals[..k] + [arrivals[k]];
      rgb := rgb[arrivals[k] := s.rgb(arrivals[k])];
      text := text[arrivals[k] := s.text(arrivals[k])];
    }
    assert arrivals[..|arrivals|] == arrivals;
  }

  method InNumberOrder(indexes: seq<nat>, chosen: set<nat>) returns (second: seq<nat>)
    requires NoRepeat(indexes) && chosen <= Elements(indexes)
    ensures NoRepeat(second) && Elements(second) == chosen
  {
    second := [];
    for i := 0 to |indexes|
      invariant forall x :: x in second <==> x in indexes[..i] && x in chosen
      invariant NoRepeat(second)
    {
      assert indexes[..i + 1] == indexes[..i] + [indexes[i]];
      assert indexes[i] !in indexes[..i];
      if indexes[i] in chosen {
        second := second + [indexes[i]];
      }
    }
    assert indexes[..|indexes|] == indexes;
  }

  method ConsensusOf(n: nat, s: Scores, indexes: seq<nat>, stageTwo: set<nat>, luma: map<nat, nat>,
                     rgb: map<nat, nat>, text: map<nat, nat>) returns (consensus: map<nat, int>)
    requires stageTwo == StageTwo(n, s) && Elements(indexes) == All(n) == luma.Keys && rgb.Keys == text.Keys == stageTwo
    requires forall x :: x in luma ==> luma[x] == Rank(By(s.luma), All(n), x)
    requires forall x :: x in rgb ==> rgb[x] == Rank(By(s.rgb), stageTwo, x)
    requires forall x :: x in text ==> text[x] == Rank(ByReal(s.text), stageTwo, x)
    ensures consensus.Keys == All(n) && forall x :: x in consensus ==> consensus[x] == Consensus(n, s, x)
  {
    hide Rank, All, By, ByReal, StageTwo;
    consensus := map[];
    for i := 0 to |indexes|
      invariant consensus.Keys == Elements(indexes[..i])
      invariant forall x :: x in consensus ==> consensus[x] == Consensus(n, s, x)
    {
      var x := indexes[i];
      assert indexes[..i + 1] == indexes[..i] + [x];
      assert x in Elements(indexes);
      consensus := consensus[x := luma[x] + if x in stageTwo then rgb[x] + text[x] else n];
    }
    assert indexes[..|indexes|] == indexes;
  }

  lemma SameKeysSameOrder(s: seq<nat>, a: nat -> int, b: nat -> int, c: nat -> int)
    requires forall x :: x in s ==> a(x) == b(x)
    ensures forall x, y :: x in s && y in s ==> By(a)(x, y) == By(b)(x, y) && ByBoth(a, c)(x, y) == ByBoth(b, c)(x, y)
  {
  }

  lemma SameRealsSameOrder(s: seq<nat>, a: nat -> real, b: nat -> real)
    requires forall x :: x in s ==> a(x) == b(x)
    ensures forall x, y :: x in s && y in s ==> ByReal(a)(x, y) == ByReal(b)(x, y)
  {
  }

  method FirstStage(n: nat, s: Scores, indexes: seq<nat>) returns (ranks: map<nat, nat>, stageTwo: set<nat>)
    requires Elements(indexes) == All(n) && |indexes| == n && NoRepeat(indexes)
    ensures stageTwo == StageTwo(n, s) && stageTwo <= All(n) == ranks.Keys
    ensures forall x :: x in ranks ==> ranks[x] == Rank(By(s.luma), All(n), x)
  {
    hide Rank, All, By, Ascending, StrictTotal;
    ByIsTotal(s.luma);
    var order;
    order, ranks := RanksBy(indexes, By(s.luma), By(s.luma));
    stageTwo := Elements(order[..if n > STAGE_TWO then STAGE_TWO else n]);
    FirstTwelve(n, s, order);
  }

  method SecondStage(n: nat, s: Scores, indexes: seq<nat>, stageTwo: set<nat>, arrivals: seq<nat>)
    returns (rgbRank: map<nat, nat>, textRank: map<nat, nat>)
    requires NoRepeat(indexes) && stageTwo <= Elements(indexes) && Elements(arrivals) == stageTwo
    ensures rgbRank.Keys == textRank.Keys == stageTwo
    ensures forall x :: x in rgbRank ==> rgbRank[x] == Rank(By(s.rgb), stageTwo, x)
    ensures forall x :: x in textRank ==> textRank[x] == Rank(ByReal(s.text), stageTwo, x)
  {
    hide Rank, By, ByReal, Ascending, StrictTotal;
    var rgb, text := Collect(s, arrivals);
    var second := InNumberOrder(indexes, stageTwo);
    forall x | x in second ensures Lookup(rgb, 0)(x) == s.rgb(x) && Lookup(text, 0.0)(x) == s.text(x) {
      assert x in Elements(second);
    }
    SameKeysSameOrder(second, Lookup(rgb, 0), s.rgb, s.rgb);
    SameRealsSameOrder(second, Lookup(text, 0.0), s.text);
    ByIsTotal(s.rgb);
    ByIsTotal(Lookup(rgb, 0));
    ByRealIsTotal(s.text);
    ByRealIsTotal(Lookup(text, 0.0));
    var order;
    order, rgbRank := RanksBy(second, By(Lookup(rgb, 0)), By(s.rgb));
    order, textRank := RanksBy(second, ByReal(Lookup(text, 0.0)), ByReal(s.text));
  }

  /** arrivals: the stage-two candidates in the order their results came. */
  method RankGuesses(n: nat, s: Scores, arrivals: seq<nat>) returns (r: Option<seq<nat>>)
    requires Elements(arrivals) == StageTwo(n, s)
    ensures r.None? <==> n == 0
    ensures r.Some? ==> IsRanking(n, s, r.value)
  {
    hide Rank, Consensus, All, By, ByReal, ByBoth, StageTwo, Ascending, StrictTotal;
    if n == 0 {
      return None;
    }
    var indexes := seq(n, i => i + 1);
    AllIndexes(n, indexes);
    var lumaRank, stageTwo := FirstStage(n, s, indexes);
    var rgbRank, textRank := SecondStage(n, s, indexes, stageTwo, arrivals);
    var consensus := ConsensusOf(n, s, indexes, stageTwo, lumaRank, rgbRank, textRank);
    ghost var actual := (k: nat) => Consensus(n, s, k);
    forall x | x in indexes ensures Lookup(consensus, 0)(x) == actual(x) {
      assert x in Elements(indexes);
    }
    SameKeysSameOrder(indexes, Lookup(consensus, 0), actual, s.luma);
    ByBothIsTotal(Lookup(consensus, 0), s.luma);
    ByBothIsTotal(actual, s.luma);
    var order, _ := RanksBy(indexes, ByBoth(Lookup(consensus, 0), s.luma), ByBoth(actual, s.luma));
    assert ByBoth(actual, s.luma) == FinalLess(n, s);
    r := Some(order);
  }

  lemma AllIndexes(n: nat, indexes: seq<nat>)
    requires |indexes| == n && forall i :: 0 <= i < n ==> indexes[i] == i + 1
    ensures Elements(indexes) == All(n) && NoRepeat(indexes)
  {
    forall k: nat | 1 <= k <= n ensures k in indexes {
      assert indexes[k - 1] == k;
    }
  }
}
