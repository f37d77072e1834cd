/**
 The slider puzzle (core/captcha_v2_slider.go): tile permutations built by swaps, and the rectangles
 the tiles occupy in an image of any size.
 */
module Slider {
  import opened Arithmetic
  import opened Wrappers

  // ---------------------------------------------------------------- swaps

  function ActiveSwaps(swaps: seq<int>, index: int): seq<int> {
    if index <= 0 then [] else swaps[..if 2 * index > |swaps| then |swaps| else 2 * index]
  }

  function Identity(n: nat): (m: seq<int>)
    ensures |m| == n && forall i :: 0 <= i < n ==> m[i] == i
  {
    seq(n, i => i)
  }

  predicate InRange(n: nat, swaps: seq<int>) {
    forall k :: 0 <= k < |swaps| ==> 0 <= swaps[k] < n
  }

  function Swap(m: seq<int>, i: int, j: int): (r: seq<int>)
    requires 0 <= i < |m| && 0 <= j < |m|
    ensures |r| == |m| && r[i] == m[j] && r[j] == m[i]
    ensures forall k :: 0 <= k < |m| && k != i && k != j ==> r[k] == m[k]
  {
    m[i := m[j]][j := m[i]]
  }

  /** The tiles after all swaps, in order. */
  function Swapped(m: seq<int>, swaps: seq<int>): (r: seq<int>)
    requires |swaps| % 2 == 0 && InRange(|m|, swaps)
    ensures |r| == |m|
    decreases |swaps|
  {
    if swaps == [] then m else Swapped(Swap(m, swaps[0], swaps[1]), swaps[2..])
  }

  /** Every tile from 0 to n - 1 occurs, once. */
  ghost predicate IsPermutation(m: seq<int>, n: nat) {
    && |m| == n
    && (forall i :: 0 <= i < n ==> 0 <= m[i] < n)
    && (forall i, j :: 0 <= i < j < n ==> m[i] != m[j])
    && forall t :: 0 <= t < n ==> t in m
  }

  lemma IdentityIsPermutation(n: nat)
    ensures IsPermutation(Identity(n), n)
  {
    forall t | 0 <= t < n ensures t in Identity(n) {
      assert Identity(n)[t] == t;
    }
  }

  lemma SwapKeepsPermutation(m: seq<int>, n: nat, i: int, j: int)
    requires IsPermutation(m, n) && 0 <= i < n && 0 <= j < n
    ensures IsPermutation(Swap(m, i, j), n)
  {
    var r := Swap(m, i, j);
    forall t | 0 <= t < n ensures t in r {
      assert t in m;
      var k :| 0 <= k < n && m[k] == t;
      assert r[if k == i then j else if k == j then i else k] == t;
    }
  }

  lemma {:induction false} SwappedIsPermutation(m: seq<int>, swaps: seq<int>)
    requires |swaps| % 2 == 0 && InRange(|m|, swaps) && IsPermutation(m, |m|)
    ensures IsPermutation(Swapped(m, swaps), |m|)
    decreases |swaps|
  {
    if swaps != [] {
      SwapKeepsPermutation(m, |m|, swaps[0], swaps[1]);
      SwappedIsPermutation(Swap(m, swaps[0], swaps[1]), swaps[2..]);
    }
  }

  lemma {:induction false} SwappedSum(m: seq<int>, a: seq<int>, b: seq<int>)
    requires |a| % 2 == 0 && |b| % 2 == 0 && InRange(|m|, a) && InRange(|m|, b)
    ensures InRange(|m|, a + b) && Swapped(m, a + b) == Swapped(Swapped(m, a), b)
    decreases |a|
  {
    if a == [] {
      assert a + b == b;
    } else {
      assert (a + b)[2..] == a[2..] + b;
      SwappedSum(Swap(m, a[0], a[1]), a[2..], b);
    }
  }

  lemma PairAfter(swaps: seq<int>, i: nat)
    requires i + 2 <= |swaps|
    ensures swaps[..i + 2] == swaps[..i] + swaps[i..i + 2]
  {
  }

  lemma SwappedPair(m: seq<int>, swaps: seq<int>, i: nat)
    requires i % 2 == 0 && i + 2 <= |swaps| && InRange(|m|, swaps[..i])
    requires 0 <= swaps[i] < |m| && 0 <= swaps[i + 1] < |m|
    ensures InRange(|m|, swaps[..i + 2])
    ensures Swapped(m, swaps[..i + 2]) == Swap(Swapped(m, swaps[..i]), swaps[i], swaps[i + 1])
  {
    hide Swapped, Swap;
    var pair := swaps[i..i + 2];
    PairAfter(swaps, i);
    assert pair[0] == swaps[i] && pair[1] == swaps[i + 1];
    assert InRange(|m|, pair);
    SwappedSum(m, swaps[..i], pair);
    SwappedOnce(Swapped(m, swaps[..i]), pair);
  }

  lemma SwappedOnce(m: seq<int>, pair: seq<int>)
    requires |pair| == 2 && InRange(|m|, pair)
    ensures Swapped(m, pair) == Swap(m, pair[0], pair[1])
  {
    assert pair[2..] == [];
  }

  lemma ActiveIsPrefix(swaps: seq<int>, index: nat)
    requires 2 * index <= |swaps|
    ensures ActiveSwaps(swaps, index) == swaps[..2 * index]
  {
  }

  lemma PrefixInRange(n: nat, swaps: seq<int>, k: nat)
    requires InRange(n, swaps) && k <= |swaps|
    ensures InRange(n, swaps[..k])
  {
  }

  /** The next candidate differs from this one by one transposition. */
  lemma NextCandidate(m: seq<int>, swaps: seq<int>, index: nat, a: seq<int>, b: seq<int>)
    requires InRange(|m|, swaps) && 2 * index + 2 <= |swaps|
    requires a == ActiveSwaps(swaps, index) && b == ActiveSwaps(swaps, index + 1)
    ensures |a| == 2 * index && |b| == 2 * index + 2 && InRange(|m|, a) && InRange(|m|, b)
    ensures Swapped(m, b) == Swap(Swapped(m, a), swaps[2 * index], swaps[2 * index + 1])
  {
    hide ActiveSwaps, Swapped;
    ActiveIsPrefix(swaps, index);
    ActiveIsPrefix(swaps, index + 1);
    var k := 2 * index;
    PrefixInRange(|m|, swaps, k);
    PrefixInRange(|m|, swaps, k + 2);
    SwappedPair(m, swaps, k);
  }

  function Reversed(swaps: seq<int>): (r: seq<int>)
    requires |swaps| % 2 == 0
    ensures |r| == |swaps|
  {
    if swaps == [] then [] else Reversed(swaps[2..]) + swaps[..2]
  }

  /** Undoing the swaps from the last to the first puts every tile back. */
  lemma {:induction false} ReversedUndoes(m: seq<int>, swaps: seq<int>)
    requires |swaps| % 2 == 0 && InRange(|m|, swaps)
    ensures InRange(|m|, Reversed(swaps)) && Swapped(Swapped(m, swaps), Reversed(swaps)) == m
    decreases |swaps|
  {
    if swaps != [] {
      var once := Swap(m, swaps[0], swaps[1]);
      var rest, pair := swaps[2..], swaps[..2];
      ReversedUndoes(once, rest);
      SwappedSum(Swapped(once, rest), Reversed(rest), pair);
      SwappedOnce(once, pair);
      assert Swap(once, swaps[0], swaps[1]) == m;
    }
  }

  lemma NothingSwapped(m: seq<int>)
    ensures Swapped(m, []) == m
  {
  }

  datatype SwapError = BadTileCount | OddLength | OutOfRange

  method ApplySwaps(gridSize: int, swaps: seq<int>) returns (r: Result<seq<int>, SwapError>)
    ensures gridSize == 0 <==> r == Failure(BadTileCount)
    ensures gridSize != 0 && |swaps| % 2 != 0 <==> r == Failure(OddLength)
    ensures r.Success? <==> gridSize != 0 && |swaps| % 2 == 0 && InRange(TileCount(gridSize), swaps)
    ensures r.Success? ==> r.value == Swapped(Identity(TileCount(gridSize)), swaps)
    ensures r.Success? ==> IsPermutation(r.value, TileCount(gridSize))
  {
    hide TileCount, Swapped;
    var tileCount := TileCount(gridSize);
    NoTiles(gridSize);
    NothingSwapped(Identity(tileCount));
    if tileCount <= 0 {
      return Failure(BadTileCount);
    }
    if |swaps| % 2 != 0 {
      return Failure(OddLength);
    }
    var mapping := new int[tileCount];
    for i := 0 to tileCount
      invariant forall k :: 0 <= k < i ==> mapping[k] == k
    {
      mapping[i] := i;
    }
    assert mapping[..] == Identity(tileCount);
    var i := 0;
    while i < |swaps|
      invariant 0 <= i <= |swaps| && i % 2 == 0
      invariant InRange(tileCount, swaps[..i])
      invariant mapping[..] == Swapped(Identity(tileCount), swaps[..i])
    {
      var left, right := swaps[i], swaps[i + 1];
      if left < 0 || right < 0 || left >= tileCount || right >= tileCount {
        return Failure(OutOfRange);
      }
      SwappedPair(Identity(tileCount), swaps, i);
      ghost var before := mapping[..];
      mapping[left], mapping[right] := mapping[right], mapping[left];
      assert mapping[..] == Swap(before, left, right);
      i := i + 2;
    }
    assert swaps[..|swaps|] == swaps;
    IdentityIsPermutation(tileCount);
    SwappedIsPermutation(Identity(tileCount), swaps);
    r := Success(mapping[..]);
  }

  function TileCount(gridSize: int): nat {
    gridSize * gridSize
  }

  lemma NoTiles(gridSize: int)
    ensures TileCount(gridSize) == 0 <==> gridSize == 0
  {
  }

  // ---------------------------------------------------------------- tiles

  /** Half-open: max is outside. */
  datatype Rect = Rect(minX: int, minY: int, maxX: int, maxY: int)

  predicate Inside(r: Rect, x: int, y: int) {
    r.minX <= x < r.maxX && r.minY <= y < r.maxY
  }

  /** Where column or row k of g begins on a side of the given length. */
  function Edge(k: nat, side: nat, g: nat): nat
    requires g > 0
  {
    (k * side) / g
  }

  function TileRect(bounds: Rect, g: nat, index: nat): Rect
    requires g > 0 && bounds.minX <= bounds.maxX && bounds.minY <= bounds.maxY
  {
    var col, row := index % g, index / g;
    var dx, dy := bounds.maxX - bounds.minX, bounds.maxY - bounds.minY;
    Rect(bounds.minX + Edge(col, dx, g), bounds.minY + Edge(row, dy, g),
         bounds.minX + Edge(col + 1, dx, g), bounds.minY + Edge(row + 1, dy, g))
  }

  function Share(side: nat, g: nat): nat
    requires g > 0
  {
    side / g
  }

  /** A tile is as wide as its share, rounded down or up. */
  lemma EdgeStep(k: nat, side: nat, g: nat)
    requires g > 0
    ensures Share(side, g) <= Edge(k + 1, side, g) - Edge(k, side, g) <= Share(side, g) + 1
  {
    Distributes(side, k, 1);
    assert (k + 1) * side == k * side + side;
    QuotientOfSum(k * side, side, g);
  }

  lemma EdgeEnds(side: nat, g: nat)
    requires g > 0
    ensures Edge(0, side, g) == 0 && Edge(g, side, g) == side
  {
    DivModUnique(g * side, g, side, 0);
  }

  lemma {:induction false} EdgesAscend(a: nat, b: nat, side: nat, g: nat)
    requires g > 0 && a <= b
    ensures Edge(a, side, g) <= Edge(b, side, g)
  {
    if a < b {
      hide Edge, Share;
      EdgesAscend(a, b - 1, side, g);
      EdgeStep(b - 1, side, g);
    }
  }

  predicate InStrip(k: nat, p: int, side: nat, g: nat)
    requires g > 0
  {
    Edge(k, side, g) <= p < Edge(k + 1, side, g)
  }

  lemma {:induction false} SomeStrip(p: nat, side: nat, g: nat, n: nat) returns (k: nat)
    requires g > 0 && p < Edge(n, side, g)
    ensures k < n && InStrip(k, p, side, g)
  {
    EdgeEnds(side, g);
    assert n > 0;
    if Edge(n - 1, side, g) <= p {
      k := n - 1;
    } else {
      k := SomeStrip(p, side, g, n - 1);
    }
  }

  lemma OneStrip(p: int, side: nat, g: nat, a: nat, b: nat)
    requires g > 0 && InStrip(a, p, side, g) && InStrip(b, p, side, g)
    ensures a == b
  {
    if a < b {
      EdgesAscend(a + 1, b, side, g);
    } else if b < a {
      EdgesAscend(b + 1, a, side, g);
    }
  }

  lemma RowAndColumn(row: nat, col: nat, g: nat)
    requires row < g && col < g
    ensures var index := row * g + col; index < g * g && index / g == row && index % g == col
  {
    DivModUnique(row * g + col, g, row, col);
    ProductsAscend(g, row, g);
  }

  lemma IndexSplits(index: nat, g: nat)
    requires g > 0 && index < g * g
    ensures index / g < g && index % g < g && index == g * (index / g) + index % g
  {
    SmallQuotient(index, g, g);
  }

  lemma InsideIsStrips(bounds: Rect, g: nat, i: nat, x: int, y: int)
    requires g > 0 && bounds.minX <= bounds.maxX && bounds.minY <= bounds.maxY
    ensures Inside(TileRect(bounds, g, i), x, y) <==>
              InStrip(i % g, x - bounds.minX, bounds.maxX - bounds.minX, g)
              && InStrip(i / g, y - bounds.minY, bounds.maxY - bounds.minY, g)
  {
    hide Edge;
  }

  /** A pixel of a strip is on the side. */
  lemma StripOnSide(k: nat, p: int, side: nat, g: nat)
    requires k < g && InStrip(k, p, side, g)
    ensures 0 <= p < side
  {
    hide Edge;
    EdgeEnds(side, g);
    EdgesAscend(k + 1, g, side, g);
  }

  lemma TileInBounds(bounds: Rect, g: nat, i: nat, x: int, y: int)
    requires g > 0 && bounds.minX <= bounds.maxX && bounds.minY <= bounds.maxY && i < g * g
    requires Inside(TileRect(bounds, g, i), x, y)
    ensures Inside(bounds, x, y)
  {
    hide InStrip, TileRect;
    IndexSplits(i, g);
    InsideIsStrips(bounds, g, i, x, y);
    StripOnSide(i % g, x - bounds.minX, bounds.maxX - bounds.minX, g);
    StripOnSide(i / g, y - bounds.minY, bounds.maxY - bounds.minY, g);
  }

  lemma OneTile(bounds: Rect, g: nat, i: nat, j: nat, x: int, y: int)
    requires g > 0 && bounds.minX <= bounds.maxX && bounds.minY <= bounds.maxY
    requires Inside(TileRect(bounds, g, i), x, y) && Inside(TileRect(bounds, g, j), x, y)
    ensures i == j
  {
    hide InStrip, TileRect, Inside;
    InsideIsStrips(bounds, g, i, x, y);
    InsideIsStrips(bounds, g, j, x, y);
    OneStrip(x - bounds.minX, bounds.maxX - bounds.minX, g, i % g, j % g);
    OneStrip(y - bounds.minY, bounds.maxY - bounds.minY, g, i / g, j / g);
    SameSplit(i, j, g);
  }

  lemma SomeTile(bounds: Rect, g: nat, x: int, y: int) returns (i: nat)
    requires g > 0 && Inside(bounds, x, y)
    ensures i < g * g && Inside(TileRect(bounds, g, i), x, y)
  {
    hide InStrip, TileRect, Edge;
    EdgeEnds(bounds.maxX - bounds.minX, g);
    EdgeEnds(bounds.maxY - bounds.minY, g);
    var col := SomeStrip(x - bounds.minX, bounds.maxX - bounds.minX, g, g);
    var row := SomeStrip(y - bounds.minY, bounds.maxY - bounds.minY, g, g);
    RowAndColumn(row, col, g);
    i := row * g + col;
    InsideIsStrips(bounds, g, i, x, y);
  }

  /** Every pixel of the image lies in exactly one tile, and the tiles hold nothing else. */
  lemma TilesPartition(bounds: Rect, g: nat, x: int, y: int)
    requires g > 0 && bounds.minX <= bounds.maxX && bounds.minY <= bounds.maxY
    ensures Inside(bounds, x, y) <==> exists i: nat :: i < g * g && Inside(TileRect(bounds, g, i), x, y)
    ensures forall i: nat, j: nat ::
              (Inside(TileRect(bounds, g, i), x, y) && Inside(TileRect(bounds, g, j), x, y)) ==> i == j
  {
    hide TileRect, Inside;
    if Inside(bounds, x, y) {
      var i := SomeTile(bounds, g, x, y);
    }
    forall i: nat | i < g * g && Inside(TileRect(bounds, g, i), x, y) ensures Inside(bounds, x, y) {
      TileInBounds(bounds, g, i, x, y);
    }
    forall i: nat, j: nat | Inside(TileRect(bounds, g, i), x, y) && Inside(TileRect(bounds, g, j), x, y) ensures i == j {
      OneTile(bounds, g, i, j, x, y);
    }
  }

  /** Tiles are numbered row by row from the corner of the image; each begins where its left and its upper
      neighbour end. */
  lemma TilesInRows(bounds: Rect, g: nat, row: nat, col: nat)
    requires g > 0 && bounds.minX <= bounds.maxX && bounds.minY <= bounds.maxY && row < g && col < g
    ensures var r := TileRect(bounds, g, row * g + col);
            && (col == 0 ==> r.minX == bounds.minX) && (row == 0 ==> r.minY == bounds.minY)
            && (col == g - 1 ==> r.maxX == bounds.maxX) && (row == g - 1 ==> r.maxY == bounds.maxY)
            && (col + 1 < g ==> r.maxX == TileRect(bounds, g, row * g + col + 1).minX)
            && (row + 1 < g ==> r.maxY == TileRect(bounds, g, (row + 1) * g + col).minY)
  {
    var dx, dy := bounds.maxX - bounds.minX, bounds.maxY - bounds.minY;
    EdgeEnds(dx, g);
    EdgeEnds(dy, g);
    RowAndColumn(row, col, g);
    if col + 1 < g { RowAndColumn(row, col + 1, g); }
    if row + 1 < g { RowAndColumn(row + 1, col, g); }
  }

  // ---------------------------------------------------------------- samples

  /** Go's division truncates; neither operand is negative for a pixel of the tile. */
  function Scaled(src: int, srcLength: nat, offset: nat, dstLength: nat): int {
    src + (offset * srcLength) / (if dstLength < 1 then 1 else dstLength)
  }

  /** The pixel of the source tile that stands for one of the destination tile. */
  function Sample(dst: Rect, src: Rect, x: int, y: int): (int, int)
    requires dst.minX <= x && dst.minY <= y && dst.minX <= dst.maxX && dst.minY <= dst.maxY
    requires src.minX <= src.maxX && src.minY <= src.maxY
  {
    (Scaled(src.minX, src.maxX - src.minX, x - dst.minX, dst.maxX - dst.minX),
     Scaled(src.minY, src.maxY - src.minY, y - dst.minY, dst.maxY - dst.minY))
  }

  lemma ScaledStays(src: int, srcLength: nat, offset: nat, dstLength: nat)
    requires offset < dstLength
    ensures src <= Scaled(src, srcLength, offset, dstLength)
    ensures Scaled(src, srcLength, offset, dstLength) < src + srcLength <==> srcLength > 0
  {
    ProductsAscend(srcLength, offset, dstLength);
    if srcLength > 0 {
      SmallQuotient(offset * srcLength, dstLength, srcLength);
    }
  }

  lemma FloorMeaning(x: nat, d: nat)
    requires d > 0
    ensures (x / d) * d <= x < (x / d + 1) * d
  {
    Distributes(d, x / d, 1);
  }

  /** A sample lies as far into its tile as the pixel lies into its own, rounded down to a pixel. */
  lemma SampleInProportion(dst: Rect, src: Rect, x: int, y: int)
    requires Inside(dst, x, y) && src.minX <= src.maxX && src.minY <= src.maxY
    ensures var (sx, sy) := Sample(dst, src, x, y);
            && (sx - src.minX) * (dst.maxX - dst.minX) <= (x - dst.minX) * (src.maxX - src.minX)
               < (sx - src.minX + 1) * (dst.maxX - dst.minX)
            && (sy - src.minY) * (dst.maxY - dst.minY) <= (y - dst.minY) * (src.maxY - src.minY)
               < (sy - src.minY + 1) * (dst.maxY - dst.minY)
  {
    FloorMeaning((x - dst.minX) * (src.maxX - src.minX), dst.maxX - dst.minX);
    FloorMeaning((y - dst.minY) * (src.maxY - src.minY), dst.maxY - dst.minY);
  }

  lemma ScaledSame(src: int, length: nat, offset: nat)
    requires offset < length
    ensures Scaled(src, length, offset, length) == src + offset
  {
    DivModUnique(offset * length, length, offset, 0);
  }

  /** Between tiles of one size the sample is the pixel at the same place. */
  lemma SameSizeSample(dst: Rect, src: Rect, x: int, y: int)
    requires Inside(dst, x, y)
    requires src.maxX - src.minX == dst.maxX - dst.minX && src.maxY - src.minY == dst.maxY - dst.minY
    ensures Sample(dst, src, x, y) == (src.minX + (x - dst.minX), src.minY + (y - dst.minY))
  {
    hide Scaled;
    ScaledSame(src.minX, dst.maxX - dst.minX, x - dst.minX);
    ScaledSame(src.minY, dst.maxY - dst.minY, y - dst.minY);
  }

  ghost predicate TilesOrdered(bounds: Rect, g: nat, i: nat)
    requires g > 0 && bounds.minX <= bounds.maxX && bounds.minY <= bounds.maxY
  {
    var r := TileRect(bounds, g, i);
    r.minX <= r.maxX && r.minY <= r.maxY
  }

  lemma TileIsOrdered(bounds: Rect, g: nat, i: nat)
    requires g > 0 && bounds.minX <= bounds.maxX && bounds.minY <= bounds.maxY
    ensures TilesOrdered(bounds, g, i)
  {
    EdgesAscend(i % g, i % g + 1, bounds.maxX - bounds.minX, g);
    EdgesAscend(i / g, i / g + 1, bounds.maxY - bounds.minY, g);
  }

  /** For each pixel of tile i, its sample from tile j is in tile j. */
  ghost predicate SamplesStay(bounds: Rect, g: nat, i: nat, j: nat)
    requires g > 0 && bounds.minX <= bounds.maxX && bounds.minY <= bounds.maxY
  {
    var dst, src := TileRect(bounds, g, i), TileRect(bounds, g, j);
    TilesOrdered(bounds, g, i) && TilesOrdered(bounds, g, j)
    && forall x, y :: Inside(dst, x, y) ==> var s := Sample(dst, src, x, y); Inside(src, s.0, s.1)
  }

  /** Samples stay in their tiles, for all pairs, exactly when both sides have a pixel for every tile. */
  lemma SamplesStayExactly(bounds: Rect, g: nat)
    requires g > 0 && bounds.minX < bounds.maxX && bounds.minY < bounds.maxY
    ensures (forall i: nat, j: nat :: i < g * g && j < g * g ==> SamplesStay(bounds, g, i, j))
            <==> bounds.maxX - bounds.minX >= g && bounds.maxY - bounds.minY >= g
  {
    var dx, dy := bounds.maxX - bounds.minX, bounds.maxY - bounds.minY;
    if dx >= g && dy >= g {
      forall i: nat, j: nat | i < g * g && j < g * g ensures SamplesStay(bounds, g, i, j) {
        BigTilesStay(bounds, g, i, j);
      }
    } else {
      var i, j := SmallTilesStray(bounds, g);
    }
  }

  lemma ShareAtLeastOne(side: nat, g: nat)
    requires g > 0
    ensures Share(side, g) >= 1 <==> side >= g
  {
    assert side == g * (side / g) + side % g;
    ProductsAscend(g, 1, side / g);
    ProductsAscend(g, side / g, 0);
  }

  lemma BigTilesStay(bounds: Rect, g: nat, i: nat, j: nat)
    requires g > 0 && bounds.maxX - bounds.minX >= g && bounds.maxY - bounds.minY >= g
    ensures SamplesStay(bounds, g, i, j)
  {
    var dx, dy := bounds.maxX - bounds.minX, bounds.maxY - bounds.minY;
    var dst, src := TileRect(bounds, g, i), TileRect(bounds, g, j);
    TileIsOrdered(bounds, g, i);
    TileIsOrdered(bounds, g, j);
    ShareAtLeastOne(dx, g);
    ShareAtLeastOne(dy, g);
    EdgeStep(j % g, dx, g);
    EdgeStep(j / g, dy, g);
    forall x, y | Inside(dst, x, y) ensures var s := Sample(dst, src, x, y); Inside(src, s.0, s.1) {
      ScaledStays(src.minX, src.maxX - src.minX, x - dst.minX, dst.maxX - dst.minX);
      ScaledStays(src.minY, src.maxY - src.minY, y - dst.minY, dst.maxY - dst.minY);
    }
  }

  /** A side shorter than g leaves some strip without a pixel. */
  lemma {:induction false} EmptyStrip(side: nat, g: nat, n: nat) returns (k: nat)
    requires g > 0 && n > 0 && Edge(n, side, g) < n
    ensures k < n && Edge(k, side, g) == Edge(k + 1, side, g)
  {
    EdgesAscend(n - 1, n, side, g);
    if Edge(n - 1, side, g) == Edge(n, side, g) {
      k := n - 1;
    } else {
      EdgeEnds(side, g);
      k := EmptyStrip(side, g, n - 1);
    }
  }

  lemma SmallTilesStray(bounds: Rect, g: nat) returns (i: nat, j: nat)
    requires g > 0 && bounds.minX < bounds.maxX && bounds.minY < bounds.maxY
    requires bounds.maxX - bounds.minX < g || bounds.maxY - bounds.minY < g
    ensures i < g * g && j < g * g && !SamplesStay(bounds, g, i, j)
  {
    hide TileRect, Edge, Inside;
    var dx, dy := bounds.maxX - bounds.minX, bounds.maxY - bounds.minY;
    EdgeEnds(dx, g);
    EdgeEnds(dy, g);
    InsideCorner(bounds);
    i := SomeTile(bounds, g, bounds.minX, bounds.minY);
    var row, col := 0, 0;
    if dx < g {
      col := EmptyStrip(dx, g, g);
    } else {
      row := EmptyStrip(dy, g, g);
    }
    RowAndColumn(row, col, g);
    j := row * g + col;
    EmptyTile(bounds, g, row, col);
    StraySample(bounds, g, i, j, bounds.minX, bounds.minY);
  }

  lemma InsideCorner(bounds: Rect)
    requires bounds.minX < bounds.maxX && bounds.minY < bounds.maxY
    ensures Inside(bounds, bounds.minX, bounds.minY)
  {
  }

  lemma EmptyTile(bounds: Rect, g: nat, row: nat, col: nat)
    requires row < g && col < g && bounds.minX <= bounds.maxX && bounds.minY <= bounds.maxY
    requires Edge(col, bounds.maxX - bounds.minX, g) == Edge(col + 1, bounds.maxX - bounds.minX, g)
          || Edge(row, bounds.maxY - bounds.minY, g) == Edge(row + 1, bounds.maxY - bounds.minY, g)
    ensures IsEmpty(TileRect(bounds, g, row * g + col))
  {
    hide Edge;
    RowAndColumn(row, col, g);
  }

  predicate IsEmpty(r: Rect) {
    r.minX >= r.maxX || r.minY >= r.maxY
  }

  lemma StraySample(bounds: Rect, g: nat, i: nat, j: nat, x: int, y: int)
    requires g > 0 && bounds.minX <= bounds.maxX && bounds.minY <= bounds.maxY
    requires Inside(TileRect(bounds, g, i), x, y) && IsEmpty(TileRect(bounds, g, j))
    ensures !SamplesStay(bounds, g, i, j)
  {
    hide TileRect, Sample;
    TileIsOrdered(bounds, g, i);
    TileIsOrdered(bounds, g, j);
    var s := Sample(TileRect(bounds, g, i), TileRect(bounds, g, j), x, y);
    assert !Inside(TileRect(bounds, g, j), s.0, s.1);
  }
}
