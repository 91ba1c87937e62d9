/** The recursive binary treemap of the overview page, over exact reals. */
module Treemap {

  datatype Node = Node(name: string, cost: real)

  datatype Rect = Rect(x: real, y: real, w: real, h: real)

  datatype Tile = Tile(node: Node, rect: Rect)

  function Sum(items: seq<Node>): real {
    if items == [] then 0.0 else Sum(items[..|items| - 1]) + items[|items| - 1].cost
  }

  /** The smallest `i` in `k..|items|` whose prefix reaches `target`, or 0 if there is none. */
  function FirstReaching(items: seq<Node>, target: real, k: nat): (i: nat)
    requires 1 <= k <= |items|
    ensures i == 0 || (k <= i < |items| && Sum(items[..i]) >= target)
    ensures forall j :: k <= j < (if i == 0 then |items| else i) ==> Sum(items[..j]) < target
    decreases |items| - k
  {
    if k == |items| then 0
    else if Sum(items[..k]) >= target then k
    else FirstReaching(items, target, k + 1)
  }

  /** Where the list is split; 1 is the fallback when no proper prefix reaches half of the total. */
  function SplitIndex(items: seq<Node>): (i: nat)
    requires |items| >= 2
    ensures 1 <= i < |items|
  {
    var i := FirstReaching(items, Sum(items) / 2.0, 1);
    if i == 0 then 1 else i
  }

  /** The share of the first part; an all-zero list is split evenly. */
  function Ratio(items: seq<Node>): real
    requires |items| >= 2
  {
    Share(Sum(items[..SplitIndex(items)]), Sum(items))
  }

  function Share(part: real, whole: real): real { if whole > 0.0 then part / whole else 0.5 }

  /** The part of a rectangle before a cut across its longer side, at distance `cut` from its left or top edge. */
  function First(r: Rect, cut: real): Rect { if r.w >= r.h then r.(w := cut) else r.(h := cut) }

  /** The part behind the cut. */
  function Second(r: Rect, cut: real): Rect {
    if r.w >= r.h then r.(x := r.x + cut, w := r.w - cut) else r.(y := r.y + cut, h := r.h - cut)
  }

  function LongSide(r: Rect): real { if r.w >= r.h then r.w else r.h }

  function Scale(side: real, ratio: real): real { side * ratio }

  /** Where the rectangle given to these items is cut. */
  function CutAt(items: seq<Node>, r: Rect): real {
    if |items| >= 2 then Scale(LongSide(r), Ratio(items)) else 0.0
  }

  type Cutter = (seq<Node>, Rect) -> real

  /** The recursive layout, for any rule of where to cut. */
  function LayoutBy(cutAt: Cutter, items: seq<Node>, r: Rect): seq<Tile>
    decreases |items|
  {
    if items == [] then []
    else if |items| == 1 then [Tile(items[0], r)]
    else
      var i, cut := SplitIndex(items), cutAt(items, r);
      LayoutBy(cutAt, items[..i], First(r, cut)) + LayoutBy(cutAt, items[i..], Second(r, cut))
  }

  function Layout(items: seq<Node>, r: Rect): seq<Tile> { LayoutBy(CutAt, items, r) }

  /** The scan for the split point. */
  method FindSplit(items: seq<Node>) returns (splitIdx: nat)
    requires |items| >= 2
    ensures splitIdx == SplitIndex(items)
  {
    var total := Total(items);
    var target := total / 2.0;
    var acc := 0.0;
    splitIdx := 0;
    for i := 0 to |items| - 1
      invariant acc == Sum(items[..i])
      invariant splitIdx == 0
      invariant forall j :: 1 <= j <= i ==> Sum(items[..j]) < target
    {
      assert items[..i + 1][..i] == items[..i];
      acc := acc + items[i].cost;
      if acc >= target {
        splitIdx := i + 1;
        break;
      }
    }
    FirstReachingIsLeast(items, target, 1, splitIdx);
    if splitIdx == 0 {
      splitIdx := 1;
    }
  }

  lemma {:induction false} FirstReachingIsLeast(items: seq<Node>, target: real, k: nat, i: nat)
    requires 1 <= k <= |items|
    requires i == 0 || (k <= i < |items| && Sum(items[..i]) >= target)
    requires forall j :: k <= j < (if i == 0 then |items| else i) ==> Sum(items[..j]) < target
    ensures FirstReaching(items, target, k) == i
    decreases |items| - k
  {
    if k < |items| && k != i {
      assert Sum(items[..k]) < target;
      FirstReachingIsLeast(items, target, k + 1, i);
    }
  }

  method Total(items: seq<Node>) returns (total: real)
    ensures total == Sum(items)
  {
    total := 0.0;
    for i := 0 to |items|
      invariant total == Sum(items[..i])
    {
      assert items[..i + 1][..i] == items[..i];
      total := total + items[i].cost;
    }
    assert items[..|items|] == items;
  }

  /** Split list and rectangle, along the longer axis. */
  method Split(items: seq<Node>, x: real, y: real, w: real, h: real) returns (splitIdx: nat, first: Rect, second: Rect)
    requires |items| >= 2
    ensures splitIdx == SplitIndex(items)
    ensures var r := Rect(x, y, w, h);
            first == First(r, CutAt(items, r)) && second == Second(r, CutAt(items, r))
    ensures if w >= h then first == Rect(x, y, first.w, h) && second == Rect(x + first.w, y, w - first.w, h)
            else first == Rect(x, y, w, first.h) && second == Rect(x, y + first.h, w, h - first.h)
    ensures var side, cut := if w >= h then w else h, if w >= h then first.w else first.h;
            if Sum(items) > 0.0 then cut == side * (Sum(items[..splitIdx]) / Sum(items)) else cut == side * 0.5
  {
    var total := Total(items);
    splitIdx := FindSplit(items);
    var leftSum := Total(items[..splitIdx]);
    var ratio := if total > 0.0 then leftSum / total else 0.5;
    if w >= h {
      var lw := Scale(w, ratio);
      first, second := Rect(x, y, lw, h), Rect(x + lw, y, w - lw, h);
    } else {
      var lh := Scale(h, ratio);
      first, second := Rect(x, y, w, lh), Rect(x, y + lh, w, h - lh);
    }
  }

  method LayoutTiles(items: seq<Node>, x: real, y: real, w: real, h: real) returns (tiles: seq<Tile>)
    ensures tiles == Layout(items, Rect(x, y, w, h))
    decreases |items|
  {
    if |items| == 0 { return []; }
    if |items| == 1 { return [Tile(items[0], Rect(x, y, w, h))]; }
    var i, a, b := Split(items, x, y, w, h);
    var left := LayoutTiles(items[..i], a.x, a.y, a.w, a.h);
    var right := LayoutTiles(items[i..], b.x, b.y, b.w, b.h);
    tiles := left + right;
  }

  // ---------------------------------------------------------------- sums and the split

  ghost predicate NonNegative(items: seq<Node>) { forall n :: n in items ==> n.cost >= 0.0 }

  lemma {:induction false} SumSplits(a: seq<Node>, b: seq<Node>)
    ensures Sum(a + b) == Sum(a) + Sum(b)
  {
    if b == [] {
      assert a + b == a;
    } else {
      SumSplits(a, b[..|b| - 1]);
      assert (a + b)[..|a + b| - 1] == a + b[..|b| - 1];
    }
  }

  lemma {:induction false} SumNonNegative(items: seq<Node>)
    requires NonNegative(items)
    ensures Sum(items) >= 0.0
    ensures forall i :: 0 <= i < |items| ==> items[i].cost <= Sum(items)
  {
    if items != [] {
      SumNonNegative(items[..|items| - 1]);
    }
  }

  lemma ShareInRange(part: real, whole: real)
    requires 0.0 <= part <= whole
    ensures 0.0 <= Share(part, whole) <= 1.0
    ensures whole > 0.0 ==> Share(part, whole) * whole == part
  {}

  lemma PrefixSums(items: seq<Node>, i: nat)
    requires NonNegative(items) && i <= |items|
    ensures NonNegative(items[..i]) && NonNegative(items[i..])
    ensures 0.0 <= Sum(items[..i]) <= Sum(items) && Sum(items) == Sum(items[..i]) + Sum(items[i..])
  {
    assert items == items[..i] + items[i..];
    SumSplits(items[..i], items[i..]);
    SumNonNegative(items[..i]);
    SumNonNegative(items[i..]);
  }

  lemma ScaleInRange(side: real, ratio: real)
    requires side >= 0.0 && 0.0 <= ratio <= 1.0
    ensures 0.0 <= Scale(side, ratio) <= side
  {}

  /** The cut falls within the longer side. */
  lemma CutInRange(items: seq<Node>, side: real)
    requires |items| >= 2 && NonNegative(items) && side >= 0.0
    ensures 0.0 <= Scale(side, Ratio(items)) <= side
  {
    PrefixSums(items, SplitIndex(items));
    ShareInRange(Sum(items[..SplitIndex(items)]), Sum(items));
    ScaleInRange(side, Ratio(items));
  }

  lemma PrefixesGrow(items: seq<Node>, i: nat, j: nat)
    requires NonNegative(items) && i <= j <= |items|
    ensures Sum(items[..i]) <= Sum(items[..j])
  {
    PrefixSums(items[..j], i);
    assert items[..j][..i] == items[..i];
  }

  /** The fallback is taken exactly when the last item alone outweighs all others. */
  lemma FallbackExactly(items: seq<Node>)
    requires |items| >= 2 && NonNegative(items)
    ensures FirstReaching(items, Sum(items) / 2.0, 1) == 0 <==> items[|items| - 1].cost > Sum(items) / 2.0
  {
    var most := |items| - 1;
    var i := FirstReaching(items, Sum(items) / 2.0, 1);
    if i != 0 {
      PrefixesGrow(items, i, most);
    }
    assert Sum(items) == Sum(items[..most]) + items[most].cost;
  }

  /** The lists the page lays out are positive and sorted by falling cost: on them the fallback is dead. */
  lemma SortedListsNeedNoFallback(items: seq<Node>)
    requires |items| >= 2
    requires forall n :: n in items ==> n.cost > 0.0
    requires forall i, j :: 0 <= i < j < |items| ==> items[i].cost >= items[j].cost
    ensures FirstReaching(items, Sum(items) / 2.0, 1) != 0
    ensures Sum(items[..SplitIndex(items)]) >= Sum(items) / 2.0
    ensures forall j :: 1 <= j < SplitIndex(items) ==> Sum(items[..j]) < Sum(items) / 2.0
  {
    var most := |items| - 1;
    FallbackExactly(items);
    assert Sum(items) == Sum(items[..most]) + items[most].cost;
    SumNonNegative(items[..most]);
    assert items[..most][0].cost >= items[most].cost;
  }

  // ---------------------------------------------------------------- the tiles partition the rectangle

  predicate Covers(r: Rect, px: real, py: real) { r.x <= px < r.x + r.w && r.y <= py < r.y + r.h }

  /** How many tiles cover the point; left and top edges belong to a tile, right and bottom edges to its neighbour. */
  function Coverage(tiles: seq<Tile>, px: real, py: real): nat {
    if tiles == [] then 0
    else Coverage(tiles[..|tiles| - 1], px, py) + if Covers(tiles[|tiles| - 1].rect, px, py) then 1 else 0
  }

  lemma {:induction false} CoverageSplits(a: seq<Tile>, b: seq<Tile>, px: real, py: real)
    ensures Coverage(a + b, px, py) == Coverage(a, px, py) + Coverage(b, px, py)
  {
    if b == [] {
      assert a + b == a;
    } else {
      CoverageSplits(a, b[..|b| - 1], px, py);
      assert (a + b)[..|a + b| - 1] == a + b[..|b| - 1];
    }
  }

  /** The two parts are proper rectangles, and every point of the whole lies in exactly one of them. */
  lemma PartsPartition(r: Rect, cut: real, px: real, py: real)
    requires r.w >= 0.0 && r.h >= 0.0 && 0.0 <= cut <= LongSide(r)
    ensures var a, b := First(r, cut), Second(r, cut);
            && a.w >= 0.0 && a.h >= 0.0 && b.w >= 0.0 && b.h >= 0.0
            && (Covers(r, px, py) <==> Covers(a, px, py) || Covers(b, px, py))
            && !(Covers(a, px, py) && Covers(b, px, py))
  {}

  /** A rule that cuts within the longer side. */
  ghost predicate CutsWithin(cutAt: Cutter) {
    forall items: seq<Node>, r: Rect :: |items| >= 2 && NonNegative(items) && r.w >= 0.0 && r.h >= 0.0 ==>
        0.0 <= cutAt(items, r) <= LongSide(r)
  }

  lemma CutAtCutsWithin()
    ensures CutsWithin(CutAt)
  {
    forall items: seq<Node>, r: Rect | |items| >= 2 && NonNegative(items) && r.w >= 0.0 && r.h >= 0.0
      ensures 0.0 <= CutAt(items, r) <= LongSide(r)
    {
      CutInRange(items, LongSide(r));
    }
  }

  lemma {:induction false} PartitionBy(cutAt: Cutter, items: seq<Node>, r: Rect, px: real, py: real)
    requires CutsWithin(cutAt) && items != [] && NonNegative(items) && r.w >= 0.0 && r.h >= 0.0
    ensures Coverage(LayoutBy(cutAt, items, r), px, py) == if Covers(r, px, py) then 1 else 0
    decreases |items|
  {
    if |items| == 1 {
      var t := [Tile(items[0], r)];
      assert t[..0] == [];
    } else {
      var i, cut := SplitIndex(items), cutAt(items, r);
      PartsPartition(r, cut, px, py);
      PartitionBy(cutAt, items[..i], First(r, cut), px, py);
      PartitionBy(cutAt, items[i..], Second(r, cut), px, py);
      CoverageSplits(LayoutBy(cutAt, items[..i], First(r, cut)), LayoutBy(cutAt, items[i..], Second(r, cut)), px, py);
    }
  }

  /**
   The tiles partition the rectangle: every point of it is covered by exactly one tile, every other point by none.
   So the tiles lie inside, do not overlap, and leave no gap.
   */
  lemma TilesPartition(items: seq<Node>, r: Rect, px: real, py: real)
    requires items != [] && NonNegative(items) && r.w >= 0.0 && r.h >= 0.0
    ensures Coverage(Layout(items, r), px, py) == if Covers(r, px, py) then 1 else 0
  {
    CutAtCutsWithin();
    PartitionBy(CutAt, items, r, px, py);
  }

  lemma {:induction false} TwoCoverTwice(tiles: seq<Tile>, i: nat, j: nat, px: real, py: real)
    requires i < j < |tiles| && Covers(tiles[i].rect, px, py) && Covers(tiles[j].rect, px, py)
    ensures Coverage(tiles, px, py) >= 2
  {
    var init := tiles[..|tiles| - 1];
    if j < |init| {
      TwoCoverTwice(init, i, j, px, py);
    } else {
      OneCovers(init, i, px, py);
    }
  }

  lemma {:induction false} OneCovers(tiles: seq<Tile>, i: nat, px: real, py: real)
    requires i < |tiles| && Covers(tiles[i].rect, px, py)
    ensures Coverage(tiles, px, py) >= 1
  {
    if i < |tiles| - 1 {
      OneCovers(tiles[..|tiles| - 1], i, px, py);
    }
  }

  /** Spelled out: a point of a tile is a point of the rectangle, and no point belongs to two tiles. */
  lemma TilesInsideAndDisjoint(items: seq<Node>, r: Rect, i: nat, j: nat, px: real, py: real)
    requires NonNegative(items) && r.w >= 0.0 && r.h >= 0.0
    requires i < |Layout(items, r)| && j < |Layout(items, r)| && Covers(Layout(items, r)[i].rect, px, py)
    ensures Covers(r, px, py)
    ensures i != j ==> !Covers(Layout(items, r)[j].rect, px, py)
  {
    var tiles := Layout(items, r);
    TilesPartition(items, r, px, py);
    OneCovers(tiles, i, px, py);
    if i != j && Covers(tiles[j].rect, px, py) {
      TwoCoverTwice(tiles, if i < j then i else j, if i < j then j else i, px, py);
    }
  }

  /** A rectangle, possibly of no width or height, inside another. */
  predicate Within(a: Rect, r: Rect) {
    a.w >= 0.0 && a.h >= 0.0 && r.x <= a.x && a.x + a.w <= r.x + r.w && r.y <= a.y && a.y + a.h <= r.y + r.h
  }

  /** One lies entirely to one side of the other; they share at most an edge. */
  predicate Apart(a: Rect, b: Rect) {
    a.x + a.w <= b.x || b.x + b.w <= a.x || a.y + a.h <= b.y || b.y + b.h <= a.y
  }

  ghost predicate AllWithin(tiles: seq<Tile>, r: Rect) { forall k :: 0 <= k < |tiles| ==> Within(tiles[k].rect, r) }

  ghost predicate AllApart(tiles: seq<Tile>) {
    forall i, j :: 0 <= i < j < |tiles| ==> Apart(tiles[i].rect, tiles[j].rect)
  }

  lemma PartsAreWithinAndApart(r: Rect, cut: real)
    requires r.w >= 0.0 && r.h >= 0.0 && 0.0 <= cut <= LongSide(r)
    ensures Within(First(r, cut), r) && Within(Second(r, cut), r) && Apart(First(r, cut), Second(r, cut))
  {}

  /** Tiles within two parts of a rectangle. */
  lemma TilesOfParts(a: seq<Tile>, b: seq<Tile>, first: Rect, second: Rect, r: Rect)
    requires AllWithin(a, first) && AllWithin(b, second) && AllApart(a) && AllApart(b)
    requires Within(first, r) && Within(second, r) && Apart(first, second)
    ensures AllWithin(a + b, r) && AllApart(a + b)
  {
    var n, c := |a|, a + b;
    forall k | 0 <= k < |c| ensures Within(c[k].rect, r) {
      assert if k < n then Within(a[k].rect, first) else Within(b[k - n].rect, second);
    }
    forall i, j | 0 <= i < j < |c| ensures Apart(c[i].rect, c[j].rect) {
      if j < n {
        assert Apart(a[i].rect, a[j].rect);
      } else if i < n {
        assert Within(a[i].rect, first) && Within(b[j - n].rect, second);
      } else {
        assert Apart(b[i - n].rect, b[j - n].rect);
      }
    }
  }

  lemma {:induction false} TilesWithinAndApartBy(cutAt: Cutter, items: seq<Node>, r: Rect)
    requires CutsWithin(cutAt) && NonNegative(items) && r.w >= 0.0 && r.h >= 0.0
    ensures AllWithin(LayoutBy(cutAt, items, r), r) && AllApart(LayoutBy(cutAt, items, r))
    decreases |items|
  {
    if |items| >= 2 {
      var i, cut := SplitIndex(items), cutAt(items, r);
      var first, second := First(r, cut), Second(r, cut);
      PartsAreWithinAndApart(r, cut);
      TilesWithinAndApartBy(cutAt, items[..i], first);
      TilesWithinAndApartBy(cutAt, items[i..], second);
      TilesOfParts(LayoutBy(cutAt, items[..i], first), LayoutBy(cutAt, items[i..], second), first, second, r);
    }
  }

  /**
   For tiles of any size, those of free items included: each is a proper rectangle inside the whole, and of any two one
   lies to one side of the other.
   */
  lemma TilesWithinAndApart(items: seq<Node>, r: Rect)
    requires NonNegative(items) && r.w >= 0.0 && r.h >= 0.0
    ensures forall k :: 0 <= k < |Layout(items, r)| ==> Within(Layout(items, r)[k].rect, r)
    ensures forall i, j :: 0 <= i < j < |Layout(items, r)| ==> Apart(Layout(items, r)[i].rect, Layout(items, r)[j].rect)
  {
    CutAtCutsWithin();
    TilesWithinAndApartBy(CutAt, items, r);
  }

  ghost predicate TileEach(tiles: seq<Tile>, items: seq<Node>) {
    |tiles| == |items| && forall k :: 0 <= k < |items| ==> tiles[k].node == items[k]
  }

  lemma TileEachJoins(a: seq<Tile>, b: seq<Tile>, items: seq<Node>, i: nat)
    requires i <= |items| && TileEach(a, items[..i]) && TileEach(b, items[i..])
    ensures TileEach(a + b, items)
  {
    forall k | 0 <= k < |items| ensures (a + b)[k].node == items[k] {
      assert if k < i then items[k] == items[..i][k] else items[k] == items[i..][k - i];
    }
  }

  /** One tile per item, in order, whatever the cuts. */
  lemma {:induction false} OneTilePerItem(cutAt: Cutter, items: seq<Node>, r: Rect)
    ensures TileEach(LayoutBy(cutAt, items, r), items)
    decreases |items|
  {
    if |items| >= 2 {
      var i, cut := SplitIndex(items), cutAt(items, r);
      OneTilePerItem(cutAt, items[..i], First(r, cut));
      OneTilePerItem(cutAt, items[i..], Second(r, cut));
      TileEachJoins(LayoutBy(cutAt, items[..i], First(r, cut)), LayoutBy(cutAt, items[i..], Second(r, cut)), items, i);
    }
  }

  // ---------------------------------------------------------------- areas

  function Area(r: Rect): real { Scale(r.w, r.h) }

  lemma ScaleLaws(a: real, b: real, ratio: real)
    ensures Scale(Scale(a, ratio), b) == Scale(Scale(a, b), ratio) == Scale(a, Scale(b, ratio))
    ensures Scale(a - Scale(a, ratio), b) == Scale(a, b) - Scale(Scale(a, b), ratio) == Scale(a, b - Scale(b, ratio))
  {}

  /** The areas of the two parts, the first being `ratio` of the whole. */
  lemma AreasOfParts(r: Rect, ratio: real, cut: real)
    requires cut == Scale(LongSide(r), ratio)
    ensures Area(First(r, cut)) == Scale(Area(r), ratio) && Area(Second(r, cut)) == Area(r) - Scale(Area(r), ratio)
  {
    ScaleLaws(r.w, r.h, ratio);
  }

  /** If the whole has `density` area per dollar, so have both parts. */
  lemma PartsKeepDensity(area: real, density: real, part: real, whole: real, share: real)
    requires 0.0 <= part <= whole && area == Scale(density, whole) && share == Share(part, whole)
    ensures Scale(area, share) == Scale(density, part)
    ensures area - Scale(area, share) == Scale(density, whole - part)
  {
    if whole > 0.0 {
      ShareInRange(part, whole);
      ScaleLaws(density, whole, share);
      assert Scale(whole, share) == part;
      assert Scale(density, whole - part) == Scale(density, whole) - Scale(density, part);
    } else {
      assert whole == part == 0.0;
    }
  }

  type Weight = seq<Node> -> real

  type Measure = Rect -> real

  /** Cutting a rectangle that measures what its items weigh gives parts that do so again. */
  ghost predicate Follows(cutAt: Cutter, weight: Weight, measure: Measure) {
    forall items: seq<Node>, r: Rect :: |items| >= 2 && NonNegative(items) && measure(r) == weight(items) ==>
      && measure(First(r, cutAt(items, r))) == weight(items[..SplitIndex(items)])
      && measure(Second(r, cutAt(items, r))) == weight(items[SplitIndex(items)..])
  }

  /** Every tile measures what its item weighs. */
  ghost predicate AllMeasure(weight: Weight, measure: Measure, tiles: seq<Tile>, items: seq<Node>) {
    |tiles| == |items| && forall k :: 0 <= k < |items| ==> measure(tiles[k].rect) == weight([items[k]])
  }

  lemma MeasuresJoin(weight: Weight, measure: Measure, a: seq<Tile>, b: seq<Tile>, items: seq<Node>, i: nat)
    requires i <= |items| && AllMeasure(weight, measure, a, items[..i]) && AllMeasure(weight, measure, b, items[i..])
    ensures AllMeasure(weight, measure, a + b, items)
  {
    forall k | 0 <= k < |items| ensures measure((a + b)[k].rect) == weight([items[k]]) {
      assert if k < i then items[k] == items[..i][k] else items[k] == items[i..][k - i];
    }
  }

  lemma {:induction false} TilesFollow(cutAt: Cutter, weight: Weight, measure: Measure, items: seq<Node>, r: Rect)
    requires Follows(cutAt, weight, measure) && NonNegative(items) && measure(r) == weight(items)
    ensures AllMeasure(weight, measure, LayoutBy(cutAt, items, r), items)
    decreases |items|
  {
    if |items| == 1 {
      assert items == [items[0]];
    } else if |items| >= 2 {
      var i, cut := SplitIndex(items), cutAt(items, r);
      TilesFollow(cutAt, weight, measure, items[..i], First(r, cut));
      TilesFollow(cutAt, weight, measure, items[i..], Second(r, cut));
      MeasuresJoin(weight, measure, LayoutBy(cutAt, items[..i], First(r, cut)),
          LayoutBy(cutAt, items[i..], Second(r, cut)), items, i);
    }
  }

  function Due(density: real): Weight { items => Scale(density, Sum(items)) }

  lemma PartsAreExact(items: seq<Node>, r: Rect, density: real, cut: real, part: real)
    requires |items| >= 2 && NonNegative(items) && Area(r) == Scale(density, Sum(items))
    requires cut == CutAt(items, r) && part == Sum(items[..SplitIndex(items)])
    ensures Area(First(r, cut)) == Scale(density, part)
    ensures Area(Second(r, cut)) == Scale(density, Sum(items) - part)
  {
    PrefixSums(items, SplitIndex(items));
    AreasOfParts(r, Ratio(items), cut);
    PartsKeepDensity(Area(r), density, part, Sum(items), Ratio(items));
  }

  lemma CutFollows(items: seq<Node>, r: Rect, density: real)
    requires |items| >= 2 && NonNegative(items) && Area(r) == Scale(density, Sum(items))
    ensures Area(First(r, CutAt(items, r))) == Scale(density, Sum(items[..SplitIndex(items)]))
    ensures Area(Second(r, CutAt(items, r))) == Scale(density, Sum(items[SplitIndex(items)..]))
  {
    var i := SplitIndex(items);
    PartsAreExact(items, r, density, CutAt(items, r), Sum(items[..i]));
    assert Sum(items[i..]) == Sum(items) - Sum(items[..i]) by { PrefixSums(items, i); }
  }

  lemma CutAtFollows(density: real)
    ensures Follows(CutAt, Due(density), Area)
  {
    forall items: seq<Node>, r: Rect | |items| >= 2 && NonNegative(items) && Area(r) == Due(density)(items)
      ensures Area(First(r, CutAt(items, r))) == Due(density)(items[..SplitIndex(items)])
      ensures Area(Second(r, CutAt(items, r))) == Due(density)(items[SplitIndex(items)..])
    {
      CutFollows(items, r, density);
    }
  }

  /** The area of a tile is its cost's share of the total cost, times the whole area. */
  lemma EveryTileHasItsShare(items: seq<Node>, r: Rect, k: nat)
    requires NonNegative(items) && Sum(items) > 0.0 && k < |items|
    ensures |Layout(items, r)| == |items|
    ensures Area(Layout(items, r)[k].rect) == Scale(Area(r), items[k].cost / Sum(items))
  {
    var density := Area(r) / Sum(items);
    Cancel(Area(r), items[k].cost, Sum(items), density);
    TileHasDensity(items, r, k, density);
  }

  lemma TileHasDensity(items: seq<Node>, r: Rect, k: nat, density: real)
    requires NonNegative(items) && k < |items| && Area(r) == Scale(density, Sum(items))
    ensures |Layout(items, r)| == |items|
    ensures Area(Layout(items, r)[k].rect) == Scale(density, items[k].cost)
  {
    assert [items[k]][..0] == [];
    assert Sum([items[k]]) == items[k].cost;
    CutAtFollows(density);
    TilesFollow(CutAt, Due(density), Area, items, r);
  }

  lemma Cancel(area: real, cost: real, sum: real, density: real)
    requires sum > 0.0 && density == area / sum
    ensures Scale(density, sum) == area && Scale(density, cost) == Scale(area, cost / sum)
  {}
}
