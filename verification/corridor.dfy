/** The corridor map: the path is cut at its gaps, and the cells near the joined pieces become free. The code marks only
    the index box of each segment; the specification tests every cell. */
module Corridor {
  import opened Frames
  import opened Segments

  // ----- cutting the path

  type Piece = (nat, nat)

  /** The step from point k to k + 1 is longer than the gap (squared distances; gap > 0). */
  predicate Far(xy: seq<Point>, k: nat, gap: real)
    requires k + 1 < |xy|
  {
    Dist2(xy[k], xy[k + 1]) > gap * gap
  }

  /** The indices of the long steps below n, in order. */
  function Cuts(xy: seq<Point>, gap: real, n: nat): seq<nat>
    requires n == 0 || n < |xy|
  {
    if n == 0 then [] else Cuts(xy, gap, n - 1) + if Far(xy, n - 1, gap) then [n - 1] else []
  }

  function AllCuts(xy: seq<Point>, gap: real): seq<nat> {
    if |xy| == 0 then [] else Cuts(xy, gap, |xy| - 1)
  }

  function Bounds(xy: seq<Point>, gap: real): (r: seq<nat>)
    ensures |r| == |AllCuts(xy, gap)| + 2
  {
    var cuts := AllCuts(xy, gap);
    [0] + seq(|cuts|, i requires 0 <= i < |cuts| => cuts[i] + 1) + [|xy|]
  }

  function PiecesFrom(bounds: seq<nat>, k: nat): seq<Piece>
    decreases |bounds| - k
  {
    if k + 1 >= |bounds| then []
    else (if bounds[k + 1] > bounds[k] then [(bounds[k], bounds[k + 1])] else []) + PiecesFrom(bounds, k + 1)
  }

  /** The joined index ranges; None is the ValueError. */
  function SplitAtGaps(xy: seq<Point>, gap: real): Option<seq<Piece>> {
    if gap <= 0.0 then None else Some(PiecesFrom(Bounds(xy, gap), 0))
  }

  /** The i-th piece starts where the one before ends (the first at point 0), has a point, has no long step inside, and is
      followed by a long step unless it ends the path. */
  ghost predicate Fits(xy: seq<Point>, gap: real, pieces: seq<Piece>, i: nat)
    requires i < |pieces|
  {
    var (s, e) := pieces[i];
    && s == (if i == 0 then 0 else pieces[i - 1].1)
    && s < e <= |xy|
    && (forall k: nat :: s <= k && k + 1 < e ==> !Far(xy, k, gap))
    && (if i + 1 == |pieces| then e == |xy| else e < |xy| && Far(xy, e - 1, gap))
  }

  ghost predicate Partition(xy: seq<Point>, gap: real, pieces: seq<Piece>) {
    (xy != [] ==> pieces != []) && forall i :: 0 <= i < |pieces| ==> Fits(xy, gap, pieces, i)
  }

  lemma {:induction false} CutsAreFar(xy: seq<Point>, gap: real, n: nat)
    requires n == 0 || n < |xy|
    ensures forall i :: 0 <= i < |Cuts(xy, gap, n)| ==> Cuts(xy, gap, n)[i] < n
    ensures forall i :: 0 <= i < |Cuts(xy, gap, n)| ==> Far(xy, Cuts(xy, gap, n)[i], gap)
    ensures forall i, j :: 0 <= i < j < |Cuts(xy, gap, n)| ==> Cuts(xy, gap, n)[i] < Cuts(xy, gap, n)[j]
    ensures forall k: nat :: k < n && Far(xy, k, gap) ==> k in Cuts(xy, gap, n)
  {
    hide Far;
    if n > 0 {
      CutsAreFar(xy, gap, n - 1);
      var before, c := Cuts(xy, gap, n - 1), Cuts(xy, gap, n);
      assert c == before + if Far(xy, n - 1, gap) then [n - 1] else [];
      assert forall k: nat :: k in before ==> k in c;
      assert Far(xy, n - 1, gap) ==> c[|before|] == n - 1;
    }
  }

  lemma BoundAt(xy: seq<Point>, gap: real, i: nat)
    requires i < |Bounds(xy, gap)|
    ensures Bounds(xy, gap)[i] ==
      if i == 0 then 0 else if i == |Bounds(xy, gap)| - 1 then |xy| else AllCuts(xy, gap)[i - 1] + 1
  {
  }

  /** The bounds strictly increase, and the inner ones are the points after the long steps. */
  lemma BoundsIncrease(xy: seq<Point>, gap: real)
    requires xy != []
    ensures var b := Bounds(xy, gap);
      && (forall i, j :: 0 <= i < j < |b| ==> b[i] < b[j])
      && (forall i :: 0 < i < |b| - 1 ==> 0 < b[i] < |xy| && Far(xy, b[i] - 1, gap))
  {
    var c, b := AllCuts(xy, gap), Bounds(xy, gap);
    CutsAreFar(xy, gap, |xy| - 1);
    hide Far, Bounds;
    forall i | 0 < i < |b| - 1
      ensures 0 < b[i] < |xy| && Far(xy, b[i] - 1, gap)
    {
      BoundAt(xy, gap, i);
      assert c[i - 1] < |xy| - 1;
    }
    forall i, j | 0 <= i < j < |b|
      ensures b[i] < b[j]
    {
      BoundAt(xy, gap, i);
      BoundAt(xy, gap, j);
      assert i > 0 && j < |b| - 1 ==> c[i - 1] < c[j - 1];
    }
  }

  lemma LongStepIsBound(xy: seq<Point>, gap: real, k: nat) returns (m: nat)
    requires k + 1 < |xy| && Far(xy, k, gap)
    ensures m < |Bounds(xy, gap)| && Bounds(xy, gap)[m] == k + 1
  {
    CutsAreFar(xy, gap, |xy| - 1);
    hide Far, Bounds;
    var c := AllCuts(xy, gap);
    var i :| 0 <= i < |c| && c[i] == k;
    m := i + 1;
    BoundAt(xy, gap, m);
  }

  lemma {:induction false} PiecesAreConsecutive(b: seq<nat>, k: nat)
    requires k < |b| && forall i, j :: 0 <= i < j < |b| ==> b[i] < b[j]
    ensures |PiecesFrom(b, k)| == |b| - 1 - k
    ensures forall i :: 0 <= i < |b| - 1 - k ==> PiecesFrom(b, k)[i] == (b[k + i], b[k + i + 1])
    decreases |b| - k
  {
    if k + 1 < |b| {
      PiecesAreConsecutive(b, k + 1);
    }
  }

  lemma StepInsidePiece(xy: seq<Point>, gap: real, i: nat, k: nat)
    requires xy != [] && i + 1 < |Bounds(xy, gap)| && Bounds(xy, gap)[i] <= k && k + 1 < Bounds(xy, gap)[i + 1]
    ensures k + 1 < |xy| && !Far(xy, k, gap)
  {
    hide Far, Bounds;
    var b := Bounds(xy, gap);
    BoundsIncrease(xy, gap);
    LastBound(xy, gap);
    assert i + 1 < |b| - 1 ==> b[i + 1] < b[|b| - 1];
    if Far(xy, k, gap) {
      var m := LongStepIsBound(xy, gap, k);
      NothingBetween(b, i, m);
    }
  }

  lemma NothingBetween(b: seq<nat>, i: nat, m: nat)
    requires (forall i, j :: 0 <= i < j < |b| ==> b[i] < b[j]) && i + 1 < |b| && m < |b|
    ensures b[m] <= b[i] || b[m] >= b[i + 1]
  {
  }

  lemma LastBound(xy: seq<Point>, gap: real)
    ensures Bounds(xy, gap)[0] == 0 && Bounds(xy, gap)[|Bounds(xy, gap)| - 1] == |xy|
  {
  }

  /** For a positive gap a long step is one whose length is greater than the gap. */
  lemma FarIsLonger(xy: seq<Point>, k: nat, gap: real, length: real)
    requires k + 1 < |xy| && gap > 0.0 && length >= 0.0
    requires var dx, dy := xy[k + 1].x - xy[k].x, xy[k + 1].y - xy[k].y; length * length == dx * dx + dy * dy
    ensures Far(xy, k, gap) <==> length > gap
  {
    var dx, dy := xy[k + 1].x - xy[k].x, xy[k + 1].y - xy[k].y;
    SquareOfOpposite(dx);
    SquareOfOpposite(dy);
    SquaresCompare(length, gap);
  }

  lemma SquareOfOpposite(v: real)
    ensures (-v) * (-v) == v * v
  {
  }

  lemma SquaresCompare(a: real, b: real)
    requires a >= 0.0 && b > 0.0
    ensures a * a > b * b <==> a > b
  {
    if a > b {
      Bigger(b, a, a);
      Bigger(b, a, b);
    } else {
      NotSmaller(a, b, b);
      if a > 0.0 {
        NotSmaller(a, b, a);
      }
    }
  }

  /** split_at_gaps refuses exactly a gap that is not positive, and otherwise cuts the path exactly at its long steps. */
  lemma SplitIsPartition(xy: seq<Point>, gap: real)
    ensures SplitAtGaps(xy, gap).Some? <==> gap > 0.0
    ensures gap > 0.0 ==> Partition(xy, gap, SplitAtGaps(xy, gap).value)
  {
    hide Far;
    if gap <= 0.0 {
      return;
    }
    if xy == [] {
      assert Bounds(xy, gap) == [0, 0];
      assert PiecesFrom([0, 0], 1) == [];
    } else {
      hide Bounds, PiecesFrom, Fits;
      var pieces := PiecesFrom(Bounds(xy, gap), 0);
      BoundsIncrease(xy, gap);
      PiecesAreConsecutive(Bounds(xy, gap), 0);
      forall i | 0 <= i < |pieces|
        ensures Fits(xy, gap, pieces, i)
      {
        PieceFits(xy, gap, i);
      }
    }
  }

  lemma PieceFits(xy: seq<Point>, gap: real, i: nat)
    requires xy != [] && i < |PiecesFrom(Bounds(xy, gap), 0)|
    ensures Fits(xy, gap, PiecesFrom(Bounds(xy, gap), 0), i)
  {
    hide Far, Bounds, PiecesFrom;
    var b := Bounds(xy, gap);
    BoundsIncrease(xy, gap);
    LastBound(xy, gap);
    PiecesAreConsecutive(b, 0);
    forall k: nat | b[i] <= k && k + 1 < b[i + 1]
      ensures k + 1 < |xy| && !Far(xy, k, gap)
    {
      StepInsidePiece(xy, gap, i, k);
    }
  }

  // ----- marking

  /** The two ends of each marked segment, piece by piece; a piece of one point is marked as a point. */
  function Chain(s: nat, e: nat): seq<(nat, nat)> {
    if e <= s + 1 then [] else Chain(s, e - 1) + [(e - 2, e - 1)]
  }

  function PieceSegments(p: Piece): seq<(nat, nat)> {
    (if p.1 == p.0 + 1 then [(p.0, p.0)] else []) + Chain(p.0, p.1)
  }

  function Marked(pieces: seq<Piece>): seq<(nat, nat)> {
    if pieces == [] then [] else Marked(pieces[..|pieces| - 1]) + PieceSegments(pieces[|pieces| - 1])
  }

  predicate InRange(xy: seq<Point>, pieces: seq<Piece>) {
    forall i :: 0 <= i < |pieces| ==> pieces[i].0 <= pieces[i].1 <= |xy|
  }

  ghost predicate NearSome(xy: seq<Point>, segments: seq<(nat, nat)>, c: Point, half: real) {
    exists q :: 0 <= q < |segments| && NearSegment(xy, segments[q], c, half)
  }

  predicate NearSegment(xy: seq<Point>, s: (nat, nat), c: Point, half: real) {
    s.0 < |xy| && s.1 < |xy| && Near(xy[s.0], xy[s.1], c, half)
  }

  datatype Geometry = Geometry(lo: Point, res: real, width: int, height: int)

  function Ceil(v: real): int {
    -((-v).Floor)
  }

  function HalfIndex(i: int): real {
    (2 * i + 1) as real / 2.0
  }

  function Centre(g: Geometry, i: int, j: int): Point {
    Point(g.lo.x + HalfIndex(i) * g.res, g.lo.y + HalfIndex(j) * g.res)
  }

  lemma CentreIsMiddle(g: Geometry, i: int, j: int)
    ensures IsMiddle(Centre(g, i, j), g.lo, g.res, i, j)
  {
    assert HalfIndex(i) == i as real + 0.5;
  }

  function Clamp0(v: int): int {
    if v < 0 then 0 else v
  }

  function AtMost(v: int, limit: int): int {
    if v > limit then limit else v
  }

  /** The first index of a box that starts at v, and the index after the last one of a box that ends at v. */
  function First(v: real, lo: real, res: real): int
    requires res != 0.0
  {
    Clamp0(((v - lo) / res).Floor)
  }

  function After(v: real, lo: real, res: real, limit: int): int
    requires res != 0.0
  {
    AtMost(Ceil((v - lo) / res), limit)
  }

  lemma Divide(u: real, v: real, res: real)
    requires res > 0.0 && u <= v
    ensures u / res <= v / res
  {
    assert (v - u) / res >= 0.0;
    assert v / res == u / res + (v - u) / res;
  }

  lemma Cancel(k: real, res: real)
    requires res > 0.0
    ensures (k * res) / res == k
  {
  }

  /** A cell centre between the ends of the box has its index in the box. */
  lemma IndexInBox(i: int, from: real, to: real, lo: real, res: real, limit: int)
    requires res > 0.0 && 0 <= i < limit && from <= lo + HalfIndex(i) * res <= to
    ensures First(from, lo, res) <= i < After(to, lo, res, limit)
  {
    var k := HalfIndex(i);
    Cancel(k, res);
    Divide(from - lo, k * res, res);
    Divide(k * res, to - lo, res);
    assert k == i as real + 0.5;
    hide HalfIndex;
    FloorBelow((from - lo) / res, i);
    CeilAbove((to - lo) / res, i);
  }

  lemma FloorBelow(v: real, i: int)
    requires v <= i as real + 0.5
    ensures v.Floor <= i
  {
  }

  lemma CeilAbove(v: real, i: int)
    requires v >= i as real + 0.5
    ensures Ceil(v) > i
  {
  }

  method Mark(grid: array2<int>, g: Geometry, a: Point, b: Point, half: real)
    requires half > 0.0 && g.res > 0.0 && grid.Length0 == g.height && grid.Length1 == g.width
    modifies grid
    ensures forall j, i :: 0 <= j < g.height && 0 <= i < g.width ==>
      grid[j, i] == if Near(a, b, Centre(g, i, j), half) then 0 else old(grid[j, i])
  {
    hide Near, Centre;
    var i0, i1 := First(Min(a.x, b.x) - half, g.lo.x, g.res), After(Max(a.x, b.x) + half, g.lo.x, g.res, g.width);
    var j0, j1 := First(Min(a.y, b.y) - half, g.lo.y, g.res), After(Max(a.y, b.y) + half, g.lo.y, g.res, g.height);
    forall j, i | 0 <= j < g.height && 0 <= i < g.width && Near(a, b, Centre(g, i, j), half)
      ensures i0 <= i < i1 && j0 <= j < j1
    {
      BoxHoldsNear(g, a, b, half, i, j);
    }
    assert i0 >= 0 && j0 >= 0 && i1 <= g.width && j1 <= g.height;
    forall j, i | j0 <= j < j1 && i0 <= i < i1 && Near(a, b, Centre(g, i, j), half) {
      grid[j, i] := 0;
    }
  }

  lemma BoxHoldsNear(g: Geometry, a: Point, b: Point, half: real, i: int, j: int)
    requires half > 0.0 && g.res > 0.0 && 0 <= i < g.width && 0 <= j < g.height && Near(a, b, Centre(g, i, j), half)
    ensures First(Min(a.x, b.x) - half, g.lo.x, g.res) <= i < After(Max(a.x, b.x) + half, g.lo.x, g.res, g.width)
    ensures First(Min(a.y, b.y) - half, g.lo.y, g.res) <= j < After(Max(a.y, b.y) + half, g.lo.y, g.res, g.height)
  {
    hide Near, First, After, Min, Max, HalfIndex;
    NearIsInBox(a, b, Centre(g, i, j), half);
    IndexInBox(i, Min(a.x, b.x) - half, Max(a.x, b.x) + half, g.lo.x, g.res, g.width);
    IndexInBox(j, Min(a.y, b.y) - half, Max(a.y, b.y) + half, g.lo.y, g.res, g.height);
  }

  // ----- the grid

  function MinX(xy: seq<Point>): (r: real)
    requires xy != []
    ensures forall k :: 0 <= k < |xy| ==> r <= xy[k].x
  {
    if |xy| == 1 then xy[0].x else Min(MinX(xy[..|xy| - 1]), xy[|xy| - 1].x)
  }

  function MaxX(xy: seq<Point>): (r: real)
    requires xy != []
    ensures forall k :: 0 <= k < |xy| ==> r >= xy[k].x
  {
    if |xy| == 1 then xy[0].x else Max(MaxX(xy[..|xy| - 1]), xy[|xy| - 1].x)
  }

  function MinY(xy: seq<Point>): (r: real)
    requires xy != []
    ensures forall k :: 0 <= k < |xy| ==> r <= xy[k].y
  {
    if |xy| == 1 then xy[0].y else Min(MinY(xy[..|xy| - 1]), xy[|xy| - 1].y)
  }

  function MaxY(xy: seq<Point>): (r: real)
    requires xy != []
    ensures forall k :: 0 <= k < |xy| ==> r >= xy[k].y
  {
    if |xy| == 1 then xy[0].y else Max(MaxY(xy[..|xy| - 1]), xy[|xy| - 1].y)
  }

  /** The path plus half a corridor and one cell on each side. */
  function GeometryOf(xy: seq<Point>, half: real, res: real): Geometry
    requires xy != [] && res > 0.0
  {
    var lo := Point(MinX(xy) - half - res, MinY(xy) - half - res);
    var hi := Point(MaxX(xy) + half + res, MaxY(xy) + half + res);
    Geometry(lo, res, Ceil((hi.x - lo.x) / res), Ceil((hi.y - lo.y) / res))
  }

  lemma {:induction false} Extremes(xy: seq<Point>) returns (a: nat, b: nat, c: nat, d: nat)
    requires xy != []
    ensures a < |xy| && b < |xy| && c < |xy| && d < |xy|
    ensures xy[a].x == MinX(xy) && xy[b].x == MaxX(xy) && xy[c].y == MinY(xy) && xy[d].y == MaxY(xy)
  {
    a, b, c, d := 0, 0, 0, 0;
    if |xy| > 1 {
      var n := |xy| - 1;
      a, b, c, d := Extremes(xy[..n]);
      if xy[n].x < MinX(xy[..n]) {
        a := n;
      }
      if xy[n].x > MaxX(xy[..n]) {
        b := n;
      }
      if xy[n].y < MinY(xy[..n]) {
        c := n;
      }
      if xy[n].y > MaxY(xy[..n]) {
        d := n;
      }
    }
  }

  lemma CeilBounds(d: real, res: real)
    requires res > 0.0
    ensures (Ceil(d / res) - 1) as real * res < d <= Ceil(d / res) as real * res
  {
    var q := d / res;
    assert q * res == d;
    var n := Ceil(q);
    var m := (n - 1) as real;
    assert m < q <= n as real;
    Bigger(m, q, res);
    NotSmaller(q, n as real, res);
  }

  lemma Bigger(a: real, b: real, res: real)
    requires a < b && res > 0.0
    ensures a * res < b * res
  {
  }

  lemma NotSmaller(a: real, b: real, res: real)
    requires a <= b && res > 0.0
    ensures a * res <= b * res
  {
  }

  /** n cells from lo on reach hi, and one less do not. */
  predicate Covering(lo: real, hi: real, res: real, n: int) {
    lo + (n - 1) as real * res < hi <= lo + n as real * res
  }

  lemma SpanCovers(lo: real, hi: real, res: real)
    requires res > 0.0
    ensures Covering(lo, hi, res, Ceil((hi - lo) / res))
  {
    CeilBounds(hi - lo, res);
    hide Ceil;
  }

  /** The grid begins exactly half a corridor and one cell before some path point on each axis, and one column or row less
      would not reach as far behind another. */
  lemma GeometryIsTight(xy: seq<Point>, half: real, res: real) returns (a: nat, b: nat, c: nat, d: nat)
    requires xy != [] && half > 0.0 && res > 0.0
    ensures a < |xy| && b < |xy| && c < |xy| && d < |xy|
    ensures var g := GeometryOf(xy, half, res);
      && g.res == res && g.lo.x == xy[a].x - half - res && g.lo.y == xy[c].y - half - res
      && Covering(g.lo.x, xy[b].x + half + res, res, g.width) && Covering(g.lo.y, xy[d].y + half + res, res, g.height)
  {
    hide Ceil, MinX, MaxX, MinY, MaxY, Covering;
    a, b, c, d := Extremes(xy);
    SpanCovers(MinX(xy) - half - res, MaxX(xy) + half + res, res);
    SpanCovers(MinY(xy) - half - res, MaxY(xy) + half + res, res);
  }

  const MAX_CELLS := 50_000_000

  lemma GeometryIsPositive(xy: seq<Point>, half: real, res: real)
    requires xy != [] && half > 0.0 && res > 0.0
    ensures GeometryOf(xy, half, res).width > 0 && GeometryOf(xy, half, res).height > 0
  {
    PositiveCells(MinX(xy), MaxX(xy), half, res);
    PositiveCells(MinY(xy), MaxY(xy), half, res);
    assert MinX(xy) <= xy[0].x <= MaxX(xy) && MinY(xy) <= xy[0].y <= MaxY(xy);
  }

  lemma PositiveCells(min: real, max: real, half: real, res: real)
    requires half > 0.0 && res > 0.0
    ensures min <= max ==> Ceil(((max + half + res) - (min - half - res)) / res) > 0
  {
    if min <= max {
      var len := (max + half + res) - (min - half - res);
      Cancel(1.0, res);
      Divide(1.0 * res, len, res);
    }
  }

  /** corridor_grid: free (0) exactly the cells whose centre is near a marked segment, the rest unknown (255). */
  method CorridorGrid(xy: seq<Point>, pieces: seq<Piece>, half: real, res: real) returns (ok: bool, grid: array2<int>)
    requires InRange(xy, pieces)
    ensures fresh(grid)
    ensures half <= 0.0 || res <= 0.0 || xy == [] ==> !ok
    ensures half > 0.0 && res > 0.0 && xy != [] ==>
      var g := GeometryOf(xy, half, res); ok <==> g.width * g.height <= 50_000_000
    ensures ok ==> var g := GeometryOf(xy, half, res); grid.Length0 == g.height && grid.Length1 == g.width
    ensures ok ==> var g := GeometryOf(xy, half, res); forall j, i :: 0 <= j < g.height && 0 <= i < g.width ==>
      grid[j, i] == if NearSome(xy, Marked(pieces), Centre(g, i, j), half) then 0 else 255
  {
    hide Near, Centre, GeometryOf;
    if half <= 0.0 || res <= 0.0 || xy == [] {
      ok, grid := false, new int[0, 0];
      return;
    }
    var g := GeometryOf(xy, half, res);
    GeometryIsPositive(xy, half, res);
    GeometryKeepsRes(xy, half, res);
    if g.width * g.height > MAX_CELLS {
      ok, grid := false, new int[0, 0];
      return;
    }
    ok, grid := true, new int[g.height, g.width]((j, i) => 255);
    var p := 0;
    while p < |pieces|
      invariant 0 <= p <= |pieces|
      invariant Holds(grid, g, xy, Marked(pieces[..p]), half)
    {
      MarkPiece(grid, g, xy, Marked(pieces[..p]), pieces[p], half);
      assert pieces[..p + 1][..p] == pieces[..p];
      p := p + 1;
    }
    assert pieces[..p] == pieces;
  }

  method MarkPiece(grid: array2<int>, g: Geometry, xy: seq<Point>, ghost done: seq<(nat, nat)>, piece: Piece, half: real)
    requires half > 0.0 && g.res > 0.0 && Holds(grid, g, xy, done, half) && piece.0 <= piece.1 <= |xy|
    modifies grid
    ensures Holds(grid, g, xy, done + PieceSegments(piece), half)
  {
    hide Holds;
    var (s, e) := piece;
    ghost var all := done;
    if e == s + 1 {
      MarkNext(grid, g, xy, all, (s, s), half);
      all := all + [(s, s)];
    }
    var k := s;
    assert all + Chain(s, k + 1) == all;
    while k + 1 < e
      invariant s <= k && (k + 1 <= e || k == s)
      invariant Holds(grid, g, xy, all + Chain(s, k + 1), half)
    {
      MarkNext(grid, g, xy, all + Chain(s, k + 1), (k, k + 1), half);
      assert all + Chain(s, k + 1) + [(k, k + 1)] == all + Chain(s, k + 2);
      k := k + 1;
    }
    assert all + Chain(s, k + 1) == done + PieceSegments(piece);
  }

  lemma GeometryKeepsRes(xy: seq<Point>, half: real, res: real)
    requires xy != [] && res > 0.0
    ensures GeometryOf(xy, half, res).res == res
  {
  }

  ghost predicate Holds(grid: array2<int>, g: Geometry, xy: seq<Point>, segments: seq<(nat, nat)>, half: real)
    reads grid
  {
    && grid.Length0 == g.height && grid.Length1 == g.width
    && forall j, i :: 0 <= j < g.height && 0 <= i < g.width ==>
         grid[j, i] == if NearSome(xy, segments, Centre(g, i, j), half) then 0 else 255
  }

  method MarkNext(grid: array2<int>, g: Geometry, xy: seq<Point>, ghost done: seq<(nat, nat)>, s: (nat, nat), half: real)
    requires half > 0.0 && g.res > 0.0 && Holds(grid, g, xy, done, half) && s.0 < |xy| && s.1 < |xy|
    modifies grid
    ensures Holds(grid, g, xy, done + [s], half)
  {
    hide Near, Centre;
    Mark(grid, g, xy[s.0], xy[s.1], half);
    forall c: Point
      ensures NearSome(xy, done + [s], c, half) == (NearSome(xy, done, c, half) || Near(xy[s.0], xy[s.1], c, half))
    {
      NearOneMore(xy, done, s, c, half);
    }
  }

  lemma NearOneMore(xy: seq<Point>, done: seq<(nat, nat)>, s: (nat, nat), c: Point, half: real)
    requires s.0 < |xy| && s.1 < |xy|
    ensures NearSome(xy, done + [s], c, half) == (NearSome(xy, done, c, half) || Near(xy[s.0], xy[s.1], c, half))
  {
    hide Near;
    if NearSome(xy, done, c, half) {
      var q :| 0 <= q < |done| && NearSegment(xy, done[q], c, half);
      assert NearSegment(xy, (done + [s])[q], c, half);
    }
    if Near(xy[s.0], xy[s.1], c, half) {
      assert NearSegment(xy, (done + [s])[|done|], c, half);
    }
  }

  // ----- what the corridor is

  lemma {:induction false} ChainHas(s: nat, e: nat)
    ensures forall a: nat, b: nat :: (a, b) in Chain(s, e) <==> b == a + 1 && s <= a && b < e
  {
    if e > s + 1 {
      ChainHas(s, e - 1);
    }
  }

  lemma {:induction false} MarkedHas(pieces: seq<Piece>, t: (nat, nat))
    ensures t in Marked(pieces) <==> exists i :: 0 <= i < |pieces| && t in PieceSegments(pieces[i])
  {
    hide PieceSegments;
    if pieces != [] {
      MarkedHas(pieces[..|pieces| - 1], t);
    }
  }

  lemma Locate(xy: seq<Point>, gap: real, pieces: seq<Piece>, k: nat) returns (i: nat)
    requires Partition(xy, gap, pieces) && k < |xy|
    ensures i < |pieces| && pieces[i].0 <= k < pieces[i].1
  {
    hide Far;
    assert Fits(xy, gap, pieces, 0) && Fits(xy, gap, pieces, |pieces| - 1);
    i := 0;
    while k >= pieces[i].1
      invariant i < |pieces| && pieces[i].0 <= k
      decreases |pieces| - i
    {
      assert Fits(xy, gap, pieces, i);
      assert i + 1 < |pieces| ==> Fits(xy, gap, pieces, i + 1);
      i := i + 1;
    }
  }

  /** Within half of a point of the path, or of a step that is not longer than the gap. */
  ghost predicate OnPath(xy: seq<Point>, gap: real, c: Point, half: real) {
    || (exists k :: 0 <= k < |xy| && Dist2(c, xy[k]) <= half * half)
    || (exists k: nat :: k + 1 < |xy| && NearStep(xy, gap, k, c, half))
  }

  predicate NearStep(xy: seq<Point>, gap: real, k: nat, c: Point, half: real)
    requires k + 1 < |xy|
  {
    !Far(xy, k, gap) && Near(xy[k], xy[k + 1], c, half)
  }

  lemma MarkedIsOnPath(xy: seq<Point>, gap: real, c: Point, half: real)
    requires gap > 0.0 && NearSome(xy, Marked(SplitAtGaps(xy, gap).value), c, half)
    ensures OnPath(xy, gap, c, half)
  {
    hide Near, Far, Dist2, Bounds, PiecesFrom, PieceSegments, OnPath, Marked, Fits;
    var pieces := SplitAtGaps(xy, gap).value;
    SplitIsPartition(xy, gap);
    var q :| 0 <= q < |Marked(pieces)| && NearSegment(xy, Marked(pieces)[q], c, half);
    var t := Marked(pieces)[q];
    MarkedHas(pieces, t);
    var i :| 0 <= i < |pieces| && t in PieceSegments(pieces[i]);
    SegmentIsOnPath(xy, gap, pieces, i, t, c, half);
  }

  lemma SegmentIsOnPath(xy: seq<Point>, gap: real, pieces: seq<Piece>, i: nat, t: (nat, nat), c: Point, half: real)
    requires i < |pieces| && Fits(xy, gap, pieces, i) && t in PieceSegments(pieces[i]) && NearSegment(xy, t, c, half)
    ensures OnPath(xy, gap, c, half)
  {
    hide Near, Far, Dist2;
    ChainHas(pieces[i].0, pieces[i].1);
    if t.0 == t.1 {
      NearPoint(xy[t.0], c, half);
    } else {
      assert NearStep(xy, gap, t.0, c, half);
    }
  }

  lemma SegmentIsMarked(xy: seq<Point>, pieces: seq<Piece>, i: nat, t: (nat, nat), c: Point, half: real)
    requires i < |pieces| && t in PieceSegments(pieces[i]) && NearSegment(xy, t, c, half)
    ensures NearSome(xy, Marked(pieces), c, half)
  {
    hide PieceSegments, NearSegment;
    MarkedHas(pieces, t);
    var q :| 0 <= q < |Marked(pieces)| && Marked(pieces)[q] == t;
  }

  lemma OnPathIsMarked(xy: seq<Point>, gap: real, c: Point, half: real)
    requires gap > 0.0 && OnPath(xy, gap, c, half)
    ensures NearSome(xy, Marked(SplitAtGaps(xy, gap).value), c, half)
  {
    hide Near, Far, Dist2, Bounds, NearSome;
    var pieces := SplitAtGaps(xy, gap).value;
    SplitIsPartition(xy, gap);
    if k: nat :| k < |xy| && Dist2(c, xy[k]) <= half * half {
      var i := Locate(xy, gap, pieces, k);
      var (s, e) := pieces[i];
      assert Fits(xy, gap, pieces, i);
      ChainHas(s, e);
      if e == s + 1 {
        NearPoint(xy[k], c, half);
        SegmentIsMarked(xy, pieces, i, (k, k), c, half);
      } else if k + 1 < e {
        NearEnds(xy[k], xy[k + 1], c, half);
        SegmentIsMarked(xy, pieces, i, (k, k + 1), c, half);
      } else {
        NearEnds(xy[k - 1], xy[k], c, half);
        SegmentIsMarked(xy, pieces, i, (k - 1, k), c, half);
      }
    } else {
      var k: nat :| k + 1 < |xy| && NearStep(xy, gap, k, c, half);
      var i := Locate(xy, gap, pieces, k);
      assert Fits(xy, gap, pieces, i);
      ChainHas(pieces[i].0, pieces[i].1);
      SegmentIsMarked(xy, pieces, i, (k, k + 1), c, half);
    }
  }

  /** With the pieces of split_at_gaps, a cell is marked exactly when its centre is within half of the path without its long
      steps. */
  lemma CorridorIsPath(xy: seq<Point>, gap: real, c: Point, half: real)
    requires gap > 0.0
    ensures NearSome(xy, Marked(SplitAtGaps(xy, gap).value), c, half) <==> OnPath(xy, gap, c, half)
  {
    if NearSome(xy, Marked(SplitAtGaps(xy, gap).value), c, half) {
      MarkedIsOnPath(xy, gap, c, half);
    }
    if OnPath(xy, gap, c, half) {
      OnPathIsMarked(xy, gap, c, half);
    }
  }

  /** No part of the band falls off the grid: every point of it is at least one cell away from the border. */
  lemma BandIsOnGrid(xy: seq<Point>, gap: real, p: Point, half: real, res: real)
    requires xy != [] && half > 0.0 && res > 0.0 && OnPath(xy, gap, p, half)
    ensures var g := GeometryOf(xy, half, res);
      && 1.0 <= (p.x - g.lo.x) / res <= g.width as real - 1.0
      && 1.0 <= (p.y - g.lo.y) / res <= g.height as real - 1.0
  {
    OnPathIsInBox(xy, gap, p, half);
    hide OnPath;
    OneCellInside(p.x, MinX(xy), MaxX(xy), half, res);
    OneCellInside(p.y, MinY(xy), MaxY(xy), half, res);
  }

  lemma OnPathIsInBox(xy: seq<Point>, gap: real, p: Point, half: real)
    requires xy != [] && half > 0.0 && OnPath(xy, gap, p, half)
    ensures MinX(xy) - half <= p.x <= MaxX(xy) + half && MinY(xy) - half <= p.y <= MaxY(xy) + half
  {
    hide Near, Far, Dist2;
    if k :| 0 <= k < |xy| && Dist2(p, xy[k]) <= half * half {
      CloseInBothAxes(p, xy[k], half);
      assert MinX(xy) <= xy[k].x <= MaxX(xy) && MinY(xy) <= xy[k].y <= MaxY(xy);
    } else {
      var k: nat :| k + 1 < |xy| && NearStep(xy, gap, k, p, half);
      NearIsInBox(xy[k], xy[k + 1], p, half);
      assert MinX(xy) <= xy[k].x <= MaxX(xy) && MinY(xy) <= xy[k].y <= MaxY(xy);
      assert MinX(xy) <= xy[k + 1].x <= MaxX(xy) && MinY(xy) <= xy[k + 1].y <= MaxY(xy);
    }
  }

  lemma OneCellInside(v: real, min: real, max: real, half: real, res: real)
    requires half > 0.0 && res > 0.0 && min - half <= v <= max + half
    ensures var lo := min - half - res;
      1.0 <= (v - lo) / res <= Ceil(((max + half + res) - lo) / res) as real - 1.0
  {
    var lo, hi := min - half - res, max + half + res;
    Cancel(1.0, res);
    Divide(1.0 * res, v - lo, res);
    Divide(v - lo, hi - res - lo, res);
    OneLess(hi - lo, res);
    assert hi - res - lo == (hi - lo) - res;
  }

  lemma OneLess(d: real, res: real)
    requires res > 0.0
    ensures (d - res) / res == d / res - 1.0
  {
    var q := d / res;
    assert d == q * res;
    Quotient(d - res, q - 1.0, res);
  }

  lemma Quotient(n: real, k: real, res: real)
    requires res > 0.0 && n == k * res
    ensures n / res == k
  {
  }
}
