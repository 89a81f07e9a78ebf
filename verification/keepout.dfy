/** The keepout mask: even-odd polygon fill, the kinds painted in order, and the values read back from the written image. */
module Keepout {
  import opened Segments

  /** The x at which the edge from p to q has height y. */
  function CrossingX(p: Point, q: Point, y: real): real
    requires p.y != q.y
  {
    p.x + (y - p.y) * (q.x - p.x) / (q.y - p.y)
  }

  /** The ray from c to the right crosses the edge. */
  predicate Crosses(p: Point, q: Point, c: Point) {
    p.y != q.y && Min(p.y, q.y) <= c.y < Max(p.y, q.y) && c.x < CrossingX(p, q, c.y)
  }

  /** The next vertex of a closed polygon. */
  function Succ(k: nat, n: nat): (r: nat)
    requires k < n
    ensures r < n
  {
    if k + 1 == n then 0 else k + 1
  }

  lemma SuccIsModulo(k: nat, n: nat)
    requires k < n
    ensures Succ(k, n) == (k + 1) % n
  {
  }

  function Edge(polygon: seq<Point>, k: nat): (Point, Point)
    requires k < |polygon|
  {
    (polygon[k], polygon[Succ(k, |polygon|)])
  }

  predicate CrossesEdge(polygon: seq<Point>, k: nat, c: Point)
    requires k < |polygon|
  {
    Crosses(Edge(polygon, k).0, Edge(polygon, k).1, c)
  }

  function Xor(flags: seq<bool>): bool {
    if flags == [] then false else Xor(flags[..|flags| - 1]) != flags[|flags| - 1]
  }

  function Flags(polygon: seq<Point>, c: Point): seq<bool> {
    seq(|polygon|, k requires 0 <= k < |polygon| => CrossesEdge(polygon, k, c))
  }

  /** The even-odd rule: the ray crosses an odd number of edges. */
  function Inside(polygon: seq<Point>, c: Point): bool {
    Xor(Flags(polygon, c))
  }

  /** The loop of inside() for one point. */
  method InsideLoop(polygon: seq<Point>, c: Point) returns (res: bool)
    ensures res == Inside(polygon, c)
  {
    hide CrossingX;
    ghost var flags := Flags(polygon, c);
    res := false;
    var n, k := |polygon|, 0;
    while k < n
      invariant 0 <= k <= n && res == Xor(flags[..k])
    {
      SuccIsModulo(k, n);
      var (p, q) := (polygon[k], polygon[(k + 1) % n]);
      assert flags[..k + 1][..k] == flags[..k];
      if p.y != q.y {
        res := res != (Min(p.y, q.y) <= c.y && c.y < Max(p.y, q.y) && c.x < CrossingX(p, q, c.y));
      }
      k := k + 1;
    }
    assert flags[..n] == flags;
  }

  // ----- the start vertex and the direction do not matter

  lemma {:induction false} XorOfConcat(a: seq<bool>, b: seq<bool>)
    ensures Xor(a + b) == (Xor(a) != Xor(b))
  {
    if b == [] {
      assert a + b == a;
    } else {
      assert (a + b)[..|a + b| - 1] == a + b[..|b| - 1];
      XorOfConcat(a, b[..|b| - 1]);
    }
  }

  /** The polygon that starts at vertex r. */
  function Rotated(polygon: seq<Point>, r: nat): seq<Point>
    requires r <= |polygon|
  {
    polygon[r..] + polygon[..r]
  }

  lemma RotatedVertex(polygon: seq<Point>, r: nat, k: nat)
    requires r <= |polygon| && k < |polygon|
    ensures |Rotated(polygon, r)| == |polygon|
    ensures Rotated(polygon, r)[k] == polygon[if k + r < |polygon| then k + r else k + r - |polygon|]
  {
  }

  lemma RotatedFlag(polygon: seq<Point>, r: nat, c: Point, k: nat)
    requires r <= |polygon| && k < |polygon|
    ensures |Rotated(polygon, r)| == |polygon|
    ensures CrossesEdge(Rotated(polygon, r), k, c)
         == CrossesEdge(polygon, if k + r < |polygon| then k + r else k + r - |polygon|, c)
  {
    hide Crosses, Rotated;
    RotatedVertex(polygon, r, k);
    RotatedVertex(polygon, r, Succ(k, |polygon|));
  }

  /** Even-odd does not depend on the vertex at which the polygon starts. */
  lemma StartDoesNotMatter(polygon: seq<Point>, r: nat, c: Point)
    requires r <= |polygon|
    ensures Inside(Rotated(polygon, r), c) == Inside(polygon, c)
  {
    hide CrossesEdge, Rotated;
    var n, f := |polygon|, Flags(polygon, c);
    var g := f[r..] + f[..r];
    if n == 0 {
      RotatedEmpty(polygon, r);
      return;
    }
    RotatedVertex(polygon, r, 0);
    forall k | 0 <= k < n
      ensures |Rotated(polygon, r)| == n && CrossesEdge(Rotated(polygon, r), k, c) == g[k]
    {
      RotatedFlag(polygon, r, c, k);
    }
    assert Flags(Rotated(polygon, r), c) == g;
    XorOfConcat(f[r..], f[..r]);
    XorOfConcat(f[..r], f[r..]);
    assert f[..r] + f[r..] == f;
  }

  lemma RotatedEmpty(polygon: seq<Point>, r: nat)
    requires r <= |polygon|
    ensures polygon == [] ==> Rotated(polygon, r) == polygon
  {
  }

  function Reversed<T>(s: seq<T>): (r: seq<T>)
    ensures |r| == |s| && forall k :: 0 <= k < |s| ==> r[k] == s[|s| - 1 - k]
  {
    seq(|s|, k requires 0 <= k < |s| => s[|s| - 1 - k])
  }

  lemma {:induction false} XorOfReversed(s: seq<bool>)
    ensures Xor(Reversed(s)) == Xor(s)
  {
    if s != [] {
      var n := |s| - 1;
      assert Reversed(s) == [s[n]] + Reversed(s[..n]);
      XorOfConcat([s[n]], Reversed(s[..n]));
      assert [s[n]][..0] == [];
      XorOfReversed(s[..n]);
    }
  }

  /** An edge is crossed at the same place from either end. */
  lemma CrossingIsSymmetric(p: Point, q: Point, y: real)
    requires p.y != q.y
    ensures CrossingX(p, q, y) == CrossingX(q, p, y)
  {
    var d, w := q.y - p.y, q.x - p.x;
    var t := (y - p.y) / d;
    QuotientOfProduct(y - p.y, w, d);
    QuotientOfProduct(y - q.y, -w, -d);
    RestOfQuotient(y - p.y, d, w);
    assert y - q.y == (y - p.y) - d;
  }

  lemma QuotientOfProduct(n: real, w: real, d: real)
    requires d != 0.0
    ensures n * w / d == (n / d) * w
  {
    var t := n / d;
    assert n == t * d;
    assert n * w == (t * w) * d;
  }

  lemma Quotient(n: real, k: real, d: real)
    requires d != 0.0 && n == k * d
    ensures n / d == k
  {
  }

  lemma RestOfQuotient(n: real, d: real, w: real)
    requires d != 0.0
    ensures ((n - d) / -d) * -w == (n / d) * w - w
  {
    var t := n / d;
    assert n == t * d;
    Quotient(n - d, 1.0 - t, -d);
  }

  lemma CrossesSymmetric(p: Point, q: Point, c: Point)
    ensures Crosses(p, q, c) == Crosses(q, p, c)
  {
    if p.y != q.y {
      CrossingIsSymmetric(p, q, c.y);
    }
    hide CrossingX;
  }

  lemma ReversedFlag(polygon: seq<Point>, c: Point, k: nat)
    requires k < |polygon|
    ensures CrossesEdge(Reversed(polygon), k, c) == CrossesEdge(polygon, if k + 1 < |polygon| then |polygon| - 2 - k else k, c)
  {
    hide Crosses;
    var n, rev := |polygon|, Reversed(polygon);
    CrossesSymmetric(rev[k], rev[Succ(k, n)], c);
  }

  /** Nor on the direction in which it is drawn. */
  lemma DirectionDoesNotMatter(polygon: seq<Point>, c: Point)
    ensures Inside(Reversed(polygon), c) == Inside(polygon, c)
  {
    hide CrossesEdge;
    if polygon == [] {
      assert Reversed(polygon) == polygon;
    } else {
      var n, f := |polygon| - 1, Flags(polygon, c);
      forall k | 0 <= k <= n
        ensures CrossesEdge(Reversed(polygon), k, c) == (Reversed(f[..n]) + [f[n]])[k]
      {
        ReversedFlag(polygon, c, k);
      }
      assert Flags(Reversed(polygon), c) == Reversed(f[..n]) + [f[n]];
      XorOfConcat(Reversed(f[..n]), [f[n]]);
      XorOfReversed(f[..n]);
      XorOfConcat(f[..n], [f[n]]);
      assert f[..n] + [f[n]] == f;
    }
  }

  // ----- where an edge is crossed, and what inside means for a convex polygon

  /** Twice the signed area of the triangle p, q, c: positive when c lies to the left of the line from p to q. */
  function Cross(p: Point, q: Point, c: Point): real {
    (q.x - p.x) * (c.y - p.y) - (q.y - p.y) * (c.x - p.x)
  }

  /** The crossing lies on the line through the edge. */
  lemma CrossingOnLine(p: Point, q: Point, y: real)
    requires p.y != q.y
    ensures (CrossingX(p, q, y) - p.x) * (q.y - p.y) == (y - p.y) * (q.x - p.x)
  {
    var t := (y - p.y) * (q.x - p.x) / (q.y - p.y);
    assert t * (q.y - p.y) == (y - p.y) * (q.x - p.x);
  }

  lemma CrossIsDistance(p: Point, q: Point, c: Point)
    requires p.y != q.y
    ensures (CrossingX(p, q, c.y) - c.x) * (q.y - p.y) == Cross(p, q, c)
  {
    CrossingOnLine(p, q, c.y);
    hide CrossingX;
    var x, d := CrossingX(p, q, c.y), q.y - p.y;
    assert (x - c.x) * d == (x - p.x) * d - (c.x - p.x) * d;
  }

  lemma SameSign(a: real, d: real, r: real)
    requires a * d == r && d != 0.0
    ensures d > 0.0 ==> (a > 0.0 <==> r > 0.0)
    ensures d < 0.0 ==> (a > 0.0 <==> r < 0.0)
  {
    if a > 0.0 && d > 0.0 {
      Positive(a, d);
    } else if a > 0.0 && d < 0.0 {
      Positive(a, -d);
    } else if a < 0.0 && d > 0.0 {
      Positive(-a, d);
    } else if a < 0.0 {
      Positive(-a, -d);
    }
  }

  lemma Positive(a: real, b: real)
    requires a > 0.0 && b > 0.0
    ensures a * b > 0.0
  {
  }

  /** Without a division: an upward edge is crossed when the point lies to its left, a downward edge when it lies to its
      right. */
  lemma CrossesIff(p: Point, q: Point, c: Point)
    ensures Crosses(p, q, c) <==> (p.y <= c.y < q.y && Cross(p, q, c) > 0.0) || (q.y <= c.y < p.y && Cross(p, q, c) < 0.0)
  {
    if p.y != q.y {
      CrossIsDistance(p, q, c);
      SameSign(CrossingX(p, q, c.y) - c.x, q.y - p.y, Cross(p, q, c));
      hide Cross, CrossingX;
    }
  }

  /** The side of c seen from the i-th edge. */
  function Side(polygon: seq<Point>, i: nat, c: Point): real
    requires i < |polygon|
  {
    Cross(Edge(polygon, i).0, Edge(polygon, i).1, c)
  }

  /** The i-th edge goes up, or down, through the height y. */
  predicate Up(polygon: seq<Point>, i: nat, y: real)
    requires i < |polygon|
  {
    Edge(polygon, i).0.y <= y < Edge(polygon, i).1.y
  }

  predicate Down(polygon: seq<Point>, i: nat, y: real)
    requires i < |polygon|
  {
    Edge(polygon, i).1.y <= y < Edge(polygon, i).0.y
  }

  /** Where the i-th edge is at the height y. */
  function AtHeight(polygon: seq<Point>, i: nat, y: real): Point
    requires i < |polygon| && (Up(polygon, i, y) || Down(polygon, i, y))
  {
    Point(CrossingX(Edge(polygon, i).0, Edge(polygon, i).1, y), y)
  }

  lemma FlagIff(polygon: seq<Point>, i: nat, c: Point)
    requires i < |polygon|
    ensures CrossesEdge(polygon, i, c)
            <==> (Up(polygon, i, c.y) && Side(polygon, i, c) > 0.0) || (Down(polygon, i, c.y) && Side(polygon, i, c) < 0.0)
  {
    CrossesIff(Edge(polygon, i).0, Edge(polygon, i).1, c);
    hide Cross, Crosses;
  }

  lemma SideIsDistance(polygon: seq<Point>, i: nat, c: Point)
    requires i < |polygon|
    ensures Up(polygon, i, c.y) ==> (AtHeight(polygon, i, c.y).x > c.x <==> Side(polygon, i, c) > 0.0)
    ensures Down(polygon, i, c.y) ==> (AtHeight(polygon, i, c.y).x > c.x <==> Side(polygon, i, c) < 0.0)
  {
    var (p, q) := Edge(polygon, i);
    if p.y != q.y {
      CrossIsDistance(p, q, c);
      SameSign(CrossingX(p, q, c.y) - c.x, q.y - p.y, Cross(p, q, c));
      hide Cross, CrossingX;
    }
  }

  /** The side is affine along a segment. */
  lemma CrossAlong(a: Point, b: Point, p: Point, q: Point, y: real)
    requires p.y != q.y
    ensures (q.y - p.y) * Cross(a, b, Point(CrossingX(p, q, y), y)) == (q.y - y) * Cross(a, b, p) + (y - p.y) * Cross(a, b, q)
  {
    CrossingOnLine(p, q, y);
    var x := CrossingX(p, q, y);
    hide CrossingX;
    var u, v, d, w := b.x - a.x, b.y - a.y, q.y - p.y, q.x - p.x;
    assert v * (d * (x - p.x)) == v * ((y - p.y) * w);
    assert d * (u * (y - a.y) - v * (x - a.x)) == u * (d * (y - a.y)) - v * (d * (x - p.x)) - v * (d * (p.x - a.x));
  }

  lemma Weighted(d: real, r: real, m: real, a: real, n: real, b: real)
    requires d * r == m * a + n * b && d > 0.0 && m >= 0.0 && n >= 0.0
    ensures a >= 0.0 && b >= 0.0 ==> r >= 0.0
    ensures a > 0.0 && b > 0.0 && m + n > 0.0 ==> r > 0.0
  {
    if a >= 0.0 && b >= 0.0 {
      NotNegative(m, a);
      NotNegative(n, b);
      if r < 0.0 {
        Positive(d, -r);
      }
    }
    if a > 0.0 && b > 0.0 && m + n > 0.0 {
      if m > 0.0 {
        Positive(m, a);
      } else {
        Positive(n, b);
      }
      if r < 0.0 {
        Positive(d, -r);
      }
    }
  }

  lemma NotNegative(a: real, b: real)
    requires a >= 0.0 && b >= 0.0
    ensures a * b >= 0.0
  {
  }

  /** A point of the j-th edge is on the side on which its ends are. */
  lemma SideOfEdge(polygon: seq<Point>, i: nat, j: nat, y: real)
    requires i < |polygon| && j < |polygon| && (Up(polygon, j, y) || Down(polygon, j, y))
    ensures var a, b := Side(polygon, i, Edge(polygon, j).0), Side(polygon, i, Edge(polygon, j).1);
      && (a >= 0.0 && b >= 0.0 ==> Side(polygon, i, AtHeight(polygon, j, y)) >= 0.0)
      && (a > 0.0 && b > 0.0 ==> Side(polygon, i, AtHeight(polygon, j, y)) > 0.0)
  {
    var (p, q) := Edge(polygon, j);
    var (e, f) := Edge(polygon, i);
    CrossAlong(e, f, p, q, y);
    var a, b, r := Cross(e, f, p), Cross(e, f, q), Cross(e, f, AtHeight(polygon, j, y));
    hide Cross, CrossingX;
    if q.y > p.y {
      Weighted(q.y - p.y, r, q.y - y, a, y - p.y, b);
    } else {
      assert (p.y - q.y) * r == (y - q.y) * a + (p.y - y) * b;
      Weighted(p.y - q.y, r, y - q.y, a, p.y - y, b);
    }
  }

  /** The polygon turns left once around: every other vertex is strictly to the left of every edge. */
  ghost predicate StrictlyConvex(polygon: seq<Point>) {
    |polygon| >= 3 && forall i, k :: 0 <= i < |polygon| && 0 <= k < |polygon| ==> LeftOf(polygon, i, k)
  }

  ghost predicate LeftOf(polygon: seq<Point>, i: nat, k: nat)
    requires i < |polygon| && k < |polygon|
  {
    k == i || k == Succ(i, |polygon|) || Side(polygon, i, polygon[k]) > 0.0
  }

  lemma VertexIsLeft(polygon: seq<Point>, i: nat, k: nat)
    requires StrictlyConvex(polygon) && i < |polygon| && k < |polygon|
    ensures Side(polygon, i, polygon[k]) >= 0.0
  {
    assert LeftOf(polygon, i, k);
  }

  /** Two edges that pass through a height in the same direction have no vertex in common. */
  lemma StrictlyLeft(polygon: seq<Point>, i: nat, j: nat, y: real)
    requires StrictlyConvex(polygon) && i < |polygon| && j < |polygon| && i != j
    requires (Up(polygon, i, y) && Up(polygon, j, y)) || (Down(polygon, i, y) && Down(polygon, j, y))
    ensures Side(polygon, i, AtHeight(polygon, j, y)) > 0.0
  {
    assert LeftOf(polygon, i, j) && LeftOf(polygon, i, Succ(j, |polygon|));
    SideOfEdge(polygon, i, j, y);
    hide Side, Cross, CrossingX;
  }

  /** A height is passed upward once at most, and downward once at most. */
  lemma PassedOnce(polygon: seq<Point>, i: nat, j: nat, y: real)
    requires StrictlyConvex(polygon) && i < |polygon| && j < |polygon|
    requires (Up(polygon, i, y) && Up(polygon, j, y)) || (Down(polygon, i, y) && Down(polygon, j, y))
    ensures i == j
  {
    if i != j {
      StrictlyLeft(polygon, i, j, y);
      StrictlyLeft(polygon, j, i, y);
      SideIsDistance(polygon, i, AtHeight(polygon, j, y));
      SideIsDistance(polygon, j, AtHeight(polygon, i, y));
    }
  }

  // ----- an edge passes upward, and one downward, when vertices lie on both sides

  /** The first of these vertices below or at y, or above it, that is followed by one on the other side. */
  lemma {:induction false} Turn(polygon: seq<Point>, a: nat, b: nat, y: real) returns (k: nat)
    requires a < b < |polygon| && (polygon[a].y <= y) != (polygon[b].y <= y)
    ensures a <= k < b && (polygon[k].y <= y) == (polygon[a].y <= y) && (polygon[k + 1].y <= y) == (polygon[b].y <= y)
    decreases b - a
  {
    if a + 1 == b {
      k := a;
    } else if (polygon[a + 1].y <= y) == (polygon[b].y <= y) {
      k := a;
    } else {
      k := Turn(polygon, a + 1, b, y);
    }
  }

  /** From a vertex at or below y there is a way around to one above. */
  lemma PassesBoth(polygon: seq<Point>, a: nat, b: nat, y: real) returns (u: nat, d: nat)
    requires a < |polygon| && b < |polygon| && polygon[a].y <= y < polygon[b].y
    ensures u < |polygon| && d < |polygon| && Up(polygon, u, y) && Down(polygon, d, y)
  {
    var n := |polygon|;
    var first, last := polygon[0].y <= y, polygon[n - 1].y <= y;
    if a < b {
      u := Turn(polygon, a, b, y);
    } else {
      d := Turn(polygon, b, a, y);
    }
    if a < b {
      if !last {
        if first { d := n - 1; } else { d := Turn(polygon, 0, a, y); }
      } else {
        d := Turn(polygon, b, n - 1, y);
      }
    } else {
      if last {
        if !first { u := n - 1; } else { u := Turn(polygon, 0, b, y); }
      } else {
        u := Turn(polygon, a, n - 1, y);
      }
    }
  }

  // ----- exclusive or of almost nothing

  lemma {:induction false} XorOfNone(s: seq<bool>)
    requires forall k :: 0 <= k < |s| ==> !s[k]
    ensures !Xor(s)
  {
    if s != [] {
      XorOfNone(s[..|s| - 1]);
    }
  }

  lemma XorWithout(s: seq<bool>, k: nat)
    requires k < |s|
    ensures Xor(s) == (Xor(s[k := false]) != s[k])
  {
    var a, b := s[..k], s[k + 1..];
    assert s == a + [s[k]] + b && s[k := false] == a + [false] + b;
    XorOfConcat(a + [s[k]], b);
    XorOfConcat(a + [false], b);
    XorOfConcat(a, [s[k]]);
    XorOfConcat(a, [false]);
    XorOfOne(s[k]);
    XorOfOne(false);
    hide Xor;
  }

  lemma XorOfOne(b: bool)
    ensures Xor([b]) == b
  {
    assert [b][..0] == [];
  }

  // ----- strictly outside some edge

  /** Between two points of the same height that are not to the right of an edge, there is none to its right. */
  lemma SideBetween(a: Point, b: Point, l: Point, r: Point, c: Point)
    requires l.y == c.y == r.y && l.x <= c.x <= r.x && Cross(a, b, l) >= 0.0 && Cross(a, b, r) >= 0.0
    ensures Cross(a, b, c) >= 0.0
  {
    var v := b.y - a.y;
    if v >= 0.0 {
      NotNegative(v, r.x - c.x);
      assert Cross(a, b, c) == Cross(a, b, r) + v * (r.x - c.x);
    } else {
      NotNegative(-v, c.x - l.x);
      assert Cross(a, b, c) == Cross(a, b, l) + (-v) * (c.x - l.x);
    }
  }

  lemma PointIsLeft(polygon: seq<Point>, i: nat, j: nat, y: real)
    requires StrictlyConvex(polygon) && i < |polygon| && j < |polygon| && (Up(polygon, j, y) || Down(polygon, j, y))
    ensures Side(polygon, i, AtHeight(polygon, j, y)) >= 0.0
  {
    VertexIsLeft(polygon, i, j);
    VertexIsLeft(polygon, i, Succ(j, |polygon|));
    SideOfEdge(polygon, i, j, y);
    hide StrictlyConvex, Cross, CrossingX;
  }

  /** With one edge up and one down through its height, a point is inside when it lies between them. */
  lemma InsideIffBetween(polygon: seq<Point>, u: nat, d: nat, c: Point)
    requires StrictlyConvex(polygon) && u < |polygon| && d < |polygon| && Up(polygon, u, c.y) && Down(polygon, d, c.y)
    ensures Inside(polygon, c) <==> AtHeight(polygon, d, c.y).x <= c.x < AtHeight(polygon, u, c.y).x
  {
    var s := Flags(polygon, c);
    forall k | 0 <= k < |s| && k != u && k != d
      ensures !s[k]
    {
      FlagIff(polygon, k, c);
      if Up(polygon, k, c.y) {
        PassedOnce(polygon, k, u, c.y);
      }
      if Down(polygon, k, c.y) {
        PassedOnce(polygon, k, d, c.y);
      }
    }
    FlagIff(polygon, u, c);
    FlagIff(polygon, d, c);
    SideIsDistance(polygon, u, c);
    SideIsDistance(polygon, d, c);
    assert s[u] == CrossesEdge(polygon, u, c) && s[d] == CrossesEdge(polygon, d, c);
    hide CrossesEdge, Side;
    XorOfTwo(s, u, d);
    PointIsLeft(polygon, u, d, c.y);
    SideIsDistance(polygon, u, AtHeight(polygon, d, c.y));
    UpIsNotBehind(polygon, u, d, c.y);
  }

  lemma XorOfTwo(s: seq<bool>, u: nat, d: nat)
    requires u < |s| && d < |s| && u != d && forall k :: 0 <= k < |s| && k != u && k != d ==> !s[k]
    ensures Xor(s) == (s[u] != s[d])
  {
    XorWithout(s, u);
    XorWithout(s[u := false], d);
    XorOfNone(s[u := false][d := false]);
    hide Xor;
  }

  /** The upward edge is not to the left of the downward one. */
  lemma UpIsNotBehind(polygon: seq<Point>, u: nat, d: nat, y: real)
    requires StrictlyConvex(polygon) && u < |polygon| && d < |polygon| && Up(polygon, u, y) && Down(polygon, d, y)
    ensures AtHeight(polygon, d, y).x <= AtHeight(polygon, u, y).x
  {
    PointIsLeft(polygon, u, d, y);
    var (p, q) := Edge(polygon, u);
    var l := AtHeight(polygon, d, y);
    CrossIsDistance(p, q, l);
    SameSign(l.x - CrossingX(p, q, y), q.y - p.y, -Cross(p, q, l));
    hide Cross, CrossingX;
  }

  lemma RightOfEdgeIsOutside(polygon: seq<Point>, i: nat, c: Point)
    requires StrictlyConvex(polygon) && i < |polygon| && Side(polygon, i, c) < 0.0
    ensures !Inside(polygon, c)
  {
    if u: nat, d: nat :| u < |polygon| && d < |polygon| && Up(polygon, u, c.y) && Down(polygon, d, c.y) {
      InsideIffBetween(polygon, u, d, c);
      PointIsLeft(polygon, i, u, c.y);
      PointIsLeft(polygon, i, d, c.y);
      var (a, b) := Edge(polygon, i);
      var l, r := AtHeight(polygon, d, c.y), AtHeight(polygon, u, c.y);
      hide Cross, CrossingX, Inside;
      if l.x <= c.x <= r.x {
        SideBetween(a, b, l, r, c);
      }
    } else {
      NoPassage(polygon, c);
    }
  }

  lemma NoPassage(polygon: seq<Point>, c: Point)
    requires forall u: nat, d: nat :: u < |polygon| && d < |polygon| ==> !(Up(polygon, u, c.y) && Down(polygon, d, c.y))
    ensures !Inside(polygon, c)
  {
    var s := Flags(polygon, c);
    forall k | 0 <= k < |s|
      ensures !s[k]
    {
      FlagIff(polygon, k, c);
      if Up(polygon, k, c.y) {
        var u, d := PassesBoth(polygon, k, Succ(k, |polygon|), c.y);
      }
      if Down(polygon, k, c.y) {
        var u, d := PassesBoth(polygon, Succ(k, |polygon|), k, c.y);
      }
    }
    XorOfNone(s);
  }

  // ----- strictly inside every edge

  /** The height of c over a vertex, from its sides of the two edges there. */
  lemma HeightAtVertex(j: Point, k: Point, m: Point, c: Point)
    ensures Cross(j, k, m) * (c.y - k.y) == Cross(j, k, c) * (m.y - k.y) + Cross(k, m, c) * (j.y - k.y)
  {
    var ux, uy, wx, wy, sx, sy := m.x - k.x, m.y - k.y, j.x - k.x, j.y - k.y, c.x - k.x, c.y - k.y;
    assert Cross(j, k, m) == wy * ux - wx * uy;
    assert Cross(j, k, c) == wy * sx - wx * sy;
    assert Cross(k, m, c) == ux * sy - uy * sx;
  }

  function Pred(k: nat, n: nat): (r: nat)
    requires k < n
    ensures r < n && Succ(r, n) == k
  {
    if k == 0 then n - 1 else k - 1
  }

  lemma {:induction false} LowestVertex(polygon: seq<Point>) returns (k: nat)
    requires polygon != []
    ensures k < |polygon| && forall m :: 0 <= m < |polygon| ==> polygon[k].y <= polygon[m].y
  {
    k := 0;
    if |polygon| > 1 {
      var rest := polygon[..|polygon| - 1];
      k := LowestVertex(rest);
      assert forall m :: 0 <= m < |rest| ==> polygon[m] == rest[m];
      if polygon[|rest|].y < polygon[k].y {
        k := |rest|;
      }
    }
  }

  lemma {:induction false} HighestVertex(polygon: seq<Point>) returns (k: nat)
    requires polygon != []
    ensures k < |polygon| && forall m :: 0 <= m < |polygon| ==> polygon[m].y <= polygon[k].y
  {
    k := 0;
    if |polygon| > 1 {
      var rest := polygon[..|polygon| - 1];
      k := HighestVertex(rest);
      assert forall m :: 0 <= m < |rest| ==> polygon[m] == rest[m];
      if polygon[|rest|].y > polygon[k].y {
        k := |rest|;
      }
    }
  }

  ghost predicate LeftOfAll(polygon: seq<Point>, c: Point) {
    forall i :: 0 <= i < |polygon| ==> Side(polygon, i, c) > 0.0
  }

  /** Some vertex is not above a point to the left of all edges. */
  lemma VertexBelow(polygon: seq<Point>, c: Point) returns (k: nat)
    requires StrictlyConvex(polygon) && LeftOfAll(polygon, c)
    ensures k < |polygon| && polygon[k].y <= c.y
  {
    var n := |polygon|;
    k := LowestVertex(polygon);
    var j, m := Pred(k, n), Succ(k, n);
    assert LeftOf(polygon, j, m) && Side(polygon, j, c) > 0.0 && Side(polygon, k, c) > 0.0;
    var p, q, r := polygon[j], polygon[k], polygon[m];
    HeightAtVertex(p, q, r, c);
    assert Cross(p, q, r) > 0.0 && Cross(p, q, c) > 0.0 && Cross(q, r, c) > 0.0;
    hide Cross;
    Weighted(Cross(p, q, r), c.y - q.y, Cross(p, q, c), r.y - q.y, Cross(q, r, c), p.y - q.y);
  }

  /** And some vertex is above it. */
  lemma VertexAbove(polygon: seq<Point>, c: Point) returns (k: nat)
    requires StrictlyConvex(polygon) && LeftOfAll(polygon, c)
    ensures k < |polygon| && c.y < polygon[k].y
  {
    var n := |polygon|;
    k := HighestVertex(polygon);
    var j, m := Pred(k, n), Succ(k, n);
    assert LeftOf(polygon, j, m) && Side(polygon, j, c) > 0.0 && Side(polygon, k, c) > 0.0;
    var p, q, r := polygon[j], polygon[k], polygon[m];
    HeightAtVertex(p, q, r, c);
    assert Cross(p, q, r) > 0.0 && Cross(p, q, c) > 0.0 && Cross(q, r, c) > 0.0;
    if p.y == q.y == r.y {
      LevelHasNoArea(p, q, r);
    }
    hide Cross;
    if c.y >= q.y {
      NotNegative(Cross(p, q, r), c.y - q.y);
      NotNegative(Cross(p, q, c), q.y - r.y);
      NotNegative(Cross(q, r, c), q.y - p.y);
      if r.y < q.y {
        Positive(Cross(p, q, c), q.y - r.y);
      } else if p.y < q.y {
        Positive(Cross(q, r, c), q.y - p.y);
      }
    }
  }

  lemma LevelHasNoArea(p: Point, q: Point, r: Point)
    requires p.y == q.y == r.y
    ensures Cross(p, q, r) == 0.0
  {
  }

  lemma LeftOfAllIsInside(polygon: seq<Point>, c: Point)
    requires StrictlyConvex(polygon) && LeftOfAll(polygon, c)
    ensures Inside(polygon, c)
  {
    var a := VertexBelow(polygon, c);
    var b := VertexAbove(polygon, c);
    var u, d := PassesBoth(polygon, a, b, c.y);
    InsideIffBetween(polygon, u, d, c);
    SideIsDistance(polygon, u, c);
    SideIsDistance(polygon, d, c);
    assert Side(polygon, u, c) > 0.0 && Side(polygon, d, c) > 0.0;
    hide Side, Inside;
  }

  /** For a strictly convex polygon and a point on none of the lines through its edges: inside means to the left of every
      edge. */
  lemma InsideIffLeftOfAll(polygon: seq<Point>, c: Point)
    requires StrictlyConvex(polygon) && forall i :: 0 <= i < |polygon| ==> Side(polygon, i, c) != 0.0
    ensures Inside(polygon, c) <==> LeftOfAll(polygon, c)
  {
    hide Side, Inside, StrictlyConvex;
    if LeftOfAll(polygon, c) {
      LeftOfAllIsInside(polygon, c);
    } else {
      var i: nat :| i < |polygon| && Side(polygon, i, c) <= 0.0;
      RightOfEdgeIsOutside(polygon, i, c);
    }
  }

  // ----- cutting a polygon in two

  /** The two parts of a polygon cut along the line between the vertices i and j. */
  function Middle(polygon: seq<Point>, i: nat, j: nat): seq<Point>
    requires i < j < |polygon|
  {
    polygon[i..j + 1]
  }

  function Rest(polygon: seq<Point>, i: nat, j: nat): seq<Point>
    requires i < j < |polygon|
  {
    polygon[..i + 1] + polygon[j..]
  }

  lemma FlagsOfMiddle(polygon: seq<Point>, i: nat, j: nat, c: Point)
    requires i < j < |polygon|
    ensures Flags(Middle(polygon, i, j), c) == Flags(polygon, c)[i..j] + [Crosses(polygon[j], polygon[i], c)]
  {
    hide Crosses;
    var part := Middle(polygon, i, j);
    forall k | 0 <= k < |part|
      ensures CrossesEdge(part, k, c) == (Flags(polygon, c)[i..j] + [Crosses(polygon[j], polygon[i], c)])[k]
    {
      if k < j - i {
        assert Edge(part, k) == Edge(polygon, i + k);
      } else {
        assert Edge(part, k) == (polygon[j], polygon[i]);
      }
    }
  }

  lemma FlagsOfRest(polygon: seq<Point>, i: nat, j: nat, c: Point)
    requires i < j < |polygon|
    ensures Flags(Rest(polygon, i, j), c)
         == Flags(polygon, c)[..i] + [Crosses(polygon[i], polygon[j], c)] + Flags(polygon, c)[j..]
  {
    hide Crosses;
    var part, f := Rest(polygon, i, j), Flags(polygon, c);
    var g := f[..i] + [Crosses(polygon[i], polygon[j], c)] + f[j..];
    forall k | 0 <= k < |part|
      ensures CrossesEdge(part, k, c) == g[k]
    {
      if k < i {
        assert Edge(part, k) == Edge(polygon, k);
      } else if k == i {
        assert Edge(part, k) == (polygon[i], polygon[j]);
      } else {
        assert Edge(part, k) == Edge(polygon, k - i - 1 + j);
      }
    }
  }

  /** For any polygon, crossing itself or not: a point is inside when it is inside exactly one of the two parts. */
  lemma InsideOfParts(polygon: seq<Point>, i: nat, j: nat, c: Point)
    requires i < j < |polygon|
    ensures Inside(polygon, c) <==> (Inside(Middle(polygon, i, j), c) != Inside(Rest(polygon, i, j), c))
  {
    hide Crosses, Middle, Rest;
    var f, e := Flags(polygon, c), Crosses(polygon[i], polygon[j], c);
    FlagsOfMiddle(polygon, i, j, c);
    FlagsOfRest(polygon, i, j, c);
    CrossesSymmetric(polygon[i], polygon[j], c);
    hide Flags, Xor;
    assert f == f[..i] + f[i..j] + f[j..];
    XorOfConcat(f[..i] + f[i..j], f[j..]);
    XorOfConcat(f[..i], f[i..j]);
    XorOfConcat(f[i..j], [e]);
    XorOfConcat(f[..i] + [e], f[j..]);
    XorOfConcat(f[..i], [e]);
  }

  // ----- outside the bounding box

  lemma QuotientInUnit(n: real, d: real)
    requires d != 0.0 && ((0.0 <= n <= d) || (d <= n <= 0.0))
    ensures 0.0 <= n / d <= 1.0
  {
    var t := n / d;
    assert t * d == n;
    if d > 0.0 {
      RatioInUnit(t, n, d);
    } else {
      RatioInUnit(t, -n, -d);
    }
  }

  lemma RatioInUnit(t: real, n: real, d: real)
    requires d > 0.0 && 0.0 <= n <= d && n == t * d
    ensures 0.0 <= t <= 1.0
  {
    if t < 0.0 {
      var _ := NegativeProduct(t, d);
    } else if t > 1.0 {
      var _ := ExcessProduct(t, d);
    }
  }

  lemma NegativeProduct(t: real, d: real) returns (r: real)
    requires t < 0.0 && d > 0.0
    ensures r == t * d && r < 0.0
  {
    r := t * d;
    var s := PositiveProduct(-t, d);
    assert s == -r;
  }

  lemma ExcessProduct(t: real, d: real) returns (r: real)
    requires t > 1.0 && d > 0.0
    ensures r == t * d && r > d
  {
    r := t * d;
    var s := PositiveProduct(t - 1.0, d);
    assert s == r - d;
  }

  /** The crossing lies at some fraction of the edge. */
  lemma CrossingFraction(p: Point, q: Point, y: real) returns (t: real)
    requires p.y != q.y && Min(p.y, q.y) <= y <= Max(p.y, q.y)
    ensures 0.0 <= t <= 1.0 && CrossingX(p, q, y) == p.x + t * (q.x - p.x)
  {
    t := (y - p.y) / (q.y - p.y);
    QuotientOfProduct(y - p.y, q.x - p.x, q.y - p.y);
    QuotientInUnit(y - p.y, q.y - p.y);
  }

  lemma CrossingIsBetween(p: Point, q: Point, y: real)
    requires p.y != q.y && Min(p.y, q.y) <= y <= Max(p.y, q.y)
    ensures Min(p.x, q.x) <= CrossingX(p, q, y) <= Max(p.x, q.x)
  {
    hide CrossingX;
    var t := CrossingFraction(p, q, y);
    Between(p.x, q.x, t);
  }

  predicate Below(p: Point, c: Point) {
    p.y <= c.y
  }

  /** Left of both ends, an edge is crossed exactly when its ends lie on different sides of the ray's line. */
  lemma CrossesLeft(p: Point, q: Point, c: Point)
    requires c.x < p.x && c.x < q.x
    ensures Crosses(p, q, c) <==> Below(p, c) != Below(q, c)
  {
    hide CrossingX;
    if p.y != q.y && Min(p.y, q.y) <= c.y < Max(p.y, q.y) {
      CrossingIsBetween(p, q, c.y);
    }
  }

  lemma CrossesNotRight(p: Point, q: Point, c: Point)
    requires c.x >= p.x && c.x >= q.x
    ensures !Crosses(p, q, c)
  {
    hide CrossingX;
    if p.y != q.y && Min(p.y, q.y) <= c.y < Max(p.y, q.y) {
      CrossingIsBetween(p, q, c.y);
    }
  }

  /** Side changes along a closed polygon cancel. */
  lemma {:induction false} ChangesTelescope(polygon: seq<Point>, c: Point, k: nat)
    requires k < |polygon| && forall i :: 0 <= i < |polygon| ==> c.x < polygon[i].x
    ensures Xor(Flags(polygon, c)[..k]) == (Below(polygon[0], c) != Below(polygon[k], c))
  {
    hide Crosses, Below;
    if k > 0 {
      ChangesTelescope(polygon, c, k - 1);
      var f := Flags(polygon, c);
      assert f[..k][..k - 1] == f[..k - 1];
      assert f[k - 1] == Crosses(polygon[k - 1], polygon[k], c);
      CrossesLeft(polygon[k - 1], polygon[k], c);
    }
  }

  lemma {:induction false} NoneSet(flags: seq<bool>)
    requires forall i :: 0 <= i < |flags| ==> !flags[i]
    ensures !Xor(flags)
  {
    if flags != [] {
      NoneSet(flags[..|flags| - 1]);
    }
  }

  /** Every vertex lies on the same outer side of the point. */
  predicate Beyond(polygon: seq<Point>, c: Point) {
    || (forall i :: 0 <= i < |polygon| ==> c.x < polygon[i].x)
    || (forall i :: 0 <= i < |polygon| ==> c.x >= polygon[i].x)
    || (forall i :: 0 <= i < |polygon| ==> c.y < polygon[i].y)
    || (forall i :: 0 <= i < |polygon| ==> c.y >= polygon[i].y)
  }

  /** No point outside the bounding box is inside: a closed polygon crosses a line an even number of times. */
  lemma OutsideBoxIsOutside(polygon: seq<Point>, c: Point)
    requires Beyond(polygon, c)
    ensures !Inside(polygon, c)
  {
    var n, f := |polygon|, Flags(polygon, c);
    if n > 0 {
      if forall i :: 0 <= i < n ==> c.x < polygon[i].x {
        hide Crosses;
        ChangesTelescope(polygon, c, n - 1);
        assert f[..n][..n - 1] == f[..n - 1] && f[..n] == f;
        assert f[n - 1] == Crosses(polygon[n - 1], polygon[0], c);
        CrossesLeft(polygon[n - 1], polygon[0], c);
      } else {
        forall k | 0 <= k < n
          ensures !f[k]
        {
          EdgeBeyond(polygon[k], polygon[Succ(k, n)], c);
        }
        NoneSet(f);
      }
    }
  }

  lemma EdgeBeyond(p: Point, q: Point, c: Point)
    requires (c.x >= p.x && c.x >= q.x) || (c.y < p.y && c.y < q.y) || (c.y >= p.y && c.y >= q.y)
    ensures !Crosses(p, q, c)
  {
    hide CrossingX;
    if c.x >= p.x && c.x >= q.x {
      CrossesNotRight(p, q, c);
    }
  }

  // ----- the mask

  datatype Kind = KeepoutArea | AllowedArea

  datatype Area = Area(kind: Kind, polygon: seq<Point>)

  datatype Geometry = Geometry(resolution: real, originX: real, originY: real, width: nat, height: nat)

  const OCCUPIED := 100
  const FREE := 0
  const UNKNOWN := -1

  function Centre(g: Geometry, j: int, i: int): Point {
    Point(g.originX + (2 * i + 1) as real * g.resolution / 2.0, g.originY + (2 * j + 1) as real * g.resolution / 2.0)
  }

  lemma CentreIsMiddle(g: Geometry, j: int, i: int)
    ensures IsMiddle(Centre(g, j, i), Point(g.originX, g.originY), g.resolution, i, j)
  {
  }

  predicate In(areas: seq<Area>, kind: Kind, c: Point) {
    exists a :: 0 <= a < |areas| && areas[a].kind == kind && Inside(areas[a].polygon, c)
  }

  /** Keepout wins over allowed; a cell in neither is unknown. */
  function MaskValue(areas: seq<Area>, c: Point): int {
    if In(areas, KeepoutArea, c) then OCCUPIED else if In(areas, AllowedArea, c) then FREE else UNKNOWN
  }

  /** What a cell value says about the areas around its centre. */
  lemma MaskValueMeans(areas: seq<Area>, c: Point)
    ensures MaskValue(areas, c) == 100 <==> exists a :: 0 <= a < |areas| && areas[a].kind == KeepoutArea && Inside(areas[a].polygon, c)
    ensures MaskValue(areas, c) == 0
            <==> (forall a :: 0 <= a < |areas| && areas[a].kind == KeepoutArea ==> !Inside(areas[a].polygon, c))
                 && exists a :: 0 <= a < |areas| && areas[a].kind == AllowedArea && Inside(areas[a].polygon, c)
    ensures MaskValue(areas, c) == -1 <==> forall a :: 0 <= a < |areas| ==> !Inside(areas[a].polygon, c)
  {
    hide Inside;
  }

  method Rasterize(areas: seq<Area>, g: Geometry) returns (grid: array2<int>)
    ensures fresh(grid) && grid.Length0 == g.height && grid.Length1 == g.width
    ensures forall j, i :: 0 <= j < g.height && 0 <= i < g.width ==> grid[j, i] == MaskValue(areas, Centre(g, j, i))
  {
    hide Inside, Centre;
    grid := new int[g.height, g.width]((j, i) => UNKNOWN);
    FillKind(grid, g, areas, AllowedArea, FREE);
    FillKind(grid, g, areas, KeepoutArea, OCCUPIED);
  }

  method FillKind(grid: array2<int>, g: Geometry, areas: seq<Area>, kind: Kind, value: int)
    requires grid.Length0 == g.height && grid.Length1 == g.width
    modifies grid
    ensures forall j, i :: 0 <= j < g.height && 0 <= i < g.width ==>
      grid[j, i] == if In(areas, kind, Centre(g, j, i)) then value else old(grid[j, i])
  {
    hide Inside, Centre;
    var a := 0;
    while a < |areas|
      invariant 0 <= a <= |areas|
      invariant forall j, i :: 0 <= j < g.height && 0 <= i < g.width ==>
        grid[j, i] == if In(areas[..a], kind, Centre(g, j, i)) then value else old(grid[j, i])
    {
      forall c: Point
        ensures In(areas[..a + 1], kind, c) <==> In(areas[..a], kind, c) || (areas[a].kind == kind && Inside(areas[a].polygon, c))
      {
        InOneMore(areas, a, kind, c);
      }
      if areas[a].kind == kind {
        forall j, i | 0 <= j < g.height && 0 <= i < g.width && Inside(areas[a].polygon, Centre(g, j, i)) {
          grid[j, i] := value;
        }
      }
      a := a + 1;
    }
    assert areas[..a] == areas;
  }

  lemma InOneMore(areas: seq<Area>, a: nat, kind: Kind, c: Point)
    requires a < |areas|
    ensures In(areas[..a + 1], kind, c) <==> In(areas[..a], kind, c) || (areas[a].kind == kind && Inside(areas[a].polygon, c))
  {
    hide Inside;
    if In(areas[..a], kind, c) {
      var b :| 0 <= b < a && areas[..a][b].kind == kind && Inside(areas[..a][b].polygon, c);
      assert areas[..a + 1][b] == areas[b];
    }
    if areas[a].kind == kind && Inside(areas[a].polygon, c) {
      assert areas[..a + 1][a] == areas[a];
    }
  }

  /** The pixel written for a cell value. */
  function Pixel(value: int): int {
    if value == OCCUPIED then 0 else if value == FREE then 254 else 205
  }

  /** How dark a pixel is, from 0 for white to 1 for black. */
  function Darkness(pixel: int): real {
    (255 - pixel) as real / 255.0
  }

  /** The cell value map_server publishes for a pixel of a trinary map (negate 0, thresholds 0.65 and 0.196). */
  function Published(pixel: int): int {
    if Darkness(pixel) < 0.196 then FREE else if Darkness(pixel) > 0.65 then OCCUPIED else UNKNOWN
  }

  lemma PublishedPixel(value: int)
    requires value == OCCUPIED || value == FREE || value == UNKNOWN
    ensures Published(Pixel(value)) == value
    ensures Pixel(100) == 0 && Pixel(0) == 254 && Pixel(-1) == 205
  {
    assert Darkness(205) == 50.0 / 255.0 && 50.0 / 255.0 >= 0.196;
  }

  /** The cells in the order of the pixels: unknown, then occupied where dark, then free where light. */
  method Classify(pixels: array2<int>) returns (out: array2<int>)
    ensures fresh(out) && out.Length0 == pixels.Length0 && out.Length1 == pixels.Length1
    ensures forall j, i :: 0 <= j < out.Length0 && 0 <= i < out.Length1 ==> out[j, i] == Published(pixels[j, i])
  {
    hide Darkness;
    out := new int[pixels.Length0, pixels.Length1]((j, i) => UNKNOWN);
    forall j, i | 0 <= j < out.Length0 && 0 <= i < out.Length1 && Darkness(pixels[j, i]) > 0.65 {
      out[j, i] := OCCUPIED;
    }
    forall j, i | 0 <= j < out.Length0 && 0 <= i < out.Length1 && Darkness(pixels[j, i]) < 0.196 {
      out[j, i] := FREE;
    }
  }

  /** map_server_values: the pixels, top row first, as published cells, smallest y first. */
  method MapServerValues(pixels: array2<int>) returns (values: array2<int>)
    ensures fresh(values) && values.Length0 == pixels.Length0 && values.Length1 == pixels.Length1
    ensures forall j, i :: 0 <= j < values.Length0 && 0 <= i < values.Length1 ==>
      values[j, i] == Published(pixels[pixels.Length0 - 1 - j, i])
  {
    hide Published;
    var out := Classify(pixels);
    values := new int[out.Length0, out.Length1];
    forall j, i | 0 <= j < out.Length0 && 0 <= i < out.Length1 {
      values[j, i] := out[out.Length0 - 1 - j, i];
    }
  }

  /** write(): the image, and the values read back from it, of which the hash is recorded: they are the grid. */
  method Write(grid: array2<int>) returns (image: array2<int>, values: array2<int>)
    requires forall j, i :: 0 <= j < grid.Length0 && 0 <= i < grid.Length1 ==>
      grid[j, i] == OCCUPIED || grid[j, i] == FREE || grid[j, i] == UNKNOWN
    ensures image.Length0 == grid.Length0 && image.Length1 == grid.Length1
    ensures forall j, i :: 0 <= j < grid.Length0 && 0 <= i < grid.Length1 ==>
      image[j, i] == Pixel(grid[grid.Length0 - 1 - j, i])
    ensures values.Length0 == grid.Length0 && values.Length1 == grid.Length1
    ensures forall j, i :: 0 <= j < grid.Length0 && 0 <= i < grid.Length1 ==> values[j, i] == grid[j, i]
  {
    hide Pixel, Published;
    var h := grid.Length0;
    image := new int[h, grid.Length1];
    forall j, i | 0 <= j < h && 0 <= i < grid.Length1 {
      image[j, i] := Pixel(grid[h - 1 - j, i]);
    }
    values := MapServerValues(image);
    forall j, i | 0 <= j < h && 0 <= i < grid.Length1
      ensures values[j, i] == grid[j, i]
    {
      PublishedPixel(grid[j, i]);
    }
  }
}
