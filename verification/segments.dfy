/** Distance from a point to a segment, as the corridor and the speed mask compute it: the projection clipped to the
    segment, and squared distances. */
module Segments {

  datatype Point = Point(x: real, y: real)

  function Clip(v: real): real {
    if v < 0.0 then 0.0 else if v > 1.0 then 1.0 else v
  }

  /** The scalar product of (x, y) and (u, v). */
  function Scalar(x: real, y: real, u: real, v: real): real {
    x * u + y * v
  }

  function Dist2(p: Point, q: Point): real {
    Scalar(p.x - q.x, p.y - q.y, p.x - q.x, p.y - q.y)
  }

  /** The point at fraction t of the way from a to b. */
  function Along(a: Point, b: Point, t: real): Point {
    Point(a.x + t * (b.x - a.x), a.y + t * (b.y - a.y))
  }

  /** (c - a) . (b - a) */
  function Dot(a: Point, b: Point, c: Point): real {
    Scalar(c.x - a.x, c.y - a.y, b.x - a.x, b.y - a.y)
  }

  /** The fraction whose point is compared: 0 for a segment without length. */
  function Fraction(a: Point, b: Point, c: Point): real {
    if Dist2(a, b) == 0.0 then 0.0 else Clip(Dot(a, b, c) / Dist2(a, b))
  }

  /** The test of one cell centre. */
  predicate Near(a: Point, b: Point, c: Point, half: real) {
    Dist2(c, Along(a, b, Fraction(a, b, c))) <= half * half
  }

  lemma Square(v: real)
    ensures v * v >= 0.0
  {
  }

  lemma Product(a: real, b: real)
    requires (a >= 0.0 && b >= 0.0) || (a <= 0.0 && b <= 0.0)
    ensures a * b >= 0.0
  {
  }

  /** One coordinate of the squared distance as a polynomial in t. */
  lemma Expand(w: real, d: real, t: real)
    ensures (w - t * d) * (w - t * d) == w * w - 2.0 * (t * (w * d)) + t * t * (d * d)
  {
  }

  lemma Distribute(k: real, x: real, y: real)
    ensures k * (x + y) == k * x + k * y
  {
  }

  /** The squared distance to the point at fraction t, with w2, k and l the three scalar products. */
  function Parabola(t: real, w2: real, k: real, l: real): real {
    w2 - 2.0 * (t * k) + t * t * l
  }

  lemma ExpandBoth(ex: real, ey: real, wx: real, wy: real, dx: real, dy: real, t: real)
    requires ex == wx - t * dx && ey == wy - t * dy
    ensures Scalar(ex, ey, ex, ey) == Parabola(t, Scalar(wx, wy, wx, wy), Scalar(wx, wy, dx, dy), Scalar(dx, dy, dx, dy))
  {
    Expand(wx, dx, t);
    Expand(wy, dy, t);
    Distribute(t, wx * dx, wy * dy);
    Distribute(t * t, dx * dx, dy * dy);
  }

  lemma Opposite(v: real)
    ensures (-v) * (-v) == v * v
  {
  }

  lemma Dist2Symmetric(a: Point, b: Point)
    ensures Dist2(a, b) == Dist2(b, a)
  {
    Opposite(a.x - b.x);
    Opposite(a.y - b.y);
  }

  lemma Dist2Along(a: Point, b: Point, c: Point, t: real)
    ensures Dist2(c, Along(a, b, t)) == Parabola(t, Dist2(c, a), Dot(a, b, c), Dist2(a, b))
  {
    hide Scalar, Parabola;
    var p := Along(a, b, t);
    Dist2Symmetric(a, b);
    assert c.x - p.x == (c.x - a.x) - t * (b.x - a.x);
    assert c.y - p.y == (c.y - a.y) - t * (b.y - a.y);
    hide Along;
    ExpandBoth(c.x - p.x, c.y - p.y, c.x - a.x, c.y - a.y, b.x - a.x, b.y - a.y, t);
  }

  /** A parabola t*t*l - 2*t*k with l > 0 is least on [0, 1] at the clipped vertex. */
  lemma ClippedVertex(w2: real, l: real, k: real, t: real)
    requires l > 0.0 && 0.0 <= t <= 1.0
    ensures Parabola(t, w2, k, l) >= Parabola(Clip(k / l), w2, k, l)
  {
    hide Parabola;
    var s := k / l;
    assert s * l == k;
    if s < 0.0 {
      VertexBefore(w2, l, k, t, s);
    } else if s > 1.0 {
      VertexBehind(w2, l, k, t, s);
    } else {
      VertexBetween(w2, l, k, t, s);
    }
  }

  lemma VertexBefore(w2: real, l: real, k: real, t: real, s: real)
    requires l > 0.0 && 0.0 <= t <= 1.0 && s * l == k && s < 0.0
    ensures Parabola(t, w2, k, l) >= Parabola(0.0, w2, k, l)
  {
    var minusK := PositiveProduct(-s, l);
    assert minusK == -k;
    var tl := ProductValue(t, l);
    var rise := ProductValue(t, tl - 2.0 * k);
    RiseFromZero(t, l, k, tl, rise);
    assert Parabola(t, w2, k, l) == w2 + rise;
    assert Parabola(0.0, w2, k, l) == w2;
  }

  lemma RiseFromZero(t: real, l: real, k: real, tl: real, rise: real)
    requires tl == t * l && rise == t * (tl - 2.0 * k)
    ensures rise == t * t * l - 2.0 * (t * k)
  {
    Distribute(t, tl, -2.0 * k);
    assert t * tl == t * t * l;
  }

  lemma ProductValue(a: real, b: real) returns (r: real)
    requires a >= 0.0 && b >= 0.0
    ensures r == a * b && r >= 0.0
  {
    r := a * b;
  }

  /** Seen from the other end, with t' = 1 - t and k' = l - k. */
  lemma VertexBehind(w2: real, l: real, k: real, t: real, s: real)
    requires l > 0.0 && 0.0 <= t <= 1.0 && s * l == k && s > 1.0
    ensures Parabola(t, w2, k, l) >= Parabola(1.0, w2, k, l)
  {
    assert (1.0 - s) * l == l - k;
    VertexBefore(w2, l, l - k, 1.0 - t, 1.0 - s);
    FromOtherEnd(w2, l, k, t);
    FromOtherEnd(w2, l, k, 1.0);
  }

  lemma FromOtherEnd(w2: real, l: real, k: real, t: real)
    ensures Parabola(1.0 - t, w2, l - k, l) == Parabola(t, w2, k, l) + (2.0 * k - l)
  {
    assert (1.0 - t) * (l - k) == l - k - t * l + t * k;
    assert (1.0 - t) * (1.0 - t) * l == l - 2.0 * (t * l) + t * t * l;
  }

  lemma VertexBetween(w2: real, l: real, k: real, t: real, s: real)
    requires l > 0.0 && s * l == k
    ensures Parabola(t, w2, k, l) >= Parabola(s, w2, k, l)
  {
    var square := SquareValue(t - s);
    var rise := ProductValue(square, l);
    VertexSquare(l, k, t, s);
    assert rise == (t - s) * (t - s) * l;
  }

  lemma VertexSquare(l: real, k: real, t: real, s: real)
    requires s * l == k
    ensures (t - s) * (t - s) * l == (t * t * l - 2.0 * (t * k)) - (s * s * l - 2.0 * (s * k))
  {
    assert t * k == t * s * l;
    assert s * k == s * s * l;
  }

  lemma PositiveProduct(a: real, b: real) returns (r: real)
    requires a > 0.0 && b > 0.0
    ensures r == a * b && r > 0.0
  {
    r := a * b;
  }

  lemma PositiveSquare(v: real) returns (s: real)
    requires v != 0.0
    ensures s == v * v && s > 0.0
  {
    if v > 0.0 {
      s := PositiveProduct(v, v);
    } else {
      s := PositiveProduct(-v, -v);
      Opposite(v);
    }
  }

  lemma Dist2Zero(a: Point, b: Point)
    ensures Dist2(a, b) >= 0.0 && (Dist2(a, b) == 0.0 <==> a == b)
  {
    hide Scalar;
    SumOfSquares(a.x - b.x, a.y - b.y);
  }

  lemma SumOfSquares(x: real, y: real)
    ensures Scalar(x, y, x, y) >= 0.0
    ensures x != 0.0 || y != 0.0 ==> Scalar(x, y, x, y) > 0.0
    ensures x == 0.0 && y == 0.0 ==> Scalar(x, y, x, y) == 0.0
  {
    hide Scalar;
    ScalarSwap(x, y);
    if x != 0.0 {
      FirstPositive(x, y);
    } else if y != 0.0 {
      FirstPositive(y, x);
    } else {
      ScalarZero();
    }
  }

  lemma ScalarSwap(x: real, y: real)
    ensures Scalar(x, y, x, y) == Scalar(y, x, y, x)
  {
  }

  lemma FirstPositive(x: real, y: real)
    requires x != 0.0
    ensures Scalar(x, y, x, y) > 0.0
  {
    var p := PositiveSquare(x);
    var q := SquareValue(y);
    assert Scalar(x, y, x, y) == p + q;
  }

  lemma SquareValue(v: real) returns (s: real)
    ensures s == v * v && s >= 0.0
  {
    s := v * v;
    Square(v);
  }

  lemma ScalarZero()
    ensures Scalar(0.0, 0.0, 0.0, 0.0) == 0.0
  {
  }

  /** The clipped projection is the closest point of the segment. */
  lemma ClosestPoint(a: Point, b: Point, c: Point, t: real)
    requires 0.0 <= t <= 1.0
    ensures Dist2(c, Along(a, b, t)) >= Dist2(c, Along(a, b, Fraction(a, b, c)))
  {
    hide Dist2, Dot, Along, Clip, Parabola;
    var u := Fraction(a, b, c);
    Dist2Zero(a, b);
    Dist2Along(a, b, c, t);
    Dist2Along(a, b, c, u);
    if a == b {
      AlongPoint(a, t);
      AlongPoint(a, u);
    } else {
      ClippedVertex(Dist2(c, a), Dist2(a, b), Dot(a, b, c), t);
    }
  }

  lemma AlongPoint(a: Point, t: real)
    ensures Along(a, a, t) == a
  {
  }

  /** The test accepts exactly the points within half of some point of the segment. */
  lemma NearIff(a: Point, b: Point, c: Point, half: real)
    ensures Near(a, b, c, half) <==> exists t: real :: 0.0 <= t <= 1.0 && Dist2(c, Along(a, b, t)) <= half * half
  {
    var u := Fraction(a, b, c);
    assert 0.0 <= u <= 1.0;
    hide Fraction, Dist2, Along;
    if t: real :| 0.0 <= t <= 1.0 && Dist2(c, Along(a, b, t)) <= half * half {
      ClosestPoint(a, b, c, t);
    }
  }

  function Min(a: real, b: real): real {
    if a <= b then a else b
  }

  function Max(a: real, b: real): real {
    if a >= b then a else b
  }

  lemma Between(p: real, q: real, t: real)
    requires 0.0 <= t <= 1.0
    ensures Min(p, q) <= p + t * (q - p) <= Max(p, q)
  {
    if q >= p {
      Product(t, q - p);
      Product(1.0 - t, q - p);
      assert (1.0 - t) * (q - p) == (q - p) - t * (q - p);
    } else {
      Product(t, p - q);
      Product(1.0 - t, p - q);
      assert (1.0 - t) * (p - q) == (p - q) - t * (p - q);
      assert t * (q - p) == -(t * (p - q));
    }
  }

  lemma SquareGrows(v: real, half: real)
    requires half > 0.0 && v > half
    ensures v * v > half * half
  {
    Positive(v - half, v + half);
    assert (v - half) * (v + half) == v * v - half * half;
  }

  lemma RootBound(v: real, rest: real, half: real)
    requires half > 0.0 && rest >= 0.0 && v * v + rest <= half * half
    ensures -half <= v <= half
  {
    if v > half {
      SquareGrows(v, half);
    }
    if v < -half {
      SquareGrows(-v, half);
      Opposite(v);
    }
  }

  lemma CloseInBothAxes(c: Point, p: Point, half: real)
    requires half > 0.0 && Dist2(c, p) <= half * half
    ensures -half <= c.x - p.x <= half && -half <= c.y - p.y <= half
  {
    Square(c.x - p.x);
    Square(c.y - p.y);
    RootBound(c.x - p.x, (c.y - p.y) * (c.y - p.y), half);
    RootBound(c.y - p.y, (c.x - p.x) * (c.x - p.x), half);
  }

  /** c is in the middle of the cell in column i and row j of a grid with its corner at lo: as far from the lower edges as
      from the upper ones. */
  predicate IsMiddle(c: Point, lo: Point, res: real, i: int, j: int) {
    && c.x - (lo.x + i as real * res) == lo.x + (i + 1) as real * res - c.x
    && c.y - (lo.y + j as real * res) == lo.y + (j + 1) as real * res - c.y
  }

  lemma Positive(a: real, b: real)
    requires a > 0.0 && b > 0.0
    ensures a * b > 0.0
  {
  }

  /** A point near the segment lies in the segment's box grown by half. */
  lemma NearIsInBox(a: Point, b: Point, c: Point, half: real)
    requires half > 0.0 && Near(a, b, c, half)
    ensures Min(a.x, b.x) - half <= c.x <= Max(a.x, b.x) + half
    ensures Min(a.y, b.y) - half <= c.y <= Max(a.y, b.y) + half
  {
    hide Dist2, Dot;
    var u := Fraction(a, b, c);
    assert 0.0 <= u <= 1.0;
    var p := Along(a, b, u);
    Between(a.x, b.x, u);
    Between(a.y, b.y, u);
    CloseInBothAxes(c, p, half);
  }

  /** A single point: the disc. */
  lemma NearPoint(a: Point, c: Point, half: real)
    ensures Near(a, a, c, half) <==> Dist2(c, a) <= half * half
  {
    assert Dist2(a, a) == 0.0;
  }

  /** Both ends of a segment belong to it. */
  lemma NearEnds(a: Point, b: Point, c: Point, half: real)
    requires Dist2(c, a) <= half * half || Dist2(c, b) <= half * half
    ensures Near(a, b, c, half)
  {
    assert Along(a, b, 0.0) == a && Along(a, b, 1.0) == b;
    ClosestPoint(a, b, c, 0.0);
    ClosestPoint(a, b, c, 1.0);
    hide Fraction, Dist2, Along;
  }
}
