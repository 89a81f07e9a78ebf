/** From the arbitrated vector to millivolts and DAC codes.  map_voltage leaves the rounded target inside the circle
    between dac_min and dac_max by an integer correction loop; dac_code scales millivolts to twelve bits. */
module Voltage {
  import opened Rounding
  import Segments

  function Abs(a: int): nat {
    if a < 0 then -a else a
  }

  /** Twice the offset from the circle's centre: an integer even when the centre is not. */
  function Off(v: int, lo: int, hi: int): int {
    2 * v - (lo + hi)
  }

  predicate InsideCircle(x: int, y: int, lo: int, hi: int) {
    Off(x, lo, hi) * Off(x, lo, hi) + Off(y, lo, hi) * Off(y, lo, hi) <= (hi - lo) * (hi - lo)
  }

  /** One correction: the farther axis moves one millivolt toward the centre. */
  function PullX(x: int, y: int, lo: int, hi: int): int {
    var dx, dy := Off(x, lo, hi), Off(y, lo, hi);
    if Abs(dx) >= Abs(dy) then (if dx > 0 then x - 1 else x + 1) else x
  }

  function PullY(x: int, y: int, lo: int, hi: int): int {
    var dx, dy := Off(x, lo, hi), Off(y, lo, hi);
    if Abs(dx) >= Abs(dy) then y else (if dy > 0 then y - 1 else y + 1)
  }

  function Measure(x: int, y: int, lo: int, hi: int): nat {
    Abs(Off(x, lo, hi)) + Abs(Off(y, lo, hi))
  }

  lemma FarAxisIsLarge(a: int, b: int, d: int)
    requires d >= 2 && a * a + b * b > d * d && Abs(a) >= Abs(b)
    ensures Abs(a) >= 2
  {
    assert Abs(a) <= 1 ==> a * a <= 1 && b * b <= 1;
    assert d * d >= 4;
  }

  /** Outside a circle at least two wide, a correction moves toward the centre: the measure falls by exactly two, no axis
      grows, and none crosses the centre. */
  lemma PullApproaches(x: int, y: int, lo: int, hi: int)
    requires hi - lo >= 2 && !InsideCircle(x, y, lo, hi)
    ensures var x', y' := PullX(x, y, lo, hi), PullY(x, y, lo, hi);
      && Measure(x', y', lo, hi) == Measure(x, y, lo, hi) - 2
      && Abs(Off(x', lo, hi)) <= Abs(Off(x, lo, hi)) && Abs(Off(y', lo, hi)) <= Abs(Off(y, lo, hi))
      && Off(x', lo, hi) * Off(x, lo, hi) >= 0 && Off(y', lo, hi) * Off(y, lo, hi) >= 0
  {
    var dx, dy, d := Off(x, lo, hi), Off(y, lo, hi), hi - lo;
    if Abs(dx) >= Abs(dy) {
      FarAxisIsLarge(dx, dy, d);
      SameSide(dx);
    } else {
      FarAxisIsLarge(dy, dx, d);
      SameSide(dy);
    }
  }

  lemma SameSide(a: int)
    requires Abs(a) >= 2
    ensures (if a > 0 then a - 2 else a + 2) * a >= 0
  {
    if a > 0 {
      assert (a - 2) * a >= 0;
    } else {
      assert (a + 2) * a == (-(a + 2)) * (-a) >= 0;
    }
  }

  /** Where the correction ends. */
  function Corrected(x: int, y: int, lo: int, hi: int): (int, int)
    requires hi - lo >= 2
    decreases Measure(x, y, lo, hi)
  {
    if InsideCircle(x, y, lo, hi) then (x, y)
    else
      PullApproaches(x, y, lo, hi);
      Corrected(PullX(x, y, lo, hi), PullY(x, y, lo, hi), lo, hi)
  }

  function Corrections(x: int, y: int, lo: int, hi: int): nat
    requires hi - lo >= 2
    decreases Measure(x, y, lo, hi)
  {
    if InsideCircle(x, y, lo, hi) then 0
    else
      PullApproaches(x, y, lo, hi);
      1 + Corrections(PullX(x, y, lo, hi), PullY(x, y, lo, hi), lo, hi)
  }

  /** The loop of map_voltage, from any rounded start point. */
  method Correct(x0: int, y0: int, lo: int, hi: int) returns (ox: int, oy: int)
    requires hi - lo >= 2
    ensures (ox, oy) == Corrected(x0, y0, lo, hi)
  {
    ox, oy := x0, y0;
    while !InsideCircle(ox, oy, lo, hi)
      invariant Corrected(ox, oy, lo, hi) == Corrected(x0, y0, lo, hi)
      decreases Measure(ox, oy, lo, hi)
    {
      PullApproaches(ox, oy, lo, hi);
      ghost var px, py := PullX(ox, oy, lo, hi), PullY(ox, oy, lo, hi);
      var dx, dy := Off(ox, lo, hi), Off(oy, lo, hi);
      if Abs(dx) >= Abs(dy) {
        ox := ox + if dx > 0 then -1 else 1;
      } else {
        oy := oy + if dy > 0 then -1 else 1;
      }
      assert ox == px && oy == py;
    }
  }

  lemma SquareOrder(a: nat, b: nat)
    ensures a < b <==> a * a < b * b
  {
    if a < b {
      assert a * a <= a * b < b * b;
    } else {
      assert b * b <= a * b <= a * a;
    }
  }

  lemma AxisInBox(v: int, w: int, lo: int, hi: int)
    requires lo <= hi && v * v + w * w <= (hi - lo) * (hi - lo)
    ensures Abs(v) <= hi - lo
  {
    SquareOrder(hi - lo, Abs(v));
    assert v * v == Abs(v) * Abs(v) && w * w >= 0;
  }

  /** From any start point the loop ends inside the circle, so both targets lie between dac_min and dac_max; no axis is
      moved away from the centre. */
  lemma {:induction false} CorrectedLandsInside(x: int, y: int, lo: int, hi: int)
    requires hi - lo >= 2
    ensures var (ox, oy) := Corrected(x, y, lo, hi);
      && InsideCircle(ox, oy, lo, hi) && lo <= ox <= hi && lo <= oy <= hi
      && Abs(Off(ox, lo, hi)) <= Abs(Off(x, lo, hi)) && Abs(Off(oy, lo, hi)) <= Abs(Off(y, lo, hi))
    decreases Measure(x, y, lo, hi)
  {
    if InsideCircle(x, y, lo, hi) {
      AxisInBox(Off(x, lo, hi), Off(y, lo, hi), lo, hi);
      AxisInBox(Off(y, lo, hi), Off(x, lo, hi), lo, hi);
    } else {
      PullApproaches(x, y, lo, hi);
      CorrectedLandsInside(PullX(x, y, lo, hi), PullY(x, y, lo, hi), lo, hi);
    }
  }

  /** A circle one millivolt wide holds no grid point: there the loop could not end. */
  lemma NarrowCircleIsEmpty(lo: int, hi: int)
    ensures hi - lo == 1 <==> hi - lo >= 1 && forall x, y :: !InsideCircle(x, y, lo, hi)
  {
    if hi - lo == 1 {
      forall x, y ensures !InsideCircle(x, y, lo, hi) {
        OddSquare(Off(x, lo, hi));
        OddSquare(Off(y, lo, hi));
      }
    } else if hi - lo >= 2 {
      var m := (lo + hi) / 2;
      assert Off(m, lo, hi) * Off(m, lo, hi) <= 1;
      assert (hi - lo) * (hi - lo) >= 4;
      assert InsideCircle(m, m, lo, hi);
    }
  }

  lemma OddSquare(a: int)
    requires a % 2 == 1
    ensures a * a >= 1
  {
    if a >= 1 {
      assert a * a >= 1;
    } else {
      assert a * a == (-a) * (-a) >= 1;
    }
  }

  // ----- the exact target before rounding

  /** What map_voltage computes before rounding: the unit direction of the stick, the square root it takes and the
      deflection (the stick length clipped to one). */
  datatype Aim = Aim(ux: real, uy: real, root: real, deflection: real)

  function Dot(a: Aim, offset: real): real {
    offset * (a.ux + a.uy)
  }

  function Travel(a: Aim, offset: real): real {
    a.deflection * (a.root - Dot(a, offset))
  }

  /** How far the target moves along one axis. */
  function Push(u: real, a: Aim, offset: real): real {
    u * Travel(a, offset)
  }

  predicate InDisc(px: real, py: real, radius: real) {
    px * px + py * py <= radius * radius
  }

  /** The square root is taken of this, or of zero when it is negative. */
  function Discriminant(a: Aim, offset: real, radius: real): real {
    Dot(a, offset) * Dot(a, offset) + radius * radius - 2.0 * offset * offset
  }

  predicate Exact(a: Aim, offset: real, radius: real) {
    && a.ux * a.ux + a.uy * a.uy == 1.0 && 0.0 <= a.deflection <= 1.0 && a.root >= 0.0
    && a.root * a.root == if Discriminant(a, offset, radius) < 0.0 then 0.0 else Discriminant(a, offset, radius)
  }

  /** With the neutral point inside the circle the square root is taken of its exact value. */
  lemma InsideDiscriminant(a: Aim, offset: real, radius: real)
    requires Exact(a, offset, radius) && 2.0 * offset * offset <= radius * radius
    ensures a.root * a.root == Discriminant(a, offset, radius)
  {
    var dot := Dot(a, offset);
    NotNegative(dot);
    hide Dot;
  }

  lemma NotNegative(v: real)
    ensures v * v >= 0.0
  {
  }

  /** With the neutral point inside the circle, the exact target lies inside it too.  Lengths are relative to the circle's
      centre; offset is that of the neutral point on both axes. */
  lemma ExactTargetInside(a: Aim, offset: real, radius: real)
    requires Exact(a, offset, radius) && 2.0 * offset * offset <= radius * radius
    ensures InDisc(offset + Push(a.ux, a, offset), offset + Push(a.uy, a, offset), radius)
  {
    hide InDisc, Travel, Dot, Exact, Discriminant;
    InsideDiscriminant(a, offset, radius);
    ExactParts(a, offset, radius);
    ExactTravel(a, offset, radius);
    DiscOf(a.ux, a.uy, offset, Travel(a, offset), Dot(a, offset), radius);
  }

  lemma ExactParts(a: Aim, offset: real, radius: real)
    requires Exact(a, offset, radius)
    ensures a.ux * a.ux + a.uy * a.uy == 1.0 && 0.0 <= a.deflection <= 1.0 && Dot(a, offset) == offset * (a.ux + a.uy)
  {
  }

  lemma ExactTravel(a: Aim, offset: real, radius: real)
    requires a.root * a.root == Discriminant(a, offset, radius) && 0.0 <= a.deflection <= 1.0
    requires 2.0 * offset * offset <= radius * radius
    ensures var t := Travel(a, offset); 2.0 * offset * offset + 2.0 * t * Dot(a, offset) + t * t <= radius * radius
  {
    hide Dot;
    var dot, distance := Dot(a, offset), a.root - Dot(a, offset);
    assert 2.0 * distance * dot + distance * distance == a.root * a.root - dot * dot;
    Between(a.deflection, distance, dot, 2.0 * offset * offset, radius * radius);
  }

  lemma DiscOf(ux: real, uy: real, o: real, t: real, dot: real, radius: real)
    requires ux * ux + uy * uy == 1.0 && dot == o * (ux + uy) && 2.0 * o * o + 2.0 * t * dot + t * t <= radius * radius
    ensures InDisc(o + ux * t, o + uy * t, radius)
  {
    Expand(ux, uy, o, t);
  }

  lemma Expand(ux: real, uy: real, o: real, t: real)
    requires ux * ux + uy * uy == 1.0
    ensures (o + ux * t) * (o + ux * t) + (o + uy * t) * (o + uy * t) == 2.0 * o * o + 2.0 * t * (o * (ux + uy)) + t * t
  {
    assert (o + ux * t) * (o + ux * t) == o * o + 2.0 * t * (o * ux) + (ux * ux) * (t * t);
    assert (o + uy * t) * (o + uy * t) == o * o + 2.0 * t * (o * uy) + (uy * uy) * (t * t);
    assert (ux * ux) * (t * t) + (uy * uy) * (t * t) == (ux * ux + uy * uy) * (t * t);
  }

  /** A convex quadratic between its values at 0 and 1. */
  lemma Between(m: real, d: real, dot: real, at0: real, at1: real)
    requires 0.0 <= m <= 1.0 && at0 <= at1
    requires at0 + 2.0 * d * dot + d * d == at1
    ensures at0 + 2.0 * (m * d) * dot + (m * d) * (m * d) <= at1
  {
    assert (m * d) * (m * d) == (m * m) * (d * d);
    Shrinks(m, m);
    Ordered(m * m, m, d * d);
    assert 2.0 * (m * d) * dot + m * (d * d) == m * (2.0 * d * dot + d * d);
    assert 2.0 * d * dot + d * d == at1 - at0;
    Shrinks(m, at1 - at0);
  }

  lemma Shrinks(m: real, x: real)
    requires 0.0 <= m <= 1.0 && x >= 0.0
    ensures m * x <= x
  {
  }

  lemma Ordered(a: real, b: real, x: real)
    requires a <= b && x >= 0.0
    ensures a * x <= b * x
  {
  }

  // ----- rounding costs at most two corrections

  /** Twice the centre offsets of a point rounded from an exact point (px, py) of the disc. */
  ghost predicate RoundedFromDisc(x: int, y: int, lo: int, hi: int, px: real, py: real) {
    var d := (hi - lo) as real;
    && px * px + py * py <= d * d
    && -1.0 <= Off(x, lo, hi) as real - px <= 1.0 && -1.0 <= Off(y, lo, hi) as real - py <= 1.0
  }

  lemma RoundingCostsAtMostTwo(x: int, y: int, lo: int, hi: int, px: real, py: real)
    requires hi - lo >= 2 && RoundedFromDisc(x, y, lo, hi, px, py)
    ensures Corrections(x, y, lo, hi) <= 2
  {
    hide InsideCircle, NearlyInside, RoundedFromDisc, PullX, PullY, Measure;
    if !InsideCircle(x, y, lo, hi) {
      FirstPull(x, y, lo, hi, px, py);
      var x1, y1 := PullX(x, y, lo, hi), PullY(x, y, lo, hi);
      if !InsideCircle(x1, y1, lo, hi) {
        SecondPull(x1, y1, lo, hi);
        assert Corrections(PullX(x1, y1, lo, hi), PullY(x1, y1, lo, hi), lo, hi) == 0;
      }
      assert Corrections(x1, y1, lo, hi) <= 1;
    }
  }

  /** Nearly inside: the square of the offset exceeds the circle's by two at most. */
  predicate NearlyInside(x: int, y: int, lo: int, hi: int) {
    Off(x, lo, hi) * Off(x, lo, hi) + Off(y, lo, hi) * Off(y, lo, hi) <= (hi - lo) * (hi - lo) + 2
  }

  lemma FirstPull(x: int, y: int, lo: int, hi: int, px: real, py: real)
    requires hi - lo >= 2 && RoundedFromDisc(x, y, lo, hi, px, py) && !InsideCircle(x, y, lo, hi)
    ensures NearlyInside(PullX(x, y, lo, hi), PullY(x, y, lo, hi), lo, hi)
  {
    var dx, dy, d := Off(x, lo, hi), Off(y, lo, hi), hi - lo;
    if Abs(dx) >= Abs(dy) {
      FarAxisIsLarge(dx, dy, d);
      OnePull(dx, dy, d, px, py);
    } else {
      FarAxisIsLarge(dy, dx, d);
      OnePull(dy, dx, d, py, px);
    }
  }

  lemma SecondPull(x: int, y: int, lo: int, hi: int)
    requires hi - lo >= 2 && NearlyInside(x, y, lo, hi) && !InsideCircle(x, y, lo, hi)
    ensures InsideCircle(PullX(x, y, lo, hi), PullY(x, y, lo, hi), lo, hi)
  {
    var dx, dy, d := Off(x, lo, hi), Off(y, lo, hi), hi - lo;
    if Abs(dx) >= Abs(dy) {
      FarAxisIsLarge(dx, dy, d);
      TowardSquare(dx);
    } else {
      FarAxisIsLarge(dy, dx, d);
      TowardSquare(dy);
    }
  }

  function Toward(a: int): int {
    if a > 0 then a - 2 else a + 2
  }

  lemma TowardSquare(a: int)
    ensures Toward(a) * Toward(a) == a * a - 4 * Abs(a) + 4
  {
  }

  lemma OnePull(a: int, b: int, d: nat, pa: real, pb: real)
    requires Abs(a) >= 2 && Abs(a) >= Abs(b) && pa * pa + pb * pb <= (d as real) * (d as real)
    requires -1.0 <= a as real - pa <= 1.0 && -1.0 <= b as real - pb <= 1.0
    ensures Toward(a) * Toward(a) + b * b <= d * d + 2
  {
    hide Toward;
    var qa, qb := if a >= 0 then pa else -pa, if b >= 0 then pb else -pb;
    SameSquare(pa);
    SameSquare(pb);
    PositivePull(Abs(a), Abs(b), d, qa, qb);
    TowardSquare(a);
    AbsSquare(a);
    AbsSquare(b);
  }

  lemma SameSquare(p: real)
    ensures (-p) * (-p) == p * p
  {
  }

  lemma AbsSquare(a: int)
    ensures Abs(a) * Abs(a) == a * a
  {
  }

  lemma PositivePull(u: nat, v: nat, d: nat, qa: real, qb: real)
    requires u >= 2 && u >= v && qa * qa + qb * qb <= (d as real) * (d as real)
    requires (u - 1) as real <= qa && (v - 1) as real <= qb
    ensures u * u - 4 * u + 4 + v * v <= d * d + 2
  {
    SquareBelow(u - 1, qa);
    CastSquare(d);
    CastSquare(u - 1);
    if v >= 1 {
      SquareBelow(v - 1, qb);
      CastSquare(v - 1);
      WholeNumbers(u, v, d * d, (v - 1) * (v - 1));
    } else {
      assert qb * qb >= 0.0;
      WholeNumbers(u, v, d * d, 0);
    }
  }

  lemma WholeNumbers(u: nat, v: nat, dd: int, w: int)
    requires u >= 2 && u >= v && (u - 1) * (u - 1) + w <= dd && w == (if v >= 1 then (v - 1) * (v - 1) else 0)
    ensures u * u - 4 * u + 4 + v * v <= dd + 2
  {
  }

  lemma CastSquare(n: int)
    ensures (n as real) * (n as real) == (n * n) as real
  {
  }

  lemma SquareBelow(n: nat, q: real)
    requires n as real <= q
    ensures (n as real) * (n as real) <= q * q
  {
    Monotone(n as real, q);
  }

  lemma Monotone(a: real, b: real)
    requires 0.0 <= a <= b
    ensures a * a <= b * b
  {
    assert a * a <= a * b <= b * b;
  }

  function Offset(neutral: int, lo: int, hi: int): real {
    Off(neutral, lo, hi) as real / 2.0
  }

  function Radius(lo: int, hi: int): real {
    (hi - lo) as real / 2.0
  }

  predicate RoundedTo(v: int, exact: real) {
    -0.5 <= v as real - exact <= 0.5
  }

  // ----- map_voltage

  /** A stick vector with its length (hypot) and the square root the code takes. */
  datatype Stick = Stick(x: real, y: real, length: real, root: real)

  function AimOf(s: Stick): Aim
    requires s.length != 0.0
  {
    Aim(s.x / s.length, s.y / s.length, s.root, if s.length < 1.0 then s.length else 1.0)
  }

  /** length and root are the square roots they stand for. */
  predicate Measured(s: Stick, neutral: int, lo: int, hi: int) {
    && s.length >= 0.0 && s.length * s.length == s.x * s.x + s.y * s.y
    && (s.length != 0.0 ==> IsRoot(s.root, Square(s.x / s.length, s.y / s.length, Offset(neutral, lo, hi), Radius(lo, hi))))
  }

  /** root is the square root of square, or of zero when that is negative. */
  predicate IsRoot(root: real, square: real) {
    root >= 0.0 && root * root == if square < 0.0 then 0.0 else square
  }

  function Square(ux: real, uy: real, offset: real, radius: real): real {
    (offset * (ux + uy)) * (offset * (ux + uy)) + radius * radius - 2.0 * offset * offset
  }

  lemma MeasuredIsExact(s: Stick, neutral: int, lo: int, hi: int)
    requires s.length != 0.0 && Measured(s, neutral, lo, hi)
    ensures Exact(AimOf(s), Offset(neutral, lo, hi), Radius(lo, hi))
  {
    hide Offset, Radius;
    UnitDirection(s.x, s.y, s.length);
  }

  lemma UnitDirection(x: real, y: real, length: real)
    requires length > 0.0 && length * length == x * x + y * y
    ensures (x / length) * (x / length) + (y / length) * (y / length) == 1.0
  {
    var square := Segments.PositiveSquare(length);
    var a, xx := SquareTimes(x / length, length, square, x);
    var b, yy := SquareTimes(y / length, length, square, y);
    assert xx + yy == square;
    SumIsOne(a, b, square, xx, yy);
  }

  lemma SquareTimes(u: real, k: real, square: real, x: real) returns (a: real, xx: real)
    requires u * k == x && square == k * k
    ensures a == u * u && xx == x * x && a * square == xx
  {
    a, xx := u * u, x * x;
    assert a * square == u * (u * k) * k == (u * k) * x;
  }

  lemma SumIsOne(a: real, b: real, square: real, xx: real, yy: real)
    requires square > 0.0 && a * square == xx && b * square == yy && xx + yy == square
    ensures a + b == 1.0
  {
    assert (a + b - 1.0) * square == 0.0;
  }

  /** The rounded target before the corrections. */
  function StartPoint(s: Stick, neutral: int, lo: int, hi: int): (int, int)
    requires s.length != 0.0
  {
    var a := AimOf(s);
    var offset := Offset(neutral, lo, hi);
    (RoundHalfEven(neutral as real + Push(a.ux, a, offset)), RoundHalfEven(neutral as real + Push(a.uy, a, offset)))
  }

  function Target(s: Stick, neutral: int, lo: int, hi: int): (int, int)
    requires hi - lo >= 2
  {
    if s.length == 0.0 then (neutral, neutral)
    else
      var (x, y) := StartPoint(s, neutral, lo, hi);
      Corrected(x, y, lo, hi)
  }

  lemma NoLength(s: Stick)
    requires s.length >= 0.0 && s.length * s.length == s.x * s.x + s.y * s.y && s.x == 0.0 && s.y == 0.0
    ensures s.length == 0.0
  {
    var xx := ZeroSquare(s.x);
    var yy := ZeroSquare(s.y);
    assert s.x * s.x + s.y * s.y == xx + yy;
    if s.length > 0.0 {
      var _ := Segments.PositiveSquare(s.length);
    }
  }

  lemma ZeroSquare(v: real) returns (r: real)
    requires v == 0.0
    ensures r == v * v && r == 0.0
  {
    r := v * v;
  }

  /** Every target lies between dac_min and dac_max on both axes, and a centred stick gives exactly the neutral point. */
  lemma TargetInRange(s: Stick, neutral: int, lo: int, hi: int)
    requires lo < neutral < hi && Measured(s, neutral, lo, hi)
    ensures var (x, y) := Target(s, neutral, lo, hi); lo <= x <= hi && lo <= y <= hi
    ensures s.x == 0.0 && s.y == 0.0 ==> Target(s, neutral, lo, hi) == (neutral, neutral)
  {
    hide Exact, StartPoint, Corrected;
    if s.length != 0.0 {
      var (x, y) := StartPoint(s, neutral, lo, hi);
      CorrectedLandsInside(x, y, lo, hi);
    }
    if s.x == 0.0 && s.y == 0.0 {
      NoLength(s);
    }
  }

  /** map_voltage. */
  method MapVoltage(s: Stick, neutral: int, lo: int, hi: int) returns (tx: int, ty: int)
    requires lo < neutral < hi && Measured(s, neutral, lo, hi)
    ensures (tx, ty) == Target(s, neutral, lo, hi)
    ensures lo <= tx <= hi && lo <= ty <= hi
    ensures s.x == 0.0 && s.y == 0.0 ==> tx == neutral && ty == neutral
  {
    TargetInRange(s, neutral, lo, hi);
    if s.length == 0.0 {
      return neutral, neutral;
    }
    var (x0, y0) := StartPoint(s, neutral, lo, hi);
    tx, ty := Correct(x0, y0, lo, hi);
  }

  /** The whole of map_voltage in exact arithmetic: with a neutral point inside the circle, the rounded target needs at
      most two corrections, whatever the stick. */
  lemma MapVoltageNeedsFewCorrections(s: Stick, neutral: int, lo: int, hi: int)
    requires hi - lo >= 2 && InsideCircle(neutral, neutral, lo, hi)
    requires s.length != 0.0 && Measured(s, neutral, lo, hi)
    ensures Corrections(StartPoint(s, neutral, lo, hi).0, StartPoint(s, neutral, lo, hi).1, lo, hi) <= 2
  {
    MeasuredIsExact(s, neutral, lo, hi);
    var a, offset, radius := AimOf(s), Offset(neutral, lo, hi), Radius(lo, hi);
    var (x, y) := StartPoint(s, neutral, lo, hi);
    assert RoundedTo(x, neutral as real + Push(a.ux, a, offset)) && RoundedTo(y, neutral as real + Push(a.uy, a, offset));
    hide *;
    NeutralInReals(neutral, lo, hi);
    ExactTargetInside(a, offset, radius);
    FromDisc(x, y, neutral, lo, hi, Push(a.ux, a, offset), Push(a.uy, a, offset));
    RoundingCostsAtMostTwo(x, y, lo, hi, 2.0 * (offset + Push(a.ux, a, offset)), 2.0 * (offset + Push(a.uy, a, offset)));
  }

  /** With the neutral point outside the circle it can need more: a valid configuration and a stick barely moved. */
  lemma OutsideNeutralNeedsMore() returns (s: Stick)
    ensures s == Stick(0.04, -0.03, 0.05, 0.0)
            && !InsideCircle(101, 101, 100, 200) && Measured(s, 101, 100, 200)
            && StartPoint(s, 101, 100, 200) == (101, 101) && Corrections(101, 101, 100, 200) > 2
  {
    s := Stick(0.04, -0.03, 0.05, 0.0);
    assert AimOf(s) == Aim(0.8, -0.6, 0.0, 0.05);
    assert Discriminant(AimOf(s), -49.0, 50.0) < 0.0;
    assert Push(0.8, AimOf(s), -49.0) == 0.392 && Push(-0.6, AimOf(s), -49.0) == -0.294;
    assert RoundHalfEven(101.392) == 101 && RoundHalfEven(100.706) == 101;
    ThreeCorrections();
  }

  lemma ThreeCorrections()
    ensures Corrections(101, 101, 100, 200) > 2
  {
    assert Corrections(101, 101, 100, 200) == 1 + Corrections(102, 101, 100, 200);
    assert Corrections(102, 101, 100, 200) == 1 + Corrections(102, 102, 100, 200);
    assert Corrections(102, 102, 100, 200) == 1 + Corrections(103, 102, 100, 200);
  }

  lemma FromDisc(x: int, y: int, neutral: int, lo: int, hi: int, s: real, t: real)
    requires RoundedTo(x, neutral as real + s) && RoundedTo(y, neutral as real + t)
    requires InDisc(Offset(neutral, lo, hi) + s, Offset(neutral, lo, hi) + t, Radius(lo, hi))
    ensures RoundedFromDisc(x, y, lo, hi, 2.0 * (Offset(neutral, lo, hi) + s), 2.0 * (Offset(neutral, lo, hi) + t))
  {
    CenteredRounding(x, neutral, lo, hi, s);
    CenteredRounding(y, neutral, lo, hi, t);
    Doubled(Offset(neutral, lo, hi) + s, Offset(neutral, lo, hi) + t, (hi - lo) as real);
    hide Offset, Off;
  }

  lemma CenteredRounding(v: int, neutral: int, lo: int, hi: int, t: real)
    requires RoundedTo(v, neutral as real + t)
    ensures -1.0 <= Off(v, lo, hi) as real - 2.0 * (Offset(neutral, lo, hi) + t) <= 1.0
  {
  }

  lemma NeutralInReals(neutral: int, lo: int, hi: int)
    requires InsideCircle(neutral, neutral, lo, hi)
    ensures 2.0 * Offset(neutral, lo, hi) * Offset(neutral, lo, hi) <= Radius(lo, hi) * Radius(lo, hi)
  {
    CastSquare(Off(neutral, lo, hi));
    CastSquare(hi - lo);
  }

  lemma Doubled(px: real, py: real, d: real)
    requires px * px + py * py <= (d / 2.0) * (d / 2.0)
    ensures (2.0 * px) * (2.0 * px) + (2.0 * py) * (2.0 * py) <= d * d
  {
  }

  // ----- the direction and the size of the output

  /** InsideCircle in exact distances: a circle around the middle of lo and hi that touches both. */
  lemma InsideCircleIff(x: int, y: int, lo: int, hi: int)
    ensures InsideCircle(x, y, lo, hi) <==> InDisc(x as real - Centre(lo, hi), y as real - Centre(lo, hi), Radius(lo, hi))
  {
    CastSquare(Off(x, lo, hi));
    CastSquare(Off(y, lo, hi));
    CastSquare(hi - lo);
    HalfSquare(Off(x, lo, hi) as real);
    HalfSquare(Off(y, lo, hi) as real);
    HalfSquare((hi - lo) as real);
    assert x as real - Centre(lo, hi) == Off(x, lo, hi) as real / 2.0 && y as real - Centre(lo, hi) == Off(y, lo, hi) as real / 2.0;
    hide Off, Centre;
  }

  function Centre(lo: int, hi: int): real {
    (lo + hi) as real / 2.0
  }

  lemma HalfSquare(v: real)
    ensures (v / 2.0) * (v / 2.0) == v * v / 4.0
  {
  }

  /** A correction takes the axis that brings the point closest to the centre, the first one when both do. */
  lemma PullIsSteepest(x: int, y: int, lo: int, hi: int)
    requires hi - lo >= 2 && !InsideCircle(x, y, lo, hi)
    ensures var dx, dy := Off(x, lo, hi), Off(y, lo, hi); var x', y' := PullX(x, y, lo, hi), PullY(x, y, lo, hi);
      && (x' != x <==> y' == y) && (x' != x ==> Abs(Off(x', lo, hi)) == Abs(dx) - 2) && (y' != y ==> Abs(Off(y', lo, hi)) == Abs(dy) - 2)
      && (x' != x <==> Abs(dx) >= Abs(dy))
  {
    var dx, dy, d := Off(x, lo, hi), Off(y, lo, hi), hi - lo;
    if Abs(dx) >= Abs(dy) {
      FarAxisIsLarge(dx, dy, d);
    } else {
      FarAxisIsLarge(dy, dx, d);
    }
  }

  /** How far the corrections move a point. */
  lemma {:induction false} CorrectedIsNear(x: int, y: int, lo: int, hi: int)
    requires hi - lo >= 2
    ensures var (ox, oy) := Corrected(x, y, lo, hi); Abs(ox - x) + Abs(oy - y) <= Corrections(x, y, lo, hi)
    decreases Measure(x, y, lo, hi)
  {
    if !InsideCircle(x, y, lo, hi) {
      PullApproaches(x, y, lo, hi);
      CorrectedIsNear(PullX(x, y, lo, hi), PullY(x, y, lo, hi), lo, hi);
      hide InsideCircle;
    }
  }

  lemma LargerSquare(a: real, b: real) returns (r: real)
    requires 0.0 <= a < b
    ensures r == b * b - a * a && r > 0.0
  {
    r := Segments.PositiveProduct(b - a, b + a);
  }

  lemma RootIsLarger(root: real, dot: real, square: real)
    requires root >= 0.0 && square >= 0.0 && root * root == dot * dot + square
    ensures root - dot >= 0.0
  {
    if root < dot {
      var _ := LargerSquare(root, dot);
    }
  }

  function Times(a: real, b: real): real {
    a * b
  }

  /** (fx, fy) lies on the line of the stick. */
  predicate OnLine(fx: real, fy: real, s: Stick) {
    fx * s.y == fy * s.x
  }

  /** (fx, fy) points to the side of the stick. */
  predicate Facing(fx: real, fy: real, s: Stick) {
    fx * s.x + fy * s.y >= 0.0
  }

  lemma AlongStick(s: Stick, ux: real, uy: real, d: real)
    requires s.length >= 0.0 && ux * s.length == s.x && uy * s.length == s.y
    ensures OnLine(Times(ux, d), Times(uy, d), s)
    ensures ux * ux + uy * uy == 1.0 && d >= 0.0 ==> Facing(Times(ux, d), Times(uy, d), s)
  {
    assert ux * d * s.y == ux * d * (uy * s.length) == uy * d * (ux * s.length) == uy * d * s.x;
    if ux * ux + uy * uy == 1.0 && d >= 0.0 {
      assert ux * d * s.x + uy * d * s.y == (ux * ux + uy * uy) * (d * s.length) == d * s.length;
      LengthTimes(d, s.length);
    }
  }

  lemma LengthTimes(d: real, l: real)
    requires d >= 0.0 && l >= 0.0
    ensures d * l >= 0.0
  {
  }

  lemma AimIsUnit(s: Stick)
    requires s.length != 0.0
    ensures AimOf(s).ux * s.length == s.x && AimOf(s).uy * s.length == s.y
  {
  }

  /** The exact point on the circle straight ahead, seen from the neutral point. */
  function Distance(a: Aim, offset: real): real {
    a.root - Dot(a, offset)
  }

  lemma PushIs(u: real, a: Aim, offset: real)
    ensures Push(u, a, offset) == Times(u, Travel(a, offset)) == Times(a.deflection, Times(u, Distance(a, offset)))
  {
    hide Dot;
  }

  /** The length of the stick, one at most. */
  function Deflection(s: Stick): real {
    if s.length < 1.0 then s.length else 1.0
  }

  predicate OnTheCircle(x: real, y: real, lo: int, hi: int) {
    (x - Centre(lo, hi)) * (x - Centre(lo, hi)) + (y - Centre(lo, hi)) * (y - Centre(lo, hi)) == Radius(lo, hi) * Radius(lo, hi)
  }

  lemma OnCircle(ux: real, uy: real, o: real, root: real, dot: real, r: real)
    requires ux * ux + uy * uy == 1.0 && dot == o * (ux + uy) && root * root == dot * dot + r * r - 2.0 * o * o
    ensures var d := root - dot; (o + ux * d) * (o + ux * d) + (o + uy * d) * (o + uy * d) == r * r
  {
    var d := root - dot;
    Expand(ux, uy, o, d);
    assert 2.0 * d * dot + d * d == root * root - dot * dot;
  }

  lemma FullDistance(a: Aim, neutral: int, lo: int, hi: int)
    requires InsideCircle(neutral, neutral, lo, hi) && Exact(a, Offset(neutral, lo, hi), Radius(lo, hi))
    ensures var d := Distance(a, Offset(neutral, lo, hi));
      d >= 0.0 && OnTheCircle(neutral as real + Times(a.ux, d), neutral as real + Times(a.uy, d), lo, hi)
  {
    hide InsideCircle;
    var o, r := Offset(neutral, lo, hi), Radius(lo, hi);
    NeutralInReals(neutral, lo, hi);
    InsideDiscriminant(a, o, r);
    ExactParts(a, o, r);
    FromCentre(neutral, lo, hi);
    hide Offset, Radius, Centre, Exact, Dot;
    RootIsLarger(a.root, Dot(a, o), r * r - 2.0 * o * o);
    OnCircle(a.ux, a.uy, o, a.root, Dot(a, o), r);
  }

  lemma FromCentre(neutral: int, lo: int, hi: int)
    ensures Offset(neutral, lo, hi) == neutral as real - Centre(lo, hi)
  {
  }

  predicate Follows(v: int, neutral: int, m: real, f: real) {
    RoundedTo(v, neutral as real + m * f)
  }

  lemma StartIs(s: Stick, neutral: int, lo: int, hi: int)
    requires s.length != 0.0
    ensures var a, o := AimOf(s), Offset(neutral, lo, hi); var (x, y) := StartPoint(s, neutral, lo, hi);
      && RoundedTo(x, neutral as real + Push(a.ux, a, o)) && RoundedTo(y, neutral as real + Push(a.uy, a, o))
  {
    hide Push, Offset, AimOf;
  }

  /** With the neutral point inside the circle, full deflection is the point (fx, fy) on the circle straight ahead of the stick,
      as seen from the neutral point; a shorter stick moves the target the same share of the way, rounded. */
  lemma StartFollowsStick(s: Stick, neutral: int, lo: int, hi: int) returns (fx: real, fy: real)
    requires s.length != 0.0 && Measured(s, neutral, lo, hi) && InsideCircle(neutral, neutral, lo, hi)
    ensures OnLine(fx, fy, s) && Facing(fx, fy, s) && OnTheCircle(neutral as real + fx, neutral as real + fy, lo, hi)
    ensures var (x, y) := StartPoint(s, neutral, lo, hi);
      Follows(x, neutral, Deflection(s), fx) && Follows(y, neutral, Deflection(s), fy)
  {
    hide InsideCircle, OnLine, Facing, OnTheCircle, Offset, Radius, StartPoint, Push, Distance, RoundedTo, Travel, IsRoot;
    MeasuredIsExact(s, neutral, lo, hi);
    var a, o := AimOf(s), Offset(neutral, lo, hi);
    assert Exact(a, o, Radius(lo, hi)) && a.deflection == Deflection(s);
    ExactParts(a, o, Radius(lo, hi));
    AimIsUnit(s);
    StartIs(s, neutral, lo, hi);
    hide AimOf, Exact, Dot, Deflection;
    FullDistance(a, neutral, lo, hi);
    var d := Distance(a, o);
    AlongStick(s, a.ux, a.uy, d);
    PushIs(a.ux, a, o);
    PushIs(a.uy, a, o);
    fx, fy := Times(a.ux, d), Times(a.uy, d);
    TimesIs(a.deflection, fx);
    TimesIs(a.deflection, fy);
    hide Times;
  }

  lemma TimesIs(a: real, b: real)
    ensures Times(a, b) == a * b
  {
  }

  /** Whatever the neutral point, the target moves along the line of the stick, rounded. */
  lemma StartIsOnLine(s: Stick, neutral: int, lo: int, hi: int) returns (px: real, py: real)
    requires s.length != 0.0 && Measured(s, neutral, lo, hi)
    ensures OnLine(px, py, s)
    ensures var (x, y) := StartPoint(s, neutral, lo, hi); RoundedTo(x, neutral as real + px) && RoundedTo(y, neutral as real + py)
  {
    hide OnLine, Offset, Radius, StartPoint, Push, RoundedTo, Travel, Exact, Distance, Times;
    var a, o := AimOf(s), Offset(neutral, lo, hi);
    AimIsUnit(s);
    StartIs(s, neutral, lo, hi);
    hide AimOf;
    AlongStick(s, a.ux, a.uy, Travel(a, o));
    PushIs(a.ux, a, o);
    PushIs(a.uy, a, o);
    px, py := Push(a.ux, a, o), Push(a.uy, a, o);
  }

  /** (x, y) is at most two steps from the rounded point that lies the share m of the way from neutral to (fx, fy). */
  ghost predicate NearShare(x: int, y: int, neutral: int, m: real, fx: real, fy: real) {
    exists i: int, j: int :: Follows(i, neutral, m, fx) && Follows(j, neutral, m, fy) && Abs(x - i) + Abs(y - j) <= 2
  }

  /** The target that is written: straight ahead of the stick, the same share of the way to the circle as the stick is
      deflected, within half a millivolt of rounding on each axis and two millivolts of correction. */
  lemma TargetFollowsStick(s: Stick, neutral: int, lo: int, hi: int) returns (fx: real, fy: real)
    requires s.length != 0.0 && Measured(s, neutral, lo, hi) && hi - lo >= 2 && InsideCircle(neutral, neutral, lo, hi)
    ensures OnLine(fx, fy, s) && Facing(fx, fy, s) && OnTheCircle(neutral as real + fx, neutral as real + fy, lo, hi)
    ensures var (x, y) := Target(s, neutral, lo, hi); NearShare(x, y, neutral, Deflection(s), fx, fy)
  {
    hide StartPoint, OnLine, Facing, OnTheCircle, Corrected, InsideCircle, Exact, Follows, Deflection;
    fx, fy := StartFollowsStick(s, neutral, lo, hi);
    MapVoltageNeedsFewCorrections(s, neutral, lo, hi);
    var (x, y) := StartPoint(s, neutral, lo, hi);
    CorrectedIsNear(x, y, lo, hi);
  }

  // ----- DAC codes

  function DacCode(mv: int, fullScale: int): int
    requires fullScale > 0
  {
    var code := (mv * 4095 + fullScale / 2) / fullScale;
    if code < 4095 then code else 4095
  }

  lemma DivisionBounds(n: int, f: int)
    requires f > 0
    ensures n / f * f <= n < n / f * f + f
  {
  }

  /** The quotient of a rounded scaling stays between zero and the scale. */
  lemma QuotientBounds(n: int, f: int)
    requires f > 0 && 0 <= n < f * 4096
    ensures 0 <= n / f <= 4095
  {
    DivisionBounds(n, f);
    var q := n / f;
    assert q >= 4096 ==> q * f >= 4096 * f;
    assert q <= -1 ==> q * f <= -f;
  }

  /** Twelve bits, and within half a code of the exact value. */
  lemma DacCodeAccurate(mv: int, fullScale: int)
    requires 0 <= mv <= fullScale && fullScale > 0
    ensures 0 <= DacCode(mv, fullScale) <= 4095
    ensures -fullScale <= 2 * (DacCode(mv, fullScale) * fullScale - mv * 4095) <= fullScale
  {
    var n := mv * 4095 + fullScale / 2;
    QuotientBounds(n, fullScale);
    DivisionBounds(n, fullScale);
  }

  lemma OneStepMore(p: int, q: int, f: int)
    requires p > q && f > 0
    ensures p * f >= q * f + f
  {
    NotNegativeProduct(p - q - 1, f);
    assert (p - q - 1) * f == p * f - q * f - f;
  }

  lemma NotNegativeProduct(a: int, b: int)
    requires a >= 0 && b >= 0
    ensures a * b >= 0
  {
  }

  lemma DacCodeMonotone(a: int, b: int, fullScale: int)
    requires a <= b && fullScale > 0
    ensures DacCode(a, fullScale) <= DacCode(b, fullScale)
  {
    var m, n := a * 4095 + fullScale / 2, b * 4095 + fullScale / 2;
    DivisionBounds(m, fullScale);
    DivisionBounds(n, fullScale);
    if m / fullScale > n / fullScale {
      OneStepMore(m / fullScale, n / fullScale, fullScale);
    }
  }
}
