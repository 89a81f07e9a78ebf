/** Rigid transforms as position and quaternion, over exact reals: the composition the odometry relay uses and the inverse
    and interpolation of the global localization. */
module Poses {

  datatype Quat = Quat(x: real, y: real, z: real, w: real)

  datatype Vec = Vec(x: real, y: real, z: real)

  datatype Pose = Pose(p: Vec, q: Quat)

  const IDENTITY := Pose(Vec(0.0, 0.0, 0.0), Quat(0.0, 0.0, 0.0, 1.0))

  function Mul(a: Quat, b: Quat): Quat {
    Quat(a.w * b.x + a.x * b.w + a.y * b.z - a.z * b.y, a.w * b.y - a.x * b.z + a.y * b.w + a.z * b.x,
         a.w * b.z + a.x * b.y - a.y * b.x + a.z * b.w, a.w * b.w - a.x * b.x - a.y * b.y - a.z * b.z)
  }

  function Conj(q: Quat): Quat {
    Quat(-q.x, -q.y, -q.z, q.w)
  }

  function Norm2(q: Quat): real {
    q.x * q.x + q.y * q.y + q.z * q.z + q.w * q.w
  }

  predicate Unit(q: Quat) {
    Norm2(q) == 1.0
  }

  function Pure(v: Vec): Quat {
    Quat(v.x, v.y, v.z, 0.0)
  }

  function Part(q: Quat): Vec {
    Vec(q.x, q.y, q.z)
  }

  function Times(a: real, b: real): real {
    a * b
  }

  function Scale(k: real, q: Quat): Quat {
    Quat(Times(k, q.x), Times(k, q.y), Times(k, q.z), Times(k, q.w))
  }

  function Neg(v: Vec): Vec {
    Vec(-v.x, -v.y, -v.z)
  }

  function Add(a: Vec, b: Vec): Vec {
    Vec(a.x + b.x, a.y + b.y, a.z + b.z)
  }

  function Rotate(q: Quat, v: Vec): Vec {
    Part(Mul(Mul(q, Pure(v)), Conj(q)))
  }

  function Compose(a: Pose, b: Pose): Pose {
    Pose(Add(a.p, Rotate(a.q, b.p)), Mul(a.q, b.q))
  }

  function Inverse(a: Pose): Pose {
    Pose(Neg(Rotate(Conj(a.q), a.p)), Conj(a.q))
  }

  // ----- quaternion algebra

  function Sum(a: Quat, b: Quat): Quat {
    Quat(a.x + b.x, a.y + b.y, a.z + b.z, a.w + b.w)
  }

  const I := Quat(1.0, 0.0, 0.0, 0.0)
  const J := Quat(0.0, 1.0, 0.0, 0.0)
  const K := Quat(0.0, 0.0, 1.0, 0.0)

  /** The linear combination with the components of a. */
  function Comb(a: Quat, p: Quat, q: Quat, r: Quat, s: Quat): Quat {
    Sum(Sum(Scale(a.x, p), Scale(a.y, q)), Sum(Scale(a.z, r), Scale(a.w, s)))
  }

  lemma MulIsComb(a: Quat, b: Quat)
    ensures Mul(a, b) == Comb(a, Mul(I, b), Mul(J, b), Mul(K, b), b)
  {
    hide Mul, Times, Terms;
    MulTerms(a, b);
    BasisProducts(b);
    TermsAreTimes(a.w, b.x, a.x, b.w, a.y, b.z, a.z, b.y);
    TermsAreTimes(a.w, b.y, a.y, b.w, a.z, b.x, a.x, b.z);
    TermsAreTimes(a.w, b.z, a.x, b.y, a.z, b.w, a.y, b.x);
    TermsAreTimes(a.x, b.x, a.y, b.y, a.z, b.z, a.w, b.w);
    Opposite(a.z, b.y);
    Opposite(a.x, b.z);
    Opposite(a.y, b.x);
    Opposite(a.x, b.x);
    Opposite(a.y, b.y);
    Opposite(a.z, b.z);
  }

  lemma TermsAreTimes(p: real, q: real, r: real, s: real, t: real, u: real, v: real, w: real)
    ensures Terms(p, q, r, s, t, u, v, w) == Times(p, q) + Times(r, s) + Times(t, u) - Times(v, w)
  {
  }

  lemma BasisProducts(b: Quat)
    ensures Mul(I, b) == Quat(b.w, -b.z, b.y, -b.x) && Mul(J, b) == Quat(b.z, b.w, -b.x, -b.y)
    ensures Mul(K, b) == Quat(-b.y, b.x, b.w, -b.z)
  {
  }

  /** The four terms of one component of a product. */
  function Terms(p: real, q: real, r: real, s: real, t: real, u: real, v: real, w: real): real {
    p * q + r * s + t * u - v * w
  }

  lemma MulTerms(a: Quat, b: Quat)
    ensures Mul(a, b) == Quat(Terms(a.w, b.x, a.x, b.w, a.y, b.z, a.z, b.y), Terms(a.w, b.y, a.y, b.w, a.z, b.x, a.x, b.z),
                              Terms(a.w, b.z, a.x, b.y, a.z, b.w, a.y, b.x), -Terms(a.x, b.x, a.y, b.y, a.z, b.z, a.w, b.w))
  {
  }

  lemma MulSum(a: Quat, b: Quat, c: Quat)
    ensures Mul(Sum(a, b), c) == Sum(Mul(a, c), Mul(b, c))
  {
    hide Mul, Terms;
    MulTerms(a, c);
    MulTerms(b, c);
    MulTerms(Sum(a, b), c);
    SummedTerms(a.w, b.w, c.x, a.x, b.x, c.w, a.y, b.y, c.z, a.z, b.z, c.y);
    SummedTerms(a.w, b.w, c.y, a.y, b.y, c.w, a.z, b.z, c.x, a.x, b.x, c.z);
    SummedTerms(a.w, b.w, c.z, a.x, b.x, c.y, a.z, b.z, c.w, a.y, b.y, c.x);
    SummedTerms(a.x, b.x, c.x, a.y, b.y, c.y, a.z, b.z, c.z, a.w, b.w, c.w);
  }

  lemma MulSumRight(c: Quat, a: Quat, b: Quat)
    ensures Mul(c, Sum(a, b)) == Sum(Mul(c, a), Mul(c, b))
  {
    hide Mul, Terms;
    MulTerms(c, a);
    MulTerms(c, b);
    MulTerms(c, Sum(a, b));
    SummedTerms(a.x, b.x, c.w, a.w, b.w, c.x, a.z, b.z, c.y, a.y, b.y, c.z);
    SummedTerms(a.y, b.y, c.w, a.w, b.w, c.y, a.x, b.x, c.z, a.z, b.z, c.x);
    SummedTerms(a.z, b.z, c.w, a.y, b.y, c.x, a.w, b.w, c.z, a.x, b.x, c.y);
    SummedTerms(a.x, b.x, c.x, a.y, b.y, c.y, a.z, b.z, c.z, a.w, b.w, c.w);
  }

  lemma SummedTerms(p: real, p2: real, q: real, r: real, r2: real, s: real, t: real, t2: real, u: real, v: real, v2: real,
                    w: real)
    ensures Terms(p + p2, q, r + r2, s, t + t2, u, v + v2, w) == Terms(p, q, r, s, t, u, v, w) + Terms(p2, q, r2, s, t2, u, v2, w)
    ensures Terms(q, p + p2, s, r + r2, u, t + t2, w, v + v2) == Terms(q, p, s, r, u, t, w, v) + Terms(q, p2, s, r2, u, t2, w, v2)
  {
  }

  lemma MulScaled(k: real, a: Quat, b: Quat)
    ensures Mul(Scale(k, a), b) == Scale(k, Mul(a, b)) == Mul(a, Scale(k, b))
  {
    hide Mul, Terms, Times;
    MulTerms(a, b);
    MulTerms(Scale(k, a), b);
    MulTerms(a, Scale(k, b));
    var m := Mul(a, b);
    ScaledTerms(k, m.x, a.w, b.x, a.x, b.w, a.y, b.z, a.z, b.y);
    ScaledTerms(k, m.y, a.w, b.y, a.y, b.w, a.z, b.x, a.x, b.z);
    ScaledTerms(k, m.z, a.w, b.z, a.x, b.y, a.z, b.w, a.y, b.x);
    ScaledTerms(k, -m.w, a.x, b.x, a.y, b.y, a.z, b.z, a.w, b.w);
    Opposite(k, m.w);
  }

  lemma Opposite(k: real, v: real)
    ensures Times(k, -v) == -Times(k, v)
  {
  }

  lemma ScaledTerms(k: real, sum: real, p: real, q: real, r: real, s: real, t: real, u: real, v: real, w: real)
    requires sum == Terms(p, q, r, s, t, u, v, w)
    ensures Times(k, sum)
         == Terms(Times(k, p), q, Times(k, r), s, Times(k, t), u, Times(k, v), w)
         == Terms(p, Times(k, q), r, Times(k, s), t, Times(k, u), v, Times(k, w))
  {
    Distribute(k, p * q, r * s, t * u, -(v * w));
  }

  lemma Distribute(k: real, x: real, y: real, z: real, w: real)
    ensures k * (x + y + z + w) == k * x + k * y + k * z + k * w
  {
  }

  lemma MulOfComb(a: Quat, p: Quat, q: Quat, r: Quat, s: Quat, c: Quat)
    ensures Mul(Comb(a, p, q, r, s), c) == Comb(a, Mul(p, c), Mul(q, c), Mul(r, c), Mul(s, c))
  {
    hide Mul, Sum, Scale;
    MulSum(Sum(Scale(a.x, p), Scale(a.y, q)), Sum(Scale(a.z, r), Scale(a.w, s)), c);
    MulSum(Scale(a.x, p), Scale(a.y, q), c);
    MulSum(Scale(a.z, r), Scale(a.w, s), c);
    MulScaled(a.x, p, c);
    MulScaled(a.y, q, c);
    MulScaled(a.z, r, c);
    MulScaled(a.w, s, c);
  }

  lemma MulBasis(b: Quat, c: Quat)
    ensures Mul(Mul(I, b), c) == Mul(I, Mul(b, c))
    ensures Mul(Mul(J, b), c) == Mul(J, Mul(b, c))
    ensures Mul(Mul(K, b), c) == Mul(K, Mul(b, c))
  {
    hide Mul;
    BasisProducts(b);
    BasisProducts(Mul(b, c));
    MulTerms(b, c);
    MulTerms(Mul(I, b), c);
    MulTerms(Mul(J, b), c);
    MulTerms(Mul(K, b), c);
  }

  lemma MulAssociative(a: Quat, b: Quat, c: Quat)
    ensures Mul(Mul(a, b), c) == Mul(a, Mul(b, c))
  {
    hide Mul, Comb;
    MulIsComb(a, b);
    MulOfComb(a, Mul(I, b), Mul(J, b), Mul(K, b), b, c);
    MulBasis(b, c);
    MulIsComb(a, Mul(b, c));
  }

  lemma ConjOfMul(a: Quat, b: Quat)
    ensures Conj(Mul(a, b)) == Mul(Conj(b), Conj(a))
  {
    hide Mul;
    MulTerms(a, b);
    MulTerms(Conj(b), Conj(a));
  }

  lemma ConjMul(q: Quat)
    ensures Mul(Conj(q), q) == Quat(0.0, 0.0, 0.0, Norm2(q))
  {
  }

  lemma MulScalar(q: Quat, k: real)
    ensures Mul(q, Quat(0.0, 0.0, 0.0, k)) == Scale(k, q) == Mul(Quat(0.0, 0.0, 0.0, k), q)
  {
  }

  /** Conjugating a pure quaternion gives a pure quaternion: nothing is lost when rotate drops the scalar part. */
  lemma SandwichIsPure(q: Quat, v: Vec)
    ensures Mul(Mul(q, Pure(v)), Conj(q)).w == 0.0
  {
    hide Mul;
    var m := Mul(q, Pure(v));
    MulTerms(q, Pure(v));
    MulTerms(m, Conj(q));
  }

  lemma RotateSandwich(q: Quat, v: Vec)
    ensures Pure(Rotate(q, v)) == Mul(Mul(q, Pure(v)), Conj(q))
  {
    SandwichIsPure(q, v);
  }

  /** Rotating by a product is rotating twice, for all quaternions. */
  lemma RotateTwice(a: Quat, b: Quat, v: Vec)
    ensures Rotate(Mul(a, b), v) == Rotate(a, Rotate(b, v))
  {
    var p := Pure(v);
    RotateSandwich(b, v);
    ConjOfMul(a, b);
    hide Mul, Conj;
    MulAssociative(a, b, p);
    MulAssociative(Mul(a, Mul(b, p)), Conj(b), Conj(a));
    MulAssociative(a, Mul(b, p), Conj(b));
  }

  lemma RotateLinear(q: Quat, a: Vec, b: Vec)
    ensures Rotate(q, Add(a, b)) == Add(Rotate(q, a), Rotate(q, b))
  {
    hide Mul;
    assert Pure(Add(a, b)) == Sum(Pure(a), Pure(b));
    MulSumRight(q, Pure(a), Pure(b));
    MulSum(Mul(q, Pure(a)), Mul(q, Pure(b)), Conj(q));
  }

  lemma RotateNeg(q: Quat, v: Vec)
    ensures Rotate(q, Neg(v)) == Neg(Rotate(q, v))
  {
    RotateLinear(q, v, Neg(v));
    assert Add(v, Neg(v)) == Vec(0.0, 0.0, 0.0);
    RotateZero(q);
    hide Rotate;
  }

  lemma RotateZero(q: Quat)
    ensures Rotate(q, Vec(0.0, 0.0, 0.0)) == Vec(0.0, 0.0, 0.0)
  {
  }

  lemma ComposeAssociative(a: Pose, b: Pose, c: Pose)
    ensures Compose(Compose(a, b), c) == Compose(a, Compose(b, c))
  {
    MulAssociative(a.q, b.q, c.q);
    RotateTwice(a.q, b.q, c.p);
    RotateLinear(a.q, b.p, Rotate(b.q, c.p));
    hide Mul, Rotate;
  }

  // ----- map->odom times odom->base

  /** The transform the localization publishes. */
  function MapOdom(mapBase: Pose, odomBase: Pose): Pose {
    Compose(mapBase, Inverse(odomBase))
  }

  /** For every quaternion: the position comes back exactly, and the rotation scaled by the squared length of the
      odometry's quaternion. */
  lemma MapOdomTimesOdom(mapBase: Pose, odomBase: Pose)
    ensures Compose(MapOdom(mapBase, odomBase), odomBase) == Pose(mapBase.p, Scale(Norm2(odomBase.q), mapBase.q))
  {
    var m, o := mapBase, odomBase;
    var qi := Conj(o.q);
    RotateNeg(m.q, Rotate(qi, o.p));
    RotateTwice(m.q, qi, o.p);
    MulAssociative(m.q, qi, o.q);
    ConjMul(o.q);
    MulScalar(m.q, Norm2(o.q));
    hide Mul, Rotate, Norm2;
  }

  /** map->odom composed with odom->base is the EKF's map->base exactly when the odometry's quaternion is a unit one. */
  lemma PoseComesBackIff(mapBase: Pose, odomBase: Pose)
    requires Unit(mapBase.q)
    ensures Compose(MapOdom(mapBase, odomBase), odomBase) == mapBase <==> Unit(odomBase.q)
  {
    MapOdomTimesOdom(mapBase, odomBase);
    ScaleIsIdentityIff(Norm2(odomBase.q), mapBase.q);
    hide Mul, Rotate, Norm2, Scale, Compose, Inverse;
  }

  lemma ScaleIsIdentityIff(k: real, q: Quat)
    requires Unit(q)
    ensures Scale(k, q) == q <==> k == 1.0
  {
    if Scale(k, q) == q && k != 1.0 {
      FixedByFactor(k, q.x);
      FixedByFactor(k, q.y);
      FixedByFactor(k, q.z);
      FixedByFactor(k, q.w);
    }
  }

  lemma FixedByFactor(k: real, v: real)
    requires k * v == v && k != 1.0
    ensures v == 0.0
  {
    assert (k - 1.0) * v == 0.0;
  }

  /** The published transform has a unit rotation again. */
  lemma MapOdomIsUnit(mapBase: Pose, odomBase: Pose)
    requires Unit(mapBase.q) && Unit(odomBase.q)
    ensures Unit(MapOdom(mapBase, odomBase).q)
  {
    NormOfMul(mapBase.q, Conj(odomBase.q));
  }

  lemma NormOfMul(a: Quat, b: Quat)
    ensures Norm2(Mul(a, b)) == Norm2(a) * Norm2(b)
  {
    var m := Mul(a, b);
    ConjOfMul(a, b);
    ConjMul(m);
    ConjMul(a);
    ConjMul(b);
    MulAssociative(Conj(b), Conj(a), m);
    MulAssociative(Conj(a), a, b);
    MulScalar(b, Norm2(a));
    MulScaled(Norm2(a), Conj(b), b);
    hide Mul, Norm2;
  }

  // ----- interpolation

  function Dot(a: Quat, b: Quat): real {
    a.x * b.x + a.y * b.y + a.z * b.z + a.w * b.w
  }

  function Negated(q: Quat): Quat {
    Quat(-q.x, -q.y, -q.z, -q.w)
  }

  function Fraction(t0: real, t1: real, t: real): real {
    if t1 == t0 then 0.0 else (t - t0) / (t1 - t0)
  }

  function Mix(u: real, v: real, a: real): real {
    u + (v - u) * a
  }

  function Blend(p: Quat, q: Quat, a: real): Quat {
    Quat(Mix(p.x, q.x, a), Mix(p.y, q.y, a), Mix(p.z, q.z, a), Mix(p.w, q.w, a))
  }

  /** The short arc: the second quaternion is negated when the two point away from each other. */
  function Near(q0: Quat, q1: Quat): Quat {
    if Dot(q0, q1) < 0.0 then Negated(q1) else q1
  }

  /** interpolate before the quaternion is normalised. */
  function Chord(q0: Quat, q1: Quat, a: real): Quat {
    Blend(q0, Near(q0, q1), a)
  }

  /** interpolate: linear position, normalised linear quaternion.  root is the square root the code takes. */
  function Interpolate(p0: Pose, t0: real, p1: Pose, t1: real, t: real, root: real): Pose
    requires root != 0.0
  {
    var a := Fraction(t0, t1, t);
    var q := Chord(p0.q, p1.q, a);
    Pose(Vec(Mix(p0.p.x, p1.p.x, a), Mix(p0.p.y, p1.p.y, a), Mix(p0.p.z, p1.p.z, a)),
         Quat(q.x / root, q.y / root, q.z / root, q.w / root))
  }

  lemma BlendNorm(p: Quat, q: Quat, a: real)
    ensures Norm2(Blend(p, q, a))
         == (1.0 - a) * (1.0 - a) * Norm2(p) + a * a * Norm2(q) + 2.0 * a * (1.0 - a) * Dot(p, q)
  {
    MixSquare(p.x, q.x, a);
    MixSquare(p.y, q.y, a);
    MixSquare(p.z, q.z, a);
    MixSquare(p.w, q.w, a);
    Distribute((1.0 - a) * (1.0 - a), p.x * p.x, p.y * p.y, p.z * p.z, p.w * p.w);
    Distribute(a * a, q.x * q.x, q.y * q.y, q.z * q.z, q.w * q.w);
    Distribute(2.0 * a * (1.0 - a), p.x * q.x, p.y * q.y, p.z * q.z, p.w * q.w);
    hide Mix;
  }

  lemma MixSquare(u: real, v: real, a: real)
    ensures Mix(u, v, a) * Mix(u, v, a) == (1.0 - a) * (1.0 - a) * (u * u) + a * a * (v * v) + 2.0 * a * (1.0 - a) * (u * v)
  {
  }

  lemma NearFacts(q0: Quat, q1: Quat)
    requires Unit(q1)
    ensures Unit(Near(q0, q1)) && Dot(q0, Near(q0, q1)) >= 0.0
  {
  }

  lemma HalfAtLeast(a: real)
    ensures (1.0 - a) * (1.0 - a) + a * a >= 0.5
  {
    assert (1.0 - a) * (1.0 - a) + a * a == 2.0 * ((a - 0.5) * (a - 0.5)) + 0.5;
    Square(a - 0.5);
  }

  lemma Square(a: real)
    ensures a * a >= 0.0
  {
  }

  /** Between two unit quaternions, inside the interval, the chord's squared length is at least one half. */
  lemma ChordIsLong(q0: Quat, q1: Quat, a: real)
    requires Unit(q0) && Unit(q1) && 0.0 <= a <= 1.0
    ensures Norm2(Chord(q0, q1, a)) >= 0.5
  {
    hide Norm2, Dot, Near, Blend;
    var q := Near(q0, q1);
    NearFacts(q0, q1);
    BlendNorm(q0, q, a);
    UnitWeights(a, Norm2(q0), Norm2(q), Dot(q0, q));
  }

  lemma UnitWeights(a: real, n: real, m: real, d: real)
    requires 0.0 <= a <= 1.0 && n == 1.0 && m == 1.0 && d >= 0.0
    ensures (1.0 - a) * (1.0 - a) * n + a * a * m + 2.0 * a * (1.0 - a) * d >= 0.5
  {
    HalfAtLeast(a);
    Weighted(a, d);
  }

  lemma Weighted(a: real, d: real)
    requires 0.0 <= a <= 1.0 && d >= 0.0
    ensures 2.0 * a * (1.0 - a) * d >= 0.0
  {
    var k := a * (1.0 - a);
    Product(a, 1.0 - a);
    Product(k, d);
    assert 2.0 * a * (1.0 - a) * d == 2.0 * (k * d);
  }

  lemma Product(a: real, b: real)
    requires a >= 0.0 && b >= 0.0
    ensures a * b >= 0.0
  {
  }

  lemma FractionInside(t0: real, t1: real, t: real)
    requires t0 <= t <= t1
    ensures 0.0 <= Fraction(t0, t1, t) <= 1.0
  {
    if t0 != t1 {
      QuotientInside(t - t0, t1 - t0);
    }
  }

  lemma QuotientInside(n: real, d: real)
    requires 0.0 <= n <= d && d > 0.0
    ensures 0.0 <= n / d <= 1.0
  {
    var a := n / d;
    assert a * d == n;
    assert a < 0.0 ==> a * d < 0.0;
    assert a > 1.0 ==> a * d > 1.0 * d;
  }

  /** Interpolating between two unit poses never divides by zero and gives a unit rotation. */
  lemma InterpolateIsUnit(p0: Pose, t0: real, p1: Pose, t1: real, t: real, root: real)
    requires Unit(p0.q) && Unit(p1.q) && t0 <= t <= t1
    requires root >= 0.0 && root * root == Norm2(Chord(p0.q, p1.q, Fraction(t0, t1, t)))
    ensures root > 0.0 && Unit(Interpolate(p0, t0, p1, t1, t, root).q)
  {
    var a := Fraction(t0, t1, t);
    FractionInside(t0, t1, t);
    var q := Chord(p0.q, p1.q, a);
    ChordIsLong(p0.q, p1.q, a);
    hide Chord, Fraction;
    assert root != 0.0;
    Normalised(q, root);
  }

  lemma Normalised(q: Quat, root: real)
    requires root != 0.0 && root * root == Norm2(q)
    ensures Unit(Quat(q.x / root, q.y / root, q.z / root, q.w / root))
  {
    var k := 1.0 / root;
    Divided(q.x, root);
    Divided(q.y, root);
    Divided(q.z, root);
    Divided(q.w, root);
    assert k * root == 1.0;
    assert (k * k) * (root * root) == (k * root) * (k * root);
    assert (k * q.x) * (k * q.x) + (k * q.y) * (k * q.y) + (k * q.z) * (k * q.z) + (k * q.w) * (k * q.w)
        == (k * k) * Norm2(q);
  }

  lemma Divided(v: real, root: real)
    requires root != 0.0
    ensures v / root == (1.0 / root) * v
  {
  }

  /** v is as far from v0 towards v1 as t is from t0 towards t1. */
  predicate Linear(v0: real, t0: real, v1: real, t1: real, v: real, t: real) {
    (t1 - t0) * (v - v0) == (t - t0) * (v1 - v0)
  }

  /** The same, but v is still to be multiplied by root. */
  predicate LinearTimes(v0: real, t0: real, v1: real, t1: real, v: real, t: real, root: real) {
    root * (t1 - t0) * v == (t1 - t) * v0 + (t - t0) * v1
  }

  lemma MixIsLinear(v0: real, t0: real, v1: real, t1: real, t: real)
    requires t0 < t1
    ensures Linear(v0, t0, v1, t1, Mix(v0, v1, Fraction(t0, t1, t)), t)
  {
    var a := Fraction(t0, t1, t);
    assert a * (t1 - t0) == t - t0;
    assert (a * (t1 - t0)) * (v1 - v0) == (t1 - t0) * ((v1 - v0) * a);
  }

  lemma MixOverRoot(v0: real, t0: real, v1: real, t1: real, t: real, root: real)
    requires t0 < t1 && root != 0.0
    ensures LinearTimes(v0, t0, v1, t1, Mix(v0, v1, Fraction(t0, t1, t)) / root, t, root)
  {
    MixIsLinear(v0, t0, v1, t1, t);
    hide Mix, Fraction;
    var m, d := Mix(v0, v1, Fraction(t0, t1, t)), t1 - t0;
    var k := m / root;
    assert k * root == m;
    assert root * d * k == d * (k * root);
  }

  /** Linear in the time: the position moves by the share of the interval that has passed, and so does the rotation on the
      short arc, before it is normalised. */
  lemma InterpolateIsLinear(p0: Pose, t0: real, p1: Pose, t1: real, t: real, root: real)
    requires t0 < t1 && root != 0.0
    ensures var r, q := Interpolate(p0, t0, p1, t1, t, root), Near(p0.q, p1.q);
      && Linear(p0.p.x, t0, p1.p.x, t1, r.p.x, t) && Linear(p0.p.y, t0, p1.p.y, t1, r.p.y, t)
      && Linear(p0.p.z, t0, p1.p.z, t1, r.p.z, t)
      && LinearTimes(p0.q.x, t0, q.x, t1, r.q.x, t, root) && LinearTimes(p0.q.y, t0, q.y, t1, r.q.y, t, root)
      && LinearTimes(p0.q.z, t0, q.z, t1, r.q.z, t, root) && LinearTimes(p0.q.w, t0, q.w, t1, r.q.w, t, root)
  {
    hide Fraction, Near, Mix, Linear, LinearTimes;
    var q := Near(p0.q, p1.q);
    MixIsLinear(p0.p.x, t0, p1.p.x, t1, t);
    MixIsLinear(p0.p.y, t0, p1.p.y, t1, t);
    MixIsLinear(p0.p.z, t0, p1.p.z, t1, t);
    MixOverRoot(p0.q.x, t0, q.x, t1, t, root);
    MixOverRoot(p0.q.y, t0, q.y, t1, t, root);
    MixOverRoot(p0.q.z, t0, q.z, t1, t, root);
    MixOverRoot(p0.q.w, t0, q.w, t1, t, root);
  }

  /** Without time in between it gives the first pose. */
  lemma InterpolateAtOnce(p0: Pose, p1: Pose, t0: real, t: real)
    ensures Chord(p0.q, p1.q, Fraction(t0, t0, t)) == p0.q && Interpolate(p0, t0, p1, t0, t, 1.0) == p0
  {
    assert Fraction(t0, t0, t) == 0.0;
    hide Fraction, Near;
    BlendEnds(p0.q, Near(p0.q, p1.q));
    assert p0.p == Vec(Mix(p0.p.x, p1.p.x, 0.0), Mix(p0.p.y, p1.p.y, 0.0), Mix(p0.p.z, p1.p.z, 0.0));
  }

  /** At the two ends it gives the end positions, the first rotation, and the second rotation, negated if the two point away
      from each other. */
  lemma InterpolateEnds(p0: Pose, t0: real, p1: Pose, t1: real)
    requires Unit(p0.q) && Unit(p1.q) && t0 < t1
    ensures Norm2(Chord(p0.q, p1.q, Fraction(t0, t1, t0))) == 1.0 == Norm2(Chord(p0.q, p1.q, Fraction(t0, t1, t1)))
    ensures Interpolate(p0, t0, p1, t1, t0, 1.0) == p0
    ensures Interpolate(p0, t0, p1, t1, t1, 1.0) == Pose(p1.p, Near(p0.q, p1.q))
    ensures Near(p0.q, p1.q) == if p0.q.x * p1.q.x + p0.q.y * p1.q.y + p0.q.z * p1.q.z + p0.q.w * p1.q.w >= 0.0 then p1.q
                                else Quat(-p1.q.x, -p1.q.y, -p1.q.z, -p1.q.w)
  {
    assert Fraction(t0, t1, t0) == 0.0 && Fraction(t0, t1, t1) == 1.0;
    hide Fraction;
    NearFacts(p0.q, p1.q);
    hide Near;
    BlendEnds(p0.q, Near(p0.q, p1.q));
    assert p0.p == Vec(Mix(p0.p.x, p1.p.x, 0.0), Mix(p0.p.y, p1.p.y, 0.0), Mix(p0.p.z, p1.p.z, 0.0));
  }

  lemma BlendEnds(p: Quat, q: Quat)
    ensures Blend(p, q, 0.0) == p && Blend(p, q, 1.0) == q
  {
  }

  /** Rotating by -q is rotating by q, so the sign lost on the short arc does not matter. */
  lemma NegatedRotatesAlike(q: Quat, v: Vec)
    ensures Rotate(Negated(q), v) == Rotate(q, v)
  {
    assert Negated(q) == Scale(-1.0, q) && Conj(Negated(q)) == Scale(-1.0, Conj(q));
    hide Mul;
    MulScaled(-1.0, q, Pure(v));
    var m := Mul(q, Pure(v));
    MulScaled(-1.0, m, Conj(q));
    MulScaled(-1.0, Scale(-1.0, m), Conj(q));
    assert Scale(-1.0, Scale(-1.0, Mul(m, Conj(q)))) == Mul(m, Conj(q));
  }
}
