/**
 Conversions between Y-up and Z-up, over the exact reals.

 The program's constant is the floating point value of half the square root of two; here it is any real whose
 square is one half.
 */
module AxisConversion {

  datatype Quat = Quat(w: real, x: real, y: real, z: real)

  datatype Vec = Vec(x: real, y: real, z: real)

  /** Hamilton product. */
  function Mul(a: Quat, b: Quat): Quat {
    Quat(a.w * b.w - a.x * b.x - a.y * b.y - a.z * b.z,
         a.w * b.x + a.x * b.w + a.y * b.z - a.z * b.y,
         a.w * b.y - a.x * b.z + a.y * b.w + a.z * b.x,
         a.w * b.z + a.x * b.y - a.y * b.x + a.z * b.w)
  }

  function Inverse(q: Quat): Quat {
    Quat(q.w, -q.x, -q.y, -q.z)
  }

  /** Basis change by a unit quaternion. */
  function Conjugate(conv: Quat, q: Quat): Quat {
    Mul(Mul(conv, q), Inverse(conv))
  }

  ghost predicate IsHalfSqrt2(h: real) {
    h * h == 0.5
  }

  function YupToZup(h: real): Quat { Quat(h, h, 0.0, 0.0) }

  function ZupToYup(h: real): Quat { Quat(h, -h, 0.0, 0.0) }

  function YupToZupVec(v: Vec): Vec { Vec(v.x, -v.z, v.y) }

  function ZupToYupVec(v: Vec): Vec { Vec(v.x, v.z, -v.y) }

  function YupToZupQuat(h: real, q: Quat): Quat { Conjugate(YupToZup(h), q) }

  function ZupToYupQuat(h: real, q: Quat): Quat { Conjugate(ZupToYup(h), q) }

  function YupToZupScale(s: Vec): Vec { Vec(s.x, s.z, s.y) }

  function ZupToYupScale(s: Vec): Vec { Vec(s.x, s.z, s.y) }

  function ComposeAxisRotation(h: real, q: Quat): Quat { Mul(YupToZup(h), q) }

  function StripAxisRotation(h: real, q: Quat): Quat { Mul(ZupToYup(h), q) }

  // ---------------------------------------------------------------- the basis change

  /** A quaternion multiplied by a number. */
  function Times(h: real, q: Quat): Quat { Quat(h * q.w, h * q.x, h * q.y, h * q.z) }

  function Dot(p: Quat, q: Quat): real { p.w * q.w + p.x * q.x + p.y * q.y + p.z * q.z }

  // A common factor moves out of a product. Naming the terms keeps its four sums apart.

  lemma PullDot(h: real, p: Quat, q: Quat, hp: Quat, t: real, r: real)
    requires hp == Times(h, p) && t == Dot(p, q) && r == Dot(hp, q)
    ensures r == h * t
  {
  }

  lemma MulByDots(a: Quat, b: Quat, t: Quat)
    requires t == Mul(a, b)
    ensures t.w == Dot(a, Quat(b.w, -b.x, -b.y, -b.z)) && t.x == Dot(a, Quat(b.x, b.w, b.z, -b.y))
    ensures t.y == Dot(a, Quat(b.y, -b.z, b.w, b.x)) && t.z == Dot(a, Quat(b.z, b.y, -b.x, b.w))
  {
  }

  lemma PullLeft(h: real, a: Quat, b: Quat, ha: Quat, t: Quat, r: Quat)
    requires ha == Times(h, a) && t == Mul(a, b) && r == Mul(ha, b)
    ensures r.w == h * t.w && r.x == h * t.x && r.y == h * t.y && r.z == h * t.z
  {
    MulByDots(a, b, t);
    MulByDots(ha, b, r);
    PullDot(h, a, Quat(b.w, -b.x, -b.y, -b.z), ha, t.w, r.w);
    PullDot(h, a, Quat(b.x, b.w, b.z, -b.y), ha, t.x, r.x);
    PullDot(h, a, Quat(b.y, -b.z, b.w, b.x), ha, t.y, r.y);
    PullDot(h, a, Quat(b.z, b.y, -b.x, b.w), ha, t.z, r.z);
  }

  lemma PullRight(h: real, a: Quat, b: Quat, hb: Quat, t: Quat, r: Quat)
    requires hb == Times(h, b) && t == Mul(a, b) && r == Mul(a, hb)
    ensures r.w == h * t.w && r.x == h * t.x && r.y == h * t.y && r.z == h * t.z
  {
  }

  lemma TimesByParts(h: real, t: Quat, r: Quat)
    requires r.w == h * t.w && r.x == h * t.x && r.y == h * t.y && r.z == h * t.z
    ensures r == Times(h, t)
  {
  }

  lemma MulTimes(h: real, a: Quat, b: Quat)
    ensures Mul(Times(h, a), b) == Times(h, Mul(a, b))
    ensures Mul(a, Times(h, b)) == Times(h, Mul(a, b))
  {
    var t, l, r := Mul(a, b), Mul(Times(h, a), b), Mul(a, Times(h, b));
    PullLeft(h, a, b, Times(h, a), t, l);
    PullRight(h, a, b, Times(h, b), t, r);
    TimesByParts(h, t, l);
    TimesByParts(h, t, r);
  }

  lemma TimesTwice(h: real, q: Quat)
    requires IsHalfSqrt2(h)
    ensures Times(h, Times(h, q)) == Times(0.5, q)
  {
  }

  /** The quarter turn about x without its length, and its inverse. */
  const TURN := Quat(1.0, 1.0, 0.0, 0.0)
  const TURN_BACK := Quat(1.0, -1.0, 0.0, 0.0)

  lemma TurnIsScaled(h: real)
    ensures YupToZup(h) == Times(h, TURN) && ZupToYup(h) == Times(h, TURN_BACK)
    ensures Inverse(YupToZup(h)) == Times(h, TURN_BACK) && Inverse(ZupToYup(h)) == Times(h, TURN)
  {
  }

  lemma ConjugateIs(h: real, u: Quat, v: Quat, q: Quat)
    requires IsHalfSqrt2(h)
    ensures Mul(Mul(Times(h, u), q), Times(h, v)) == Times(0.5, Mul(Mul(u, q), v))
  {
    MulTimes(h, u, q);
    MulTimes(h, Mul(u, q), Times(h, v));
    MulTimes(h, Mul(u, q), v);
    TimesTwice(h, Mul(Mul(u, q), v));
  }

  lemma YupToZupQuatIs(h: real, q: Quat)
    requires IsHalfSqrt2(h)
    ensures YupToZupQuat(h, q) == Quat(q.w, q.x, -q.z, q.y)
  {
    TurnIsScaled(h);
    ConjugateIs(h, TURN, TURN_BACK, q);
  }

  lemma ZupToYupQuatIs(h: real, q: Quat)
    requires IsHalfSqrt2(h)
    ensures ZupToYupQuat(h, q) == Quat(q.w, q.x, q.z, -q.y)
  {
    TurnIsScaled(h);
    ConjugateIs(h, TURN_BACK, TURN, q);
  }

  /** The two basis changes undo each other. */
  lemma QuatsRoundTrip(h: real, q: Quat)
    requires IsHalfSqrt2(h)
    ensures ZupToYupQuat(h, YupToZupQuat(h, q)) == q
    ensures YupToZupQuat(h, ZupToYupQuat(h, q)) == q
  {
    YupToZupQuatIs(h, q);
    ZupToYupQuatIs(h, YupToZupQuat(h, q));
    ZupToYupQuatIs(h, q);
    YupToZupQuatIs(h, ZupToYupQuat(h, q));
  }

  lemma Signs(x: real, q: Quat)
    ensures (-x) * q.w == -(x * q.w) && (-x) * q.x == -(x * q.x)
    ensures (-x) * q.y == -(x * q.y) && (-x) * q.z == -(x * q.z)
    ensures q.w * (-x) == -(q.w * x) && q.x * (-x) == -(q.x * x)
    ensures q.y * (-x) == -(q.y * x) && q.z * (-x) == -(q.z * x)
    ensures (-q.y) * (-x) == q.y * x && (-q.z) * (-x) == q.z * x
  {
  }

  lemma SwappedProduct(a: Quat, b: Quat)
    ensures var p := Mul(a, b);
      Mul(Quat(a.w, a.x, -a.z, a.y), Quat(b.w, b.x, -b.z, b.y)) == Quat(p.w, p.x, -p.z, p.y)
  {
    Signs(a.z, b);
    Signs(b.z, a);
  }

  lemma SwappedBackProduct(a: Quat, b: Quat)
    ensures var p := Mul(a, b);
      Mul(Quat(a.w, a.x, a.z, -a.y), Quat(b.w, b.x, b.z, -b.y)) == Quat(p.w, p.x, p.z, -p.y)
  {
    Signs(a.y, b);
    Signs(b.y, a);
  }

  /** Converting a product is multiplying the converted factors. */
  lemma ConversionIsMultiplicative(h: real, a: Quat, b: Quat)
    requires IsHalfSqrt2(h)
    ensures YupToZupQuat(h, Mul(a, b)) == Mul(YupToZupQuat(h, a), YupToZupQuat(h, b))
    ensures ZupToYupQuat(h, Mul(a, b)) == Mul(ZupToYupQuat(h, a), ZupToYupQuat(h, b))
  {
    YupToZupQuatIs(h, a);
    YupToZupQuatIs(h, b);
    YupToZupQuatIs(h, Mul(a, b));
    SwappedProduct(a, b);
    ZupToYupQuatIs(h, a);
    ZupToYupQuatIs(h, b);
    ZupToYupQuatIs(h, Mul(a, b));
    SwappedBackProduct(a, b);
  }

  function NormSquared(q: Quat): real { Dot(q, q) }

  lemma ConversionKeepsNorm(h: real, q: Quat)
    requires IsHalfSqrt2(h)
    ensures NormSquared(YupToZupQuat(h, q)) == NormSquared(q)
    ensures NormSquared(ZupToYupQuat(h, q)) == NormSquared(q)
  {
    YupToZupQuatIs(h, q);
    ZupToYupQuatIs(h, q);
  }

  // ---------------------------------------------------------------- rotations and vectors

  /** A vector as a pure quaternion. */
  function Pure(v: Vec): Quat { Quat(0.0, v.x, v.y, v.z) }

  function VecOf(q: Quat): Vec { Vec(q.x, q.y, q.z) }

  /** The rotation that a quaternion stands for, scaled by its squared norm. */
  function Rotate(q: Quat, v: Vec): Vec { VecOf(Mul(Mul(q, Pure(v)), Inverse(q))) }

  /** The vector formulas are the basis change of the pure quaternion. */
  lemma VecsAreConjugates(h: real, v: Vec)
    requires IsHalfSqrt2(h)
    ensures Conjugate(YupToZup(h), Pure(v)) == Pure(YupToZupVec(v))
    ensures Conjugate(ZupToYup(h), Pure(v)) == Pure(ZupToYupVec(v))
    ensures Rotate(YupToZup(h), v) == YupToZupVec(v) && Rotate(ZupToYup(h), v) == ZupToYupVec(v)
  {
    YupToZupQuatIs(h, Pure(v));
    ZupToYupQuatIs(h, Pure(v));
  }

  /** Rotating and then converting is converting and then rotating. */
  lemma RotationCommutes(h: real, q: Quat, v: Vec)
    requires IsHalfSqrt2(h)
    ensures YupToZupVec(Rotate(q, v)) == Rotate(YupToZupQuat(h, q), YupToZupVec(v))
    ensures ZupToYupVec(Rotate(q, v)) == Rotate(ZupToYupQuat(h, q), ZupToYupVec(v))
  {
    var p := Mul(q, Pure(v));
    VecsAreConjugates(h, v);
    ConversionIsMultiplicative(h, q, Pure(v));
    ConversionIsMultiplicative(h, p, Inverse(q));
    YupToZupQuatIs(h, q);
    YupToZupQuatIs(h, Inverse(q));
    YupToZupQuatIs(h, Mul(p, Inverse(q)));
    ZupToYupQuatIs(h, q);
    ZupToYupQuatIs(h, Inverse(q));
    ZupToYupQuatIs(h, Mul(p, Inverse(q)));
  }

  function Scale(s: Vec, v: Vec): Vec { Vec(s.x * v.x, s.y * v.y, s.z * v.z) }

  function Plus(a: Vec, b: Vec): Vec { Vec(a.x + b.x, a.y + b.y, a.z + b.z) }

  /** Scale, then rotate, then translate a point. */
  function Place(t: Vec, q: Quat, s: Vec, point: Vec): Vec { Plus(t, Rotate(q, Scale(s, point))) }

  lemma ScalesConvert(s: Vec, v: Vec)
    ensures YupToZupVec(Scale(s, v)) == Scale(YupToZupScale(s), YupToZupVec(v))
    ensures ZupToYupVec(Scale(s, v)) == Scale(ZupToYupScale(s), ZupToYupVec(v))
  {
  }

  lemma SumsConvert(a: Vec, b: Vec)
    ensures YupToZupVec(Plus(a, b)) == Plus(YupToZupVec(a), YupToZupVec(b))
    ensures ZupToYupVec(Plus(a, b)) == Plus(ZupToYupVec(a), ZupToYupVec(b))
  {
  }

  /** A converted transform places a converted point where the original one's image is converted to. */
  lemma PlacementCommutes(h: real, t: Vec, q: Quat, s: Vec, point: Vec)
    requires IsHalfSqrt2(h)
    ensures YupToZupVec(Place(t, q, s, point))
         == Place(YupToZupVec(t), YupToZupQuat(h, q), YupToZupScale(s), YupToZupVec(point))
    ensures ZupToYupVec(Place(t, q, s, point))
         == Place(ZupToYupVec(t), ZupToYupQuat(h, q), ZupToYupScale(s), ZupToYupVec(point))
  {
    ScalesConvert(s, point);
    RotationCommutes(h, q, Scale(s, point));
    SumsConvert(t, Rotate(q, Scale(s, point)));
  }

  // ---------------------------------------------------------------- compose and strip

  lemma TurnBothWays(q: Quat)
    ensures Mul(TURN_BACK, Mul(TURN, q)) == Times(2.0, q) && Mul(TURN, Mul(TURN_BACK, q)) == Times(2.0, q)
  {
  }

  /** Stripping removes exactly what composing put in front, and the other way round. */
  lemma StripUndoesCompose(h: real, q: Quat)
    requires IsHalfSqrt2(h)
    ensures StripAxisRotation(h, ComposeAxisRotation(h, q)) == q
    ensures ComposeAxisRotation(h, StripAxisRotation(h, q)) == q
  {
    TurnIsScaled(h);
    TurnBothWays(q);
    MulTimes(h, TURN, q);
    MulTimes(h, TURN_BACK, Times(h, Mul(TURN, q)));
    MulTimes(h, TURN_BACK, Mul(TURN, q));
    TimesTwice(h, Times(2.0, q));
    MulTimes(h, TURN_BACK, q);
    MulTimes(h, TURN, Times(h, Mul(TURN_BACK, q)));
    MulTimes(h, TURN, Mul(TURN_BACK, q));
  }

  lemma TurnAssociates(a: Quat, b: Quat)
    ensures Mul(Mul(TURN, a), b) == Mul(TURN, Mul(a, b))
  {
    var l, p := Mul(Mul(TURN, a), b), Mul(a, b);
    assert l.w == p.w - p.x;
    assert l.x == p.x + p.w;
    assert l.y == p.y - p.z;
    assert l.z == p.z + p.y;
  }

  function Minus(a: Quat, b: Quat): Quat { Quat(a.w - b.w, a.x - b.x, a.y - b.y, a.z - b.z) }

  /** The product with the unit along x on the right. */
  function TimesI(q: Quat): Quat { Quat(-q.x, q.w, q.z, -q.y) }

  lemma TurnBack(q: Quat)
    ensures Mul(q, TURN_BACK) == Minus(q, TimesI(q))
  {
  }

  lemma Spread(x: real, b: Quat, c: Quat)
    ensures x * (b.w - c.w) == x * b.w - x * c.w && x * (b.x - c.x) == x * b.x - x * c.x
    ensures x * (b.y - c.y) == x * b.y - x * c.y && x * (b.z - c.z) == x * b.z - x * c.z
  {
  }

  lemma MulMinusWX(a: Quat, b: Quat, c: Quat)
    ensures Mul(a, Minus(b, c)).w == Mul(a, b).w - Mul(a, c).w
    ensures Mul(a, Minus(b, c)).x == Mul(a, b).x - Mul(a, c).x
  {
    Spread(a.w, b, c);
    Spread(a.x, b, c);
    Spread(a.y, b, c);
    Spread(a.z, b, c);
  }

  lemma MulMinusYZ(a: Quat, b: Quat, c: Quat)
    ensures Mul(a, Minus(b, c)).y == Mul(a, b).y - Mul(a, c).y
    ensures Mul(a, Minus(b, c)).z == Mul(a, b).z - Mul(a, c).z
  {
    Spread(a.w, b, c);
    Spread(a.x, b, c);
    Spread(a.y, b, c);
    Spread(a.z, b, c);
  }

  lemma MulMinus(a: Quat, b: Quat, c: Quat)
    ensures Mul(a, Minus(b, c)) == Minus(Mul(a, b), Mul(a, c))
  {
    MulMinusWX(a, b, c);
    MulMinusYZ(a, b, c);
  }

  lemma MulTimesI(a: Quat, b: Quat)
    ensures Mul(a, TimesI(b)) == TimesI(Mul(a, b))
  {
    Signs(b.x, a);
    Signs(b.y, a);
  }

  lemma TurnBackAssociates(a: Quat, b: Quat)
    ensures Mul(a, Mul(b, TURN_BACK)) == Mul(Mul(a, b), TURN_BACK)
  {
    TurnBack(b);
    TurnBack(Mul(a, b));
    MulMinus(a, b, TimesI(b));
    MulTimesI(a, b);
  }

  lemma InverseTimes(h: real, q: Quat)
    ensures Inverse(Times(h, q)) == Times(h, Inverse(q))
  {
  }

  lemma InverseOfTurned(q: Quat)
    ensures Inverse(Mul(TURN, q)) == Mul(Inverse(q), TURN_BACK)
  {
  }

  /** A composed rotation is the original rotation followed by the conversion of its image. */
  lemma ComposedRotates(h: real, q: Quat, v: Vec)
    requires IsHalfSqrt2(h)
    ensures Rotate(ComposeAxisRotation(h, q), v) == YupToZupVec(Rotate(q, v))
  {
    var t, p := Mul(TURN, q), Mul(q, Pure(v));
    TurnIsScaled(h);
    MulTimes(h, TURN, q);
    InverseOfTurned(q);
    InverseTimes(h, t);
    ConjugateIs(h, t, Mul(Inverse(q), TURN_BACK), Pure(v));
    TurnAssociates(q, Pure(v));
    TurnBackAssociates(Mul(TURN, p), Inverse(q));
    TurnAssociates(p, Inverse(q));
    YupToZupQuatIs(h, Mul(p, Inverse(q)));
    ConjugateIs(h, TURN, TURN_BACK, Mul(p, Inverse(q)));
  }
}
