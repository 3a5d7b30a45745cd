/**
 * Two-dimensional points and vectors on the horizontal plane, over the reals.
 * Babylon's Vector2 works on doubles; this model works on exact reals.
 */
module Geometry {
  datatype Vec2 = Vec2(x: real, y: real)

  const Zero: Vec2 := Vec2(0.0, 0.0)

  function Add(a: Vec2, b: Vec2): Vec2 { Vec2(a.x + b.x, a.y + b.y) }

  function Sub(a: Vec2, b: Vec2): Vec2 { Vec2(a.x - b.x, a.y - b.y) }

  function Scale(a: Vec2, k: real): Vec2 { Vec2(a.x * k, a.y * k) }

  function Dot(a: Vec2, b: Vec2): real { a.x * b.x + a.y * b.y }

  /** The square of a real, kept as a term of its own so that the solver treats it as one. */
  function Sq(r: real): real { r * r }

  /** A square is never negative. */
  lemma SqNonNeg(r: real)
    ensures 0.0 <= Sq(r)
  {
    if r < 0.0 {
      assert Sq(r) == (-r) * (-r);
    }
  }

  /** The square of a non-zero real is positive. */
  lemma SqPos(r: real)
    requires r != 0.0
    ensures 0.0 < Sq(r)
  {
    if 0.0 < r {
      calc { Sq(r); == r * r; > 0.0; }
    } else {
      calc { Sq(r); == (-r) * (-r); > 0.0; }
    }
  }

  /** Only zero squares to zero. */
  lemma SqZero(r: real)
    ensures Sq(r) == 0.0 <==> r == 0.0
  {
    if r != 0.0 {
      SqPos(r);
    }
  }

  /** Squaring is strictly increasing on the non-negative reals. */
  lemma SqStrictMono(a: real, b: real)
    requires 0.0 <= a < b
    ensures Sq(a) < Sq(b)
  {
    calc {
      Sq(a);
      == a * a;
      <= a * b;
      < b * b;
      == Sq(b);
    }
  }

  /** Two non-negative reals compare as their squares do. */
  lemma CompareBySquares(a: real, b: real)
    requires 0.0 <= a && 0.0 <= b
    ensures a < b <==> Sq(a) < Sq(b)
  {
    if a < b {
      SqStrictMono(a, b);
    } else if b < a {
      SqStrictMono(b, a);
    }
  }

  /** Vector2.lengthSquared */
  function LengthSq(a: Vec2): (r: real)
    ensures 0.0 <= r
  {
    SqNonNeg(a.x);
    SqNonNeg(a.y);
    Sq(a.x) + Sq(a.y)
  }

  /** Only the zero vector has length zero; every other vector has a positive one. */
  lemma LengthSqZero(a: Vec2)
    ensures LengthSq(a) == 0.0 <==> a == Zero
    ensures a != Zero ==> 0.0 < LengthSq(a)
  {
    SqNonNeg(a.x);
    SqNonNeg(a.y);
    SqZero(a.x);
    SqZero(a.y);
  }

  /**
   * Vector2.DistanceSquared: the squared length of the difference, taken here
   * as b - a so that it is literally the squared length of the vector from a to b.
   */
  function DistSq(a: Vec2, b: Vec2): real { LengthSq(Sub(b, a)) }

  /** The z-component of Vector3.Cross((a.x, a.y, 0), (b.x, b.y, 0)). */
  function CrossZ(a: Vec2, b: Vec2): real { a.x * b.y - a.y * b.x }

  /**
   * Vector2.normalize given the vector's length: a zero vector is left as it is,
   * any other vector is divided by its length.
   */
  function Normalized(v: Vec2, len: real): Vec2 {
    if len == 0.0 then v else Scale(v, 1.0 / len)
  }

  /**
   * `sqrt` is the square root on the non-negative reals. The reals of Dafny have no
   * square root, so the classes that need one are given such a function; on
   * non-negative arguments it is unique, so this fixes Math.sqrt up to rounding.
   */
  ghost predicate IsSqrt(sqrt: real -> real) {
    forall x: real :: 0.0 <= x ==> 0.0 <= sqrt(x) && Sq(sqrt(x)) == x
  }

  /** The root of a non-negative number squares back to it, and is zero only for zero. */
  lemma SqrtOf(sqrt: real -> real, n: real)
    requires IsSqrt(sqrt) && 0.0 <= n
    ensures 0.0 <= sqrt(n) && Sq(sqrt(n)) == n
    ensures sqrt(n) == 0.0 <==> n == 0.0
  {
    SqZero(sqrt(n));
  }

  /** The length of a vector through the square root: it squares back to LengthSq. */
  lemma SqrtOfLengthSq(sqrt: real -> real, v: Vec2)
    requires IsSqrt(sqrt)
    ensures 0.0 <= sqrt(LengthSq(v)) && Sq(sqrt(LengthSq(v))) == LengthSq(v)
    ensures sqrt(LengthSq(v)) == 0.0 <==> v == Zero
  {
    SqrtOf(sqrt, LengthSq(v));
    LengthSqZero(v);
  }

  /** The squared distance from v to the line through the origin along a (a non-zero). */
  function PerpDistSq(v: Vec2, a: Vec2): real
    requires 0.0 < LengthSq(a)
  {
    LengthSq(v) - Sq(Dot(a, v)) / LengthSq(a)
  }

  /**
   * Lagrange's identity: the squared perpendicular distance is the squared cross
   * product over |a|^2, hence never negative.
   */
  lemma PerpDistSqIsCross(v: Vec2, a: Vec2)
    requires 0.0 < LengthSq(a)
    ensures PerpDistSq(v, a) == Sq(CrossZ(a, v)) / LengthSq(a)
    ensures 0.0 <= PerpDistSq(v, a)
  {
    var n := LengthSq(a);
    var d := Dot(a, v);
    var c := CrossZ(a, v);
    assert n * LengthSq(v) == Sq(d) + Sq(c);
    assert LengthSq(v) == (Sq(d) + Sq(c)) / n;
    SqNonNeg(c);
  }

  /**
   * Projecting on the axis after normalising it by its length gives the same
   * squared perpendicular distance as the unnormalised formula.
   */
  lemma NormalizedProjection(v: Vec2, a: Vec2, len: real)
    requires 0.0 < len && Sq(len) == LengthSq(a)
    ensures LengthSq(v) - Sq(Dot(Normalized(a, len), v)) == PerpDistSq(v, a)
  {
    var e := Dot(a, v);
    assert Dot(Normalized(a, len), v) == e / len;
    assert Sq(e / len) == Sq(e) / Sq(len);
  }

  /** Scaling the second argument by a positive factor does not change the sign of CrossZ. */
  lemma CrossSignUnderScaling(f: Vec2, a: Vec2, k: real)
    requires 0.0 < k
    ensures CrossZ(f, Scale(a, k)) > 0.0 <==> CrossZ(f, a) > 0.0
  {
    assert CrossZ(f, Scale(a, k)) == k * CrossZ(f, a);
  }

  /** A non-zero multiple of a non-zero vector is non-zero. */
  lemma ScaledNonZero(v: Vec2, k: real)
    requires v != Zero && k != 0.0
    ensures Scale(v, k) != Zero
  {
    if v.x != 0.0 {
      assert Scale(v, k).x != 0.0;
    } else {
      assert Scale(v, k).y != 0.0;
    }
  }

  /** The dot product of two multiples of one vector. */
  lemma DotOfMultiples(d: Vec2, a: real, b: real)
    ensures Dot(Scale(d, a), Scale(d, b)) == a * b * LengthSq(d)
  {
  }

  /**
   * The right perpendicular of v divided by a length of v is a unit vector
   * orthogonal to v.
   */
  lemma UnitPerpendicular(v: Vec2, len: real)
    requires len != 0.0 && Sq(len) == LengthSq(v)
    ensures Dot(Scale(Vec2(v.y, -v.x), 1.0 / len), v) == 0.0
    ensures LengthSq(Scale(Vec2(v.y, -v.x), 1.0 / len)) == 1.0
  {
    assert LengthSq(Scale(Vec2(v.y, -v.x), 1.0 / len)) == LengthSq(v) / Sq(len);
  }

  /** Reversing a vector keeps its length and reverses its dot products. */
  lemma Reversed(v: Vec2, u: Vec2)
    ensures LengthSq(Scale(v, -1.0)) == LengthSq(v)
    ensures Dot(u, Scale(v, -1.0)) == -Dot(u, v)
  {
    assert Sq(-v.x) == Sq(v.x) && Sq(-v.y) == Sq(v.y);
  }
}
