/**
 * The point helpers of CCBlade.cpp: vector arithmetic on CGPoint, the
 * distance, the full-circle angle, rotation about a pivot and the two border
 * points of a ribbon segment.
 *
 * Coordinates are exact reals. The floating-point library routines the
 * source calls (sqrtf, atan, cosf, sinf) are not modelled: they are the
 * fields of a MathLib value, so nothing is assumed about them unless a lemma
 * states it as a hypothesis.
 */
module Geometry {

  /** A CGPoint (a ccVertex2F): two coordinates. */
  datatype Point = Point(x: real, y: real)

  const Origin: Point := Point(0.0, 0.0)

  /** M_PI as the C headers define it. */
  const Pi: real := 3.14159265358979323846

  /** Stand-ins for sqrtf, atan, cosf and sinf. */
  datatype MathLib = MathLib(sqrt: real -> real, atan: real -> real, cos: real -> real, sin: real -> real)

  /** True when `lib.sqrt` is the exact non-negative square root at `x`. */
  predicate SqrtExactAt(lib: MathLib, x: real)
  {
    lib.sqrt(x) >= 0.0 && lib.sqrt(x) * lib.sqrt(x) == x
  }

  /** True when cosine and sine at `a` lie on the unit circle. */
  predicate OnUnitCircle(lib: MathLib, a: real)
  {
    lib.cos(a) * lib.cos(a) + lib.sin(a) * lib.sin(a) == 1.0
  }

  function Sub(v1: Point, v2: Point): Point
  {
    Point(v1.x - v2.x, v1.y - v2.y)
  }

  function Add(v1: Point, v2: Point): Point
  {
    Point(v1.x + v2.x, v1.y + v2.y)
  }

  function Mult(v: Point, s: real): Point
  {
    Point(v.x * s, v.y * s)
  }

  function Dot(v1: Point, v2: Point): real
  {
    v1.x * v2.x + v1.y * v2.y
  }

  /** The squared length is never negative. */
  function LengthSQ(v: Point): (r: real)
    ensures r >= 0.0
  {
    SquareSign(v.x);
    SquareSign(v.y);
    Dot(v, v)
  }

  lemma SquareSign(a: real)
    ensures a * a >= 0.0
  {
    if a < 0.0 {
      assert a * a == (-a) * (-a);
    }
  }

  function Length(lib: MathLib, v: Point): real
  {
    lib.sqrt(LengthSQ(v))
  }

  function Distance(lib: MathLib, v1: Point, v2: Point): real
  {
    Length(lib, Sub(v1, v2))
  }

  /** Rotation of `v` about `pivot` by `angle`: translate, apply the rotation matrix, translate back. */
  function Rotate(lib: MathLib, v: Point, pivot: Point, angle: real): Point
  {
    var r := Sub(v, pivot);
    var cosa := lib.cos(angle);
    var sina := lib.sin(angle);
    Point(r.x * cosa - r.y * sina + pivot.x, r.x * sina + r.y * cosa + pivot.y)
  }

  /** The direction of `v`, with explicit branches for the zero vector, the vertical axis and the negative horizontal axis. */
  function Angle(lib: MathLib, v: Point): real
  {
    if v.x == 0.0 && v.y == 0.0 then 0.0
    else if v.x == 0.0 then (if v.y > 0.0 then Pi / 2.0 else -Pi / 2.0)
    else if v.y == 0.0 && v.x < 0.0 then -Pi
    else
      var a := lib.atan(v.y / v.x);
      if v.x < 0.0 then a + Pi else a
  }

  /**
   * The two border points for segment p1 -> p2 at half-width d: the points
   * (p1.x + l, p1.y +/- d), l the segment's length, turned about p1 by the
   * segment's angle.
   */
  function BorderVertices(lib: MathLib, p1: Point, p2: Point, d: real): (Point, Point)
  {
    var l := Distance(lib, p1, p2);
    var a := Angle(lib, Sub(p2, p1));
    (Rotate(lib, Point(p1.x + l, p1.y + d), p1, a), Rotate(lib, Point(p1.x + l, p1.y - d), p1, a))
  }

  /** cgpAdd and cgpSub undo each other. */
  lemma AddSubInverse(v1: Point, v2: Point)
    ensures Add(Sub(v1, v2), v2) == v1
    ensures Sub(Add(v1, v2), v2) == v1
  {
  }

  /** Scaling a vector by s scales its squared length by s*s. */
  lemma LengthSQScale(v: Point, s: real)
    ensures LengthSQ(Mult(v, s)) == s * s * LengthSQ(v)
  {
    calc {
      LengthSQ(Mult(v, s));
      (v.x * s) * (v.x * s) + (v.y * s) * (v.y * s);
      s * s * (v.x * v.x + v.y * v.y);
    }
  }

  /** The distance does not depend on the order of its arguments, whatever sqrt is. */
  lemma DistanceSymmetric(lib: MathLib, v1: Point, v2: Point)
    ensures Distance(lib, v1, v2) == Distance(lib, v2, v1)
  {
    assert LengthSQ(Sub(v1, v2)) == LengthSQ(Sub(v2, v1));
  }

  /** With an exact square root, the distance is the non-negative root of the squared length. */
  lemma DistanceSquared(lib: MathLib, v1: Point, v2: Point)
    requires SqrtExactAt(lib, LengthSQ(Sub(v1, v2)))
    ensures Distance(lib, v1, v2) >= 0.0
    ensures Distance(lib, v1, v2) * Distance(lib, v1, v2) == LengthSQ(Sub(v1, v2))
  {
  }

  /**
   * Rotating by a and then by -a about the same pivot gives back the point,
   * given that cosine is even, sine is odd and both lie on the unit circle at a.
   */
  lemma RotateRoundTrip(lib: MathLib, v: Point, pivot: Point, a: real)
    requires lib.cos(-a) == lib.cos(a) && lib.sin(-a) == -lib.sin(a)
    requires OnUnitCircle(lib, a)
    ensures Rotate(lib, Rotate(lib, v, pivot, a), pivot, -a) == v
  {
    var c, s := lib.cos(a), lib.sin(a);
    var rx, ry := v.x - pivot.x, v.y - pivot.y;
    var w := Rotate(lib, v, pivot, a);
    assert w.x - pivot.x == rx * c - ry * s;
    assert w.y - pivot.y == rx * s + ry * c;
    calc {
      (rx * c - ry * s) * c - (rx * s + ry * c) * (-s);
      rx * (c * c + s * s);
      rx;
    }
    calc {
      (rx * c - ry * s) * (-s) + (rx * s + ry * c) * c;
      ry * (c * c + s * s);
      ry;
    }
  }

  /** The angle lies in [-Pi, 3*Pi/2) whenever atan stays in its principal range. */
  lemma AngleRange(lib: MathLib, v: Point)
    requires v.x != 0.0 ==> -Pi / 2.0 < lib.atan(v.y / v.x) < Pi / 2.0
    ensures -Pi <= Angle(lib, v) < 3.0 * Pi / 2.0
  {
  }

  /** The two border points are mirror images about the point at distance l along the segment. */
  lemma BorderMidpoint(lib: MathLib, p1: Point, p2: Point, d: real)
    ensures var (o1, o2) := BorderVertices(lib, p1, p2, d);
      Mult(Add(o1, o2), 0.5) == Rotate(lib, Point(p1.x + Distance(lib, p1, p2), p1.y), p1, Angle(lib, Sub(p2, p1)))
  {
    var l := Distance(lib, p1, p2);
    var a := Angle(lib, Sub(p2, p1));
    var c, s := lib.cos(a), lib.sin(a);
    var (o1, o2) := BorderVertices(lib, p1, p2, d);
    var m := Rotate(lib, Point(p1.x + l, p1.y), p1, a);
    var lc, ls, dc, ds := l * c, l * s, d * c, d * s;
    assert o1 == Point(lc - ds + p1.x, ls + dc + p1.y);
    assert o2 == Point(lc + ds + p1.x, ls - dc + p1.y);
    assert m == Point(lc + p1.x, ls + p1.y);
  }

  /** The two border points are 2*d apart once cosine and sine lie on the unit circle. */
  lemma BorderWidth(lib: MathLib, p1: Point, p2: Point, d: real)
    requires OnUnitCircle(lib, Angle(lib, Sub(p2, p1)))
    ensures var (o1, o2) := BorderVertices(lib, p1, p2, d);
      LengthSQ(Sub(o1, o2)) == 4.0 * d * d
  {
    var a := Angle(lib, Sub(p2, p1));
    var c, s := lib.cos(a), lib.sin(a);
    var (o1, o2) := BorderVertices(lib, p1, p2, d);
    assert o1.x - o2.x == -2.0 * d * s;
    assert o1.y - o2.y == 2.0 * d * c;
    calc {
      LengthSQ(Sub(o1, o2));
      (-2.0 * d * s) * (-2.0 * d * s) + (2.0 * d * c) * (2.0 * d * c);
      4.0 * d * d * (c * c + s * s);
      4.0 * d * d;
    }
  }
}
