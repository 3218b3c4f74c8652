/**
 * The ribbon CCBlade draws as a triangle strip, as values: the head point
 * gives one vertex, every body point two (one on each side of the path) and
 * the tail point one, so a path of N points gives 2N - 2 vertices and as
 * many texture coordinates. The class in blade.dfy fills its two buffers
 * with exactly these sequences.
 */
module Ribbon {
  import opened Geometry

  /**
   * The routine that turns a segment p1 -> p2 and a half-width into the two
   * border points at p2's end (populateBorderVertices; see
   * Geometry.BorderVertices). The ribbon's layout does not depend on what it computes.
   */
  type BorderFn = (Point, Point, real) -> (Point, Point)

  /** The body pairs laid out one after the other. */
  function Flatten(pairs: seq<(Point, Point)>): (r: seq<Point>)
    ensures |r| == 2 * |pairs|
  {
    if pairs == [] then [] else [pairs[0].0, pairs[0].1] + Flatten(pairs[1..])
  }

  /** Head vertex, the body pairs, tail vertex. */
  function Layout(head: Point, body: seq<(Point, Point)>, tail: Point): (r: seq<Point>)
    ensures |r| == 2 * |body| + 2
  {
    [head] + Flatten(body) + [tail]
  }

  /** The half-width at body index i of an n-point path: `stroke` less `i` times `stroke / n`. */
  function HalfWidth(stroke: real, i: int, n: int): real
    requires n > 0
  {
    stroke - i as real * (stroke / n as real)
  }

  /** The border pairs of body points 1 .. n-2, each computed from the segment that ends at it. */
  function VertexBody(border: BorderFn, path: seq<Point>, stroke: real): (body: seq<(Point, Point)>)
    requires |path| >= 2
    ensures |body| == |path| - 2
  {
    seq(|path| - 2, k requires 0 <= k < |path| - 2 =>
      border(path[k], path[k + 1], HalfWidth(stroke, k + 1, |path|)))
  }

  /** The vertex buffer for `path`. */
  function RibbonVertices(border: BorderFn, path: seq<Point>, stroke: real): (r: seq<Point>)
    requires |path| >= 2
    ensures |r| == 2 * |path| - 2
  {
    Layout(path[0], VertexBody(border, path, stroke), path[|path| - 1])
  }

  /** Texture coordinates of the body pairs: u = 0.25 for the first, u = 0.5 for the rest; v = 1 above, 0 below. */
  function TexCoordBody(count: nat): seq<(Point, Point)>
  {
    seq(count, k => if k == 0 then (Point(0.25, 1.0), Point(0.25, 0.0)) else (Point(0.5, 1.0), Point(0.5, 0.0)))
  }

  /** The texture-coordinate buffer for an n-point path; it depends on n alone. */
  function RibbonTexCoords(n: int): (r: seq<Point>)
    requires n >= 2
    ensures |r| == 2 * n - 2
  {
    Layout(Point(0.0, 0.5), TexCoordBody(n - 2), Point(0.75, 0.5))
  }

  lemma {:induction false} FlattenAt(pairs: seq<(Point, Point)>, k: int)
    requires 0 <= k < |pairs|
    ensures Flatten(pairs)[2 * k] == pairs[k].0 && Flatten(pairs)[2 * k + 1] == pairs[k].1
  {
    if k > 0 {
      FlattenAt(pairs[1..], k - 1);
      assert Flatten(pairs)[2 * k] == Flatten(pairs[1..])[2 * (k - 1)];
      assert Flatten(pairs)[2 * k + 1] == Flatten(pairs[1..])[2 * (k - 1) + 1];
    }
  }

  /** Vertex 0 is the head, vertex 2|body|+1 the tail, and body pair k sits at 2k+1 and 2k+2. */
  lemma LayoutAt(head: Point, body: seq<(Point, Point)>, tail: Point)
    ensures var r := Layout(head, body, tail);
      r[0] == head && r[2 * |body| + 1] == tail &&
      forall k :: 0 <= k < |body| ==> r[2 * k + 1] == body[k].0 && r[2 * k + 2] == body[k].1
  {
    var r := Layout(head, body, tail);
    forall k | 0 <= k < |body|
      ensures r[2 * k + 1] == body[k].0 && r[2 * k + 2] == body[k].1
    {
      FlattenAt(body, k);
      assert r[2 * k + 1] == Flatten(body)[2 * k];
      assert r[2 * k + 2] == Flatten(body)[2 * k + 1];
    }
  }

  /**
   * The vertex buffer starts at the head, ends at the tail, and holds at
   * 2i-1 and 2i the border points of body point i, 1 <= i <= N-2, taken on
   * the segment from point i-1 to point i with the taper's half-width at i.
   */
  lemma RibbonVerticesAt(border: BorderFn, path: seq<Point>, stroke: real)
    requires |path| >= 2
    ensures var v := RibbonVertices(border, path, stroke);
      var n := |path|;
      v[0] == path[0] && v[2 * n - 3] == path[n - 1] &&
      forall i :: 1 <= i <= n - 2 ==>
        (v[2 * i - 1], v[2 * i]) == border(path[i - 1], path[i], HalfWidth(stroke, i, n))
  {
    var body := VertexBody(border, path, stroke);
    LayoutAt(path[0], body, path[|path| - 1]);
    var v := RibbonVertices(border, path, stroke);
    forall i | 1 <= i <= |path| - 2
      ensures (v[2 * i - 1], v[2 * i]) == border(path[i - 1], path[i], HalfWidth(stroke, i, |path|))
    {
      assert v[2 * (i - 1) + 1] == body[i - 1].0 && v[2 * (i - 1) + 2] == body[i - 1].1;
    }
  }

  /** Conversely, a buffer with that head, tail and those body pairs is the vertex buffer. */
  lemma RibbonVerticesFrom(border: BorderFn, path: seq<Point>, stroke: real, vs: seq<Point>)
    requires |path| >= 2 && |vs| == 2 * |path| - 2
    requires vs[0] == path[0] && vs[2 * |path| - 3] == path[|path| - 1]
    requires forall k :: 1 <= k <= |path| - 2 ==>
      (vs[2 * k - 1], vs[2 * k]) == border(path[k - 1], path[k], HalfWidth(stroke, k, |path|))
    ensures vs == RibbonVertices(border, path, stroke)
  {
    var v := RibbonVertices(border, path, stroke);
    RibbonVerticesAt(border, path, stroke);
    forall j | 1 <= j < 2 * |path| - 3
      ensures vs[j] == v[j]
    {
      var k := (j + 1) / 2;
      assert j == 2 * k - 1 || j == 2 * k;
      assert 1 <= k <= |path| - 2;
      assert (vs[2 * k - 1], vs[2 * k]) == border(path[k - 1], path[k], HalfWidth(stroke, k, |path|));
      assert (v[2 * k - 1], v[2 * k]) == border(path[k - 1], path[k], HalfWidth(stroke, k, |path|));
    }
  }

  /**
   * The texture coordinates of an N-point ribbon, N >= 3: head (0, 0.5);
   * first body pair (0.25, 1) and (0.25, 0); every later body pair (0.5, 1)
   * and (0.5, 0); tail (0.75, 0.5).
   */
  lemma TexCoordsAt(n: int)
    requires n >= 3
    ensures var t := RibbonTexCoords(n);
      t[0] == Point(0.0, 0.5) &&
      t[1] == Point(0.25, 1.0) && t[2] == Point(0.25, 0.0) &&
      (forall i :: 2 <= i <= n - 2 ==> t[2 * i - 1] == Point(0.5, 1.0) && t[2 * i] == Point(0.5, 0.0)) &&
      t[2 * n - 3] == Point(0.75, 0.5)
  {
    var body := TexCoordBody(n - 2);
    LayoutAt(Point(0.0, 0.5), body, Point(0.75, 0.5));
    var t := RibbonTexCoords(n);
    assert t[2 * 0 + 1] == body[0].0 && t[2 * 0 + 2] == body[0].1;
    forall i | 2 <= i <= n - 2
      ensures t[2 * i - 1] == Point(0.5, 1.0) && t[2 * i] == Point(0.5, 0.0)
    {
      assert t[2 * (i - 1) + 1] == body[i - 1].0 && t[2 * (i - 1) + 2] == body[i - 1].1;
    }
  }

  /** A two-point path has no body: its coordinates are the head's and the tail's only. */
  lemma TexCoordsOfTwo()
    ensures RibbonTexCoords(2) == [Point(0.0, 0.5), Point(0.75, 0.5)]
  {
    assert TexCoordBody(0) == [];
  }

  /** With a positive stroke the half-width strictly decreases along the body. */
  lemma HalfWidthDecreasing(stroke: real, i: int, j: int, n: int)
    requires stroke > 0.0 && n > 0 && i < j
    ensures HalfWidth(stroke, i, n) > HalfWidth(stroke, j, n)
  {
    var f := stroke / n as real;
    assert f > 0.0;
    var a, b := i as real * f, j as real * f;
    assert b - a == (j - i) as real * f;
    assert (j - i) as real * f > 0.0;
  }

  /** With a positive stroke every body half-width lies strictly between 0 and the stroke; it reaches 0 at index n. */
  lemma HalfWidthBounds(stroke: real, i: int, n: int)
    requires stroke > 0.0 && 1 <= i < n
    ensures 0.0 < HalfWidth(stroke, i, n) < stroke
    ensures HalfWidth(stroke, n, n) == 0.0
  {
    HalfWidthDecreasing(stroke, 0, i, n);
    HalfWidthDecreasing(stroke, i, n, n);
    var c := n as real;
    assert c * (stroke / c) == stroke;
  }
}
