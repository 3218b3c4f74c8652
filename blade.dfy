/**
 * The CCBlade node: a bounded path of points, newest first, and the two
 * fixed-size buffers the ribbon is drawn from. push, pop and popLastOne
 * change the path as module PathBuffer says; populateVertices writes the
 * buffers as module Ribbon says.
 */
module CCBlade {
  import opened Geometry
  import opened PathBuffer
  import opened Ribbon

  datatype Option<T> = None | Some(value: T)

  /** The content-scale step at the top of push: skipped for a factor of 1, which changes nothing. */
  function ContentScaled(point: Point, scale: real): (p: Point)
    ensures p == Mult(point, scale)
  {
    if scale != 1.0 then Mult(point, scale) else point
  }

  /** Slot j of the body, 1 <= j, belongs to body pair (j + 1) / 2. */
  lemma BodyPairOf(j: int) returns (k: int)
    requires 1 <= j
    ensures 1 <= k && (j == 2 * k - 1 || j == 2 * k) && 2 * k - 1 <= j
  {
    k := (j + 1) / 2;
  }

  class Blade {
    /** The floating-point routines the geometry helpers call. */
    const lib: MathLib
    /** populateBorderVertices over `lib`. */
    const border: BorderFn
    /** _pointLimit. */
    const pointLimit: nat
    /** _vertices and _texCoords: 2 * pointLimit - 2 slots each, allocated once. */
    const vertices: array<Point>
    const texCoords: array<Point>

    /** _path: index 0 is the newest point. */
    var path: seq<Point>
    /** _stroke, already multiplied by the content-scale factor. */
    var stroke: real
    var autoCleanup: bool
    var drainInterval: real
    /** Whether popLastOne is scheduled to run every drainInterval. */
    var draining: bool
    /** The stroke the buffers were last filled with. */
    ghost var meshStroke: real

    /** The sizes fixed at construction, and the path within its limit. */
    ghost predicate WellSized()
      reads this
    {
      PointLimitMin <= pointLimit && |path| <= pointLimit &&
      vertices.Length == 2 * pointLimit - 2 && texCoords.Length == 2 * pointLimit - 2 &&
      vertices != texCoords
    }

    /** The first 2N - 2 slots of each buffer hold the ribbon of the current path. */
    ghost predicate Meshed()
      reads this, vertices, texCoords
      requires WellSized() && 2 <= |path|
    {
      vertices[..2 * |path| - 2] == RibbonVertices(border, path, meshStroke) &&
      texCoords[..2 * |path| - 2] == RibbonTexCoords(|path|)
    }

    /**
     * The object invariant: whenever the ribbon would be drawn, the buffers
     * hold it, and the border routine is populateBorderVertices over `lib`.
     */
    ghost predicate Valid()
      reads this, vertices, texCoords
    {
      WellSized() && (PointLimitMin <= |path| ==> Meshed()) && (draining ==> drainInterval > 0.0) &&
      (forall p1, p2, d :: border(p1, p2, d) == BorderVertices(lib, p1, p2, d))
    }

    /** CCBlade::CCBlade without the texture, colour and shader set-up. */
    constructor (stroke: real, pointLimit: int, scale: real, lib: MathLib)
      requires pointLimit >= PointLimitMin
      ensures Valid() && fresh(vertices) && fresh(texCoords)
      ensures this.lib == lib && this.pointLimit == pointLimit && path == []
      ensures forall p1, p2, d :: border(p1, p2, d) == BorderVertices(lib, p1, p2, d)
      ensures vertices.Length == 2 * pointLimit - 2 && texCoords.Length == 2 * pointLimit - 2
      ensures forall j :: 0 <= j < vertices.Length ==> vertices[j] == Origin
      ensures forall j :: 0 <= j < texCoords.Length ==> texCoords[j] == Origin
      ensures this.stroke == stroke * scale && !autoCleanup && drainInterval == 0.0 && !draining
    {
      this.lib := lib;
      border := (p1, p2, d) => BorderVertices(lib, p1, p2, d);
      this.stroke := stroke * scale;
      this.pointLimit := pointLimit;
      var vertexCount := 2 * pointLimit - 2;
      vertices := new Point[vertexCount](_ => Origin);
      texCoords := new Point[vertexCount](_ => Origin);
      path := [];
      autoCleanup := false;
      drainInterval := 0.0;
      draining := false;
      meshStroke := stroke * scale;
    }

    /** setStroke: the buffers keep the ribbon of the old stroke until the path next changes. */
    method SetStroke(stroke: real, scale: real)
      requires Valid()
      modifies this`stroke
      ensures Valid() && this.stroke == stroke * scale
    {
      this.stroke := stroke * scale;
    }

    /** setDrainInterval: a positive interval schedules popLastOne, any other unschedules it. */
    method SetDrainInterval(interval: real)
      requires Valid()
      modifies this`drainInterval, this`draining
      ensures Valid() && drainInterval == interval && (draining <==> interval > 0.0)
    {
      drainInterval := interval;
      draining := interval > 0.0;
    }

    /**
     * autoCleanup: turn clean-up on and, if no positive interval was set,
     * schedule draining at 60 ticks a second; a positive interval keeps its
     * schedule as it is.
     */
    method AutoCleanup()
      requires Valid()
      modifies this`autoCleanup, this`drainInterval, this`draining
      ensures Valid() && autoCleanup
      ensures draining == (old(drainInterval) <= 0.0 || old(draining))
      ensures drainInterval == if old(drainInterval) <= 0.0 then 1.0 / 60.0 else old(drainInterval)
    {
      autoCleanup := true;
      if drainInterval <= 0.0 {
        SetDrainInterval(1.0 / 60.0);
      }
    }

    /**
     * populateVertices, for any path of 2 .. pointLimit points: every write
     * is inside the buffers, the first 2N - 2 slots get the ribbon, and the
     * rest are left alone except texCoords[2], which a two-point path also writes.
     */
    method PopulateVertices()
      requires WellSized() && 2 <= |path|
      modifies this`meshStroke, vertices, texCoords
      ensures WellSized() && meshStroke == stroke && Meshed()
      ensures forall j :: 2 * |path| - 2 <= j < vertices.Length ==> vertices[j] == old(vertices[j])
      ensures forall j :: 2 * |path| - 2 <= j < texCoords.Length && j != 2 ==> texCoords[j] == old(texCoords[j])
      ensures |path| == 2 ==> texCoords[2] == Point(0.25, 0.0)
    {
      var n := |path|;
      // the newest point is the strip's first vertex
      vertices[0] := path[0];
      texCoords[0] := Point(0.0, 0.5);
      PopulateBody();
      // the first body pair gets u = 0.25, even when there is no body pair
      texCoords[1] := Point(0.25, 1.0);
      texCoords[2] := Point(0.25, 0.0);
      // the oldest point is the strip's last vertex
      vertices[2 * n - 3] := path[n - 1];
      texCoords[2 * n - 3] := Point(0.75, 0.5);
      meshStroke := stroke;
      MeshMatchesRibbon(n);
    }

    /**
     * The body loop of populateVertices: for i = 1 .. N-2, slots 2i-1 and 2i
     * get the border pair of point i and the texture coordinates (0.5, 1)
     * and (0.5, 0); slot 0 and every slot from 2N-3 on are left alone.
     */
    method PopulateBody()
      requires WellSized() && 2 <= |path| && vertices[0] == path[0]
      modifies vertices, texCoords
      ensures vertices[0] == old(vertices[0]) && texCoords[0] == old(texCoords[0])
      ensures forall k :: 1 <= k < |path| - 1 ==>
        (vertices[2 * k - 1], vertices[2 * k]) == border(path[k - 1], path[k], HalfWidth(stroke, k, |path|))
      ensures forall k :: 1 <= k < |path| - 1 ==> texCoords[2 * k - 1] == Point(0.5, 1.0) && texCoords[2 * k] == Point(0.5, 0.0)
      ensures forall j :: 2 * |path| - 3 <= j < vertices.Length ==> vertices[j] == old(vertices[j])
      ensures forall j :: 2 * |path| - 3 <= j < texCoords.Length ==> texCoords[j] == old(texCoords[j])
    {
      var n := |path|;
      var strokeFactor := stroke / n as real;
      var previous := vertices[0];
      var i := 1;
      while i < n - 1
        invariant 1 <= i <= n - 1
        invariant strokeFactor == stroke / n as real
        invariant previous == path[i - 1]
        invariant vertices[0] == old(vertices[0]) && texCoords[0] == old(texCoords[0])
        invariant forall k :: 1 <= k < i ==>
          (vertices[2 * k - 1], vertices[2 * k]) == border(path[k - 1], path[k], HalfWidth(stroke, k, n))
        invariant forall k :: 1 <= k < i ==> texCoords[2 * k - 1] == Point(0.5, 1.0) && texCoords[2 * k] == Point(0.5, 0.0)
        invariant forall j :: 2 * i - 1 <= j < vertices.Length ==> vertices[j] == old(vertices[j])
        invariant forall j :: 2 * i - 1 <= j < texCoords.Length ==> texCoords[j] == old(texCoords[j])
      {
        var current := path[i];
        var borderPair := border(previous, current, stroke - i as real * strokeFactor);
        assert stroke - i as real * strokeFactor == HalfWidth(stroke, i, n);
        assert borderPair == border(path[i - 1], path[i], HalfWidth(stroke, i, n));
        vertices[2 * i - 1] := borderPair.0;
        vertices[2 * i] := borderPair.1;
        assert (vertices[2 * i - 1], vertices[2 * i]) == borderPair;
        texCoords[2 * i - 1] := Point(0.5, 1.0);
        texCoords[2 * i] := Point(0.5, 0.0);
        previous := current;
        i := i + 1;
      }
    }

    /** The buffer contents populateVertices leaves are the ribbon of the path. */
    lemma MeshMatchesRibbon(n: int)
      requires WellSized() && n == |path| && 2 <= n
      requires vertices[0] == path[0] && vertices[2 * n - 3] == path[n - 1]
      requires forall k :: 1 <= k < n - 1 ==>
        (vertices[2 * k - 1], vertices[2 * k]) == border(path[k - 1], path[k], HalfWidth(meshStroke, k, n))
      requires texCoords[0] == Point(0.0, 0.5) && texCoords[2 * n - 3] == Point(0.75, 0.5)
      requires n >= 3 ==> texCoords[1] == Point(0.25, 1.0) && texCoords[2] == Point(0.25, 0.0)
      requires forall k :: 2 <= k < n - 1 ==> texCoords[2 * k - 1] == Point(0.5, 1.0) && texCoords[2 * k] == Point(0.5, 0.0)
      ensures Meshed()
    {
      VerticesMatchRibbon(n);
      TexCoordsMatchRibbon(n);
    }

    lemma VerticesMatchRibbon(n: int)
      requires WellSized() && n == |path| && 2 <= n
      requires vertices[0] == path[0] && vertices[2 * n - 3] == path[n - 1]
      requires forall k :: 1 <= k < n - 1 ==>
        (vertices[2 * k - 1], vertices[2 * k]) == border(path[k - 1], path[k], HalfWidth(meshStroke, k, n))
      ensures vertices[..2 * n - 2] == RibbonVertices(border, path, meshStroke)
    {
      var vs := vertices[..2 * n - 2];
      forall k | 1 <= k <= n - 2
        ensures (vs[2 * k - 1], vs[2 * k]) == border(path[k - 1], path[k], HalfWidth(meshStroke, k, n))
      {
        assert (vs[2 * k - 1], vs[2 * k]) == (vertices[2 * k - 1], vertices[2 * k]);
      }
      RibbonVerticesFrom(border, path, meshStroke, vs);
    }

    lemma TexCoordsMatchRibbon(n: int)
      requires WellSized() && n == |path| && 2 <= n
      requires texCoords[0] == Point(0.0, 0.5) && texCoords[2 * n - 3] == Point(0.75, 0.5)
      requires n >= 3 ==> texCoords[1] == Point(0.25, 1.0) && texCoords[2] == Point(0.25, 0.0)
      requires forall k :: 2 <= k < n - 1 ==> texCoords[2 * k - 1] == Point(0.5, 1.0) && texCoords[2 * k] == Point(0.5, 0.0)
      ensures texCoords[..2 * n - 2] == RibbonTexCoords(n)
    {
      var t := RibbonTexCoords(n);
      if n >= 3 {
        TexCoordsAt(n);
      } else {
        TexCoordsOfTwo();
      }
      forall j | 0 <= j < 2 * n - 2
        ensures texCoords[j] == t[j]
      {
        if j > 2 && j != 2 * n - 3 {
          var k := BodyPairOf(j);
        }
      }
    }

    /**
     * push: the path becomes PushPath of the content-scaled point, never
     * longer than pointLimit. Onto an empty path the buffers are left alone;
     * otherwise they are refilled, with the path then 2 .. pointLimit long.
     */
    method Push(point: Point, scale: real)
      requires Valid()
      modifies this`path, this`meshStroke, vertices, texCoords
      ensures Valid()
      ensures path == PushPath(lib, old(path), ContentScaled(point, scale), pointLimit)
      ensures old(path) == [] ==> path == [ContentScaled(point, scale)] && vertices[..] == old(vertices[..]) && texCoords[..] == old(texCoords[..])
      ensures old(path) != [] ==> 2 <= |path| && meshStroke == stroke && Meshed()
    {
      var p := point;
      if scale != 1.0 {
        p := Mult(p, scale);
      }

      if |path| == 0 {
        path := [p] + path;
        PushOntoEmpty(lib, p, pointLimit);
        return;
      }

      var first := path[0];
      var distance := Distance(lib, p, first);
      if distance < DistanceToInterpolate {
        path := [p] + path;
      } else {
        var count := InterpolationCount(distance);
        var interval := Mult(Sub(p, first), 1.0 / count as real);
        for i := 1 to count + 1
          invariant path == Run(first, interval, i - 1) + old(path)
          modifies this`path
        {
          path := [Add(first, Mult(interval, i as real))] + path;
        }
      }
      assert path == Inserted(lib, old(path), p) + old(path);
      ghost var full := path;
      while |path| > pointLimit
        modifies this`path
        invariant 2 <= |path|
        invariant Evict(path, pointLimit) == Evict(full, pointLimit)
        decreases |path|
      {
        path := path[..|path| - 1];
      }

      PopulateVertices();
    }

    /** pop(count): the path becomes PopPath; the buffers are refilled only if at least POINT_LIMIT_MIN points remain. */
    method Pop(count: int)
      requires Valid()
      modifies this`path, this`meshStroke, vertices, texCoords
      ensures Valid()
      ensures path == PopPath(old(path), count)
      ensures PointLimitMin <= |path| ==> meshStroke == stroke
      ensures |path| < PointLimitMin ==> vertices[..] == old(vertices[..]) && texCoords[..] == old(texCoords[..])
    {
      var c := count;
      while |path| > 0 && c > 0
        modifies this`path
        invariant |path| <= |old(path)|
        invariant PopPath(path, c) == PopPath(old(path), count)
        decreases |path|
      {
        path := path[..|path| - 1];
        c := c - 1;
      }

      if |path| >= PointLimitMin {
        PopulateVertices();
      }
    }

    /**
     * popLastOne, one drain tick: `detach` stands for removeFromParentAndCleanup,
     * which also unschedules the node, so a detached blade stops draining.
     */
    method PopLastOne(delta: real) returns (detach: bool)
      requires Valid()
      modifies this`path, this`meshStroke, this`draining, vertices, texCoords
      ensures Valid()
      ensures path == DrainedPath(old(path), autoCleanup)
      ensures detach == DetachRequested(old(path), autoCleanup)
      ensures PointLimitMin <= |path| ==> meshStroke == stroke
      ensures |PopPath(old(path), 1)| < PointLimitMin ==> vertices[..] == old(vertices[..]) && texCoords[..] == old(texCoords[..])
      ensures draining == (old(draining) && !detach)
    {
      Pop(1);
      detach := false;
      if autoCleanup && |path| < PointLimitMin {
        path := [];
        detach := true;
        draining := false;
      }
    }

    /**
     * draw, without the GL calls: nothing for fewer than POINT_LIMIT_MIN
     * points; otherwise the count 2N - 2 handed to glDrawArrays, which fits
     * both buffers, whose first 2N - 2 slots hold the ribbon of the path.
     */
    function Draw(): (count: Option<int>)
      reads this, vertices, texCoords
      requires Valid()
      ensures count.Some? <==> PointLimitMin <= |path|
      ensures count.Some? ==>
        count.value == 2 * |path| - 2 && count.value <= vertices.Length && count.value <= texCoords.Length &&
        vertices[..count.value] == RibbonVertices(border, path, meshStroke) &&
        texCoords[..count.value] == RibbonTexCoords(|path|)
    {
      if |path| < PointLimitMin then None else Some(2 * |path| - 2)
    }
  }
}
