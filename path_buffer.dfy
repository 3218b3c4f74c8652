/**
 * The path buffer of CCBlade as values: what push, pop and one drain tick
 * do to the path, a sequence of points with the newest at index 0.
 * The class in blade.dfy changes its path exactly as these functions say.
 */
module PathBuffer {
  import opened Geometry

  /** POINT_LIMIT_MIN: the least point limit, and the least path the ribbon is drawn for. */
  const PointLimitMin: int := 3

  /** DISTANCE_TO_INTERPOLATE: a new point this far from the head, or farther, is interpolated. */
  const DistanceToInterpolate: real := 10.0

  function Min(a: int, b: int): int
  {
    if a <= b then a else b
  }

  /**
   * The number of interpolated points: the distance over 10, plus 1,
   * truncated toward zero, which for a positive distance is the floor.
   * The count is the one value with (count - 1) * 10 <= distance < count * 10.
   */
  function InterpolationCount(distance: real): (count: int)
    requires distance >= DistanceToInterpolate
    ensures count >= 2
    ensures (count - 1) as real * DistanceToInterpolate <= distance < count as real * DistanceToInterpolate
  {
    (distance / DistanceToInterpolate + 1.0).Floor
  }

  /** The step between interpolated points: (p - first) / count. */
  function Interval(first: Point, p: Point, count: int): Point
    requires count > 0
  {
    Mult(Sub(p, first), 1.0 / count as real)
  }

  /**
   * The points the interpolation loop has put in front of the path after its
   * rounds i = 1 .. n: each round prepends first + interval * i, so the
   * point of the last round comes first.
   */
  function Run(first: Point, interval: Point, n: nat): (r: seq<Point>)
    ensures |r| == n
  {
    if n == 0 then [] else [Add(first, Mult(interval, n as real))] + Run(first, interval, n - 1)
  }

  /** The points one push puts in front of `path`, before eviction. */
  function Inserted(lib: MathLib, path: seq<Point>, p: Point): seq<Point>
  {
    if |path| == 0 then [p]
    else
      var first := path[0];
      var distance := Distance(lib, p, first);
      if distance < DistanceToInterpolate then [p]
      else
        var count := InterpolationCount(distance);
        Run(first, Interval(first, p, count), count)
  }

  /** Drops points from the back until at most `limit` remain. */
  function Evict(s: seq<Point>, limit: nat): seq<Point>
    decreases |s|
  {
    if |s| > limit then Evict(s[..|s| - 1], limit) else s
  }

  /** The path after push(p). */
  function PushPath(lib: MathLib, path: seq<Point>, p: Point, limit: nat): seq<Point>
  {
    Evict(Inserted(lib, path, p) + path, limit)
  }

  /** Drops up to `count` points from the back, stopping early when the path is empty. */
  function PopPath(s: seq<Point>, count: int): seq<Point>
    decreases |s|
  {
    if |s| > 0 && count > 0 then PopPath(s[..|s| - 1], count - 1) else s
  }

  /** The path after one drain tick, popLastOne: pop(1), then clear below POINT_LIMIT_MIN under auto-cleanup. */
  function DrainedPath(s: seq<Point>, autoCleanup: bool): seq<Point>
  {
    var rest := PopPath(s, 1);
    if autoCleanup && |rest| < PointLimitMin then [] else rest
  }

  /** Whether the drain tick removes the blade from its parent. */
  function DetachRequested(s: seq<Point>, autoCleanup: bool): bool
  {
    autoCleanup && |PopPath(s, 1)| < PointLimitMin
  }

  /** No two neighbouring points of `s` are DISTANCE_TO_INTERPOLATE or more apart (compared squared). */
  predicate Dense(s: seq<Point>)
  {
    forall k :: 0 <= k < |s| - 1 ==> LengthSQ(Sub(s[k], s[k + 1])) < DistanceToInterpolate * DistanceToInterpolate
  }

  // ---------------------------------------------------------------- Run

  /** Round n - k of the interpolation loop put its point at index k; the point at index n is the old head. */
  lemma {:induction false} RunAt(first: Point, interval: Point, n: nat, k: int)
    requires 0 <= k <= n
    ensures (Run(first, interval, n) + [first])[k] == Add(first, Mult(interval, (n - k) as real))
  {
    if k == n {
      assert (Run(first, interval, n) + [first])[n] == first;
    } else if k > 0 {
      RunAt(first, interval, n - 1, k - 1);
      assert (Run(first, interval, n) + [first])[k] == (Run(first, interval, n - 1) + [first])[k - 1];
    }
  }

  /** The last round of the loop lands exactly on `p`. */
  lemma RunEndsAtTarget(first: Point, p: Point, count: int)
    requires count > 0
    ensures Add(first, Mult(Interval(first, p, count), count as real)) == p
  {
    var c := count as real;
    assert (1.0 / c) * c == 1.0;
    assert ((p.x - first.x) * (1.0 / c)) * c == p.x - first.x;
    assert ((p.y - first.y) * (1.0 / c)) * c == p.y - first.y;
  }

  /** Neighbouring points of the run, and the last run point and the old head, differ by exactly one interval. */
  lemma RunSteps(first: Point, interval: Point, n: nat, k: int)
    requires 0 <= k < n
    ensures Sub((Run(first, interval, n) + [first])[k], (Run(first, interval, n) + [first])[k + 1]) == interval
  {
    RunAt(first, interval, n, k);
    RunAt(first, interval, n, k + 1);
    var m := (n - k - 1) as real;
    assert (n - k) as real == m + 1.0;
    assert interval.x * (m + 1.0) - interval.x * m == interval.x;
    assert interval.y * (m + 1.0) - interval.y * m == interval.y;
  }

  // ---------------------------------------------------------------- push

  /**
   * What one push inserts: always at least one point, and the new head is
   * the pushed point. Near the head (or on an empty path) exactly that point;
   * otherwise floor(d / 10) + 1 points first + interval * i, i = count .. 1,
   * followed by the old head.
   */
  lemma PushInserts(lib: MathLib, path: seq<Point>, p: Point)
    ensures var ins := Inserted(lib, path, p);
      |ins| >= 1 && ins[0] == p
    ensures |path| == 0 ==> Inserted(lib, path, p) == [p]
    ensures |path| > 0 && Distance(lib, p, path[0]) < DistanceToInterpolate ==> Inserted(lib, path, p) == [p]
    ensures |path| > 0 && Distance(lib, p, path[0]) >= DistanceToInterpolate ==>
      var d := Distance(lib, p, path[0]);
      var ins := Inserted(lib, path, p);
      |ins| == (d / DistanceToInterpolate).Floor + 1 &&
      (forall k :: 0 <= k < |ins| ==> ins[k] == Add(path[0], Mult(Interval(path[0], p, |ins|), (|ins| - k) as real))) &&
      (ins + path)[|ins|] == path[0]
  {
    if |path| > 0 && Distance(lib, p, path[0]) >= DistanceToInterpolate {
      var first := path[0];
      var d := Distance(lib, p, first);
      var count := InterpolationCount(d);
      var iv := Interval(first, p, count);
      var ins := Run(first, iv, count);
      assert (d / DistanceToInterpolate + 1.0).Floor == (d / DistanceToInterpolate).Floor + 1;
      forall k | 0 <= k < |ins|
        ensures ins[k] == Add(first, Mult(iv, (count - k) as real))
      {
        RunAt(first, iv, count, k);
        assert (ins + [first])[k] == ins[k];
      }
      RunAt(first, iv, count, 0);
      assert (ins + [first])[0] == ins[0];
      RunEndsAtTarget(first, p, count);
    }
  }

  /** Eviction keeps the first `limit` points and drops the rest from the back. */
  lemma {:induction false} EvictKeepsFront(s: seq<Point>, limit: nat)
    ensures Evict(s, limit) == s[..Min(|s|, limit)]
    decreases |s|
  {
    if |s| > limit {
      EvictKeepsFront(s[..|s| - 1], limit);
      assert s[..|s| - 1][..Min(|s| - 1, limit)] == s[..Min(|s|, limit)];
    }
  }

  /**
   * After any push the path holds at most `limit` points, and it is the
   * inserted points followed by the old path with its back cut off: the old
   * front survives and nothing is removed but from the back.
   */
  lemma PushBounded(lib: MathLib, path: seq<Point>, p: Point, limit: nat)
    requires limit >= 1
    ensures var r := PushPath(lib, path, p, limit);
      var full := Inserted(lib, path, p) + path;
      |r| == Min(|full|, limit) && r == full[..|r|] && r[0] == p
  {
    EvictKeepsFront(Inserted(lib, path, p) + path, limit);
    PushInserts(lib, path, p);
  }

  /** Pushing onto an empty path stores exactly the pushed point. */
  lemma PushOntoEmpty(lib: MathLib, p: Point, limit: nat)
    requires limit >= 1
    ensures PushPath(lib, [], p, limit) == [p]
  {
    assert Inserted(lib, [], p) + [] == [p];
  }

  // ---------------------------------------------------------------- pop and drain

  /** pop(count) removes exactly min(max(count, 0), size) points, all from the back. */
  lemma {:induction false} PopRemovesFromBack(s: seq<Point>, count: int)
    ensures var removed := if count <= 0 then 0 else Min(count, |s|);
      PopPath(s, count) == s[..|s| - removed]
    decreases |s|
  {
    if |s| > 0 && count > 0 {
      PopRemovesFromBack(s[..|s| - 1], count - 1);
      var removed := Min(count, |s|);
      assert s[..|s| - 1][..|s| - removed] == s[..|s| - removed];
    }
  }

  /**
   * A drain tick removes at most one point from the back. Under auto-cleanup
   * a path left with fewer than POINT_LIMIT_MIN points is cleared and removal
   * from the parent is requested; otherwise nothing else happens.
   */
  lemma DrainRemovesAtMostOne(s: seq<Point>, autoCleanup: bool)
    ensures var kept := if |s| == 0 then 0 else |s| - 1;
      DetachRequested(s, autoCleanup) <==> autoCleanup && kept < PointLimitMin
    ensures var kept := if |s| == 0 then 0 else |s| - 1;
      DrainedPath(s, autoCleanup) == if autoCleanup && kept < PointLimitMin then [] else s[..kept]
  {
    PopRemovesFromBack(s, 1);
  }

  // ---------------------------------------------------------------- spacing

  lemma SquareBelow(q: real, bound: real)
    requires 0.0 <= q < bound
    ensures q * q < bound * bound
  {
    var below, mixed, above := q * q, q * bound, bound * bound;
    assert below <= mixed;
    assert mixed < above;
  }

  /**
   * The interval of an interpolated run is d / count long, which is below
   * DISTANCE_TO_INTERPOLATE (compared squared), given an exact square root.
   */
  lemma IntervalShort(lib: MathLib, first: Point, p: Point)
    requires SqrtExactAt(lib, LengthSQ(Sub(p, first)))
    requires Distance(lib, p, first) >= DistanceToInterpolate
    ensures var d := Distance(lib, p, first);
      var count := InterpolationCount(d);
      LengthSQ(Interval(first, p, count)) == (d / count as real) * (d / count as real) &&
      LengthSQ(Interval(first, p, count)) < DistanceToInterpolate * DistanceToInterpolate
  {
    var d := Distance(lib, p, first);
    DistanceSquared(lib, p, first);
    var count := InterpolationCount(d);
    var c := count as real;
    var inv := 1.0 / c;
    LengthSQScale(Sub(p, first), inv);
    var q := d / c;
    assert q == d * inv;
    assert inv * inv * (d * d) == q * q;
    assert q < DistanceToInterpolate by {
      assert d < c * DistanceToInterpolate;
    }
    SquareBelow(q, DistanceToInterpolate);
  }

  /**
   * The run and the old head after it are spaced d / count apart, and that is
   * below DISTANCE_TO_INTERPOLATE, given an exact square root at the one
   * squared length push takes the root of. A single inserted point is closer
   * than the threshold by the branch that chose it.
   */
  lemma InsertedSpacing(lib: MathLib, path: seq<Point>, p: Point)
    requires |path| > 0
    requires SqrtExactAt(lib, LengthSQ(Sub(p, path[0])))
    ensures Dense(Inserted(lib, path, p) + [path[0]])
  {
    var first := path[0];
    var d := Distance(lib, p, first);
    var s := Inserted(lib, path, p) + [first];
    if d < DistanceToInterpolate {
      DistanceSquared(lib, p, first);
      SquareBelow(d, DistanceToInterpolate);
      assert s == [p, first];
    } else {
      var count := InterpolationCount(d);
      var iv := Interval(first, p, count);
      IntervalShort(lib, first, p);
      assert s == Run(first, iv, count) + [first];
      forall k | 0 <= k < |s| - 1
        ensures LengthSQ(Sub(s[k], s[k + 1])) < DistanceToInterpolate * DistanceToInterpolate
      {
        RunSteps(first, iv, count, k);
      }
    }
  }

  /** Every prefix of a dense path is dense. */
  lemma DensePrefix(s: seq<Point>, m: nat)
    requires Dense(s) && m <= |s|
    ensures Dense(s[..m])
  {
    var t := s[..m];
    forall k | 0 <= k < |t| - 1
      ensures LengthSQ(Sub(t[k], t[k + 1])) < DistanceToInterpolate * DistanceToInterpolate
    {
      assert t[k] == s[k] && t[k + 1] == s[k + 1];
    }
  }

  /**
   * Push keeps the path dense: in exact arithmetic no two neighbouring
   * stored points are ever DISTANCE_TO_INTERPOLATE or more apart, however
   * far the input jumps.
   */
  lemma PushKeepsDense(lib: MathLib, path: seq<Point>, p: Point, limit: nat)
    requires Dense(path)
    requires |path| > 0 ==> SqrtExactAt(lib, LengthSQ(Sub(p, path[0])))
    ensures Dense(PushPath(lib, path, p, limit))
  {
    var ins := Inserted(lib, path, p);
    var full := ins + path;
    if |path| > 0 {
      InsertedSpacing(lib, path, p);
      var t := ins + [path[0]];
      forall k | 0 <= k < |full| - 1
        ensures LengthSQ(Sub(full[k], full[k + 1])) < DistanceToInterpolate * DistanceToInterpolate
      {
        if k < |ins| {
          assert full[k] == t[k] && full[k + 1] == t[k + 1];
        } else {
          assert full[k] == path[k - |ins|] && full[k + 1] == path[k + 1 - |ins|];
        }
      }
    } else {
      assert full == [p];
    }
    EvictKeepsFront(full, limit);
    DensePrefix(full, Min(|full|, limit));
  }

  /** Pop and drain keep the path dense: they only cut its back. */
  lemma DrainKeepsDense(s: seq<Point>, count: int, autoCleanup: bool)
    requires Dense(s)
    ensures Dense(PopPath(s, count))
    ensures Dense(DrainedPath(s, autoCleanup))
  {
    PopRemovesFromBack(s, count);
    DensePrefix(s, |PopPath(s, count)|);
    PopRemovesFromBack(s, 1);
    DensePrefix(s, |PopPath(s, 1)|);
  }

  // ---------------------------------------------------------------- scenarios

  /** A jump of 20 from head `first` along the x-axis inserts the three points 20/3 apart ending at the target. */
  lemma JumpOfTwenty(lib: MathLib, path: seq<Point>, x: real, p: Point, q1: Point, q2: Point)
    requires lib.sqrt(400.0) == 20.0
    requires |path| > 0 && path[0] == Point(x, 0.0) && p == Point(x + 20.0, 0.0)
    requires q1 == Point(x + 40.0 / 3.0, 0.0) && q2 == Point(x + 20.0 / 3.0, 0.0)
    ensures Inserted(lib, path, p) == [p, q1, q2]
  {
    var first := Point(x, 0.0);
    assert LengthSQ(Sub(p, first)) == 400.0;
    assert Distance(lib, p, first) == 20.0;
    assert InterpolationCount(20.0) == 3;
    var iv := Interval(first, p, 3);
    assert iv == Point(20.0 / 3.0, 0.0);
    assert Run(first, iv, 1) == [Point(x + 20.0 / 3.0, 0.0)];
    assert Run(first, iv, 2) == [Point(x + 40.0 / 3.0, 0.0)] + Run(first, iv, 1);
    assert Run(first, iv, 3) == [Point(x + 20.0, 0.0)] + Run(first, iv, 2);
  }

  /**
   * Point limit 5; push (x,0), (x+20,0), (x+40,0). Each jump of 20 inserts
   * floor(20 / 10) + 1 = 3 points 20/3 apart; after the third push 7 points
   * are stored and eviction drops the oldest two, (x+20/3, 0) and (x, 0).
   */
  lemma ThreePushesScenario(lib: MathLib, x: real)
    requires lib.sqrt(400.0) == 20.0
    ensures PushPath(lib, [], Point(x, 0.0), 5) == [Point(x, 0.0)]
    ensures PushPath(lib, [Point(x, 0.0)], Point(x + 20.0, 0.0), 5) ==
      [Point(x + 20.0, 0.0), Point(x + 40.0 / 3.0, 0.0), Point(x + 20.0 / 3.0, 0.0), Point(x, 0.0)]
    ensures PushPath(lib, [Point(x + 20.0, 0.0), Point(x + 40.0 / 3.0, 0.0), Point(x + 20.0 / 3.0, 0.0), Point(x, 0.0)], Point(x + 40.0, 0.0), 5) ==
      [Point(x + 40.0, 0.0), Point(x + 100.0 / 3.0, 0.0), Point(x + 80.0 / 3.0, 0.0), Point(x + 20.0, 0.0), Point(x + 40.0 / 3.0, 0.0)]
  {
    PushOntoEmpty(lib, Point(x, 0.0), 5);
    var p1 := [Point(x, 0.0)];
    var r2 := [Point(x + 20.0, 0.0), Point(x + 40.0 / 3.0, 0.0), Point(x + 20.0 / 3.0, 0.0)];
    JumpOfTwenty(lib, p1, x, r2[0], r2[1], r2[2]);
    EvictKeepsFront(r2 + p1, 5);
    var p2 := r2 + p1;
    var r3 := [Point(x + 40.0, 0.0), Point(x + 100.0 / 3.0, 0.0), Point(x + 80.0 / 3.0, 0.0)];
    JumpOfTwenty(lib, p2, x + 20.0, r3[0], r3[1], r3[2]);
    EvictKeepsFront(r3 + p2, 5);
    assert (r3 + p2)[..5] == r3 + p2[..2];
  }

  /** Under auto-cleanup a drain tick on a 3-point path clears it and requests removal; on 4 points it only pops. */
  lemma DrainScenario(a: Point, b: Point, c: Point, d: Point)
    ensures DrainedPath([a, b, c], true) == [] && DetachRequested([a, b, c], true)
    ensures DrainedPath([a, b, c, d], true) == [a, b, c] && !DetachRequested([a, b, c, d], true)
    ensures DrainedPath([a, b, c], false) == [a, b] && !DetachRequested([a, b, c], false)
  {
    DrainRemovesAtMostOne([a, b, c], true);
    DrainRemovesAtMostOne([a, b, c, d], true);
    DrainRemovesAtMostOne([a, b, c], false);
    assert [a, b, c, d][..3] == [a, b, c];
    assert [a, b, c][..2] == [a, b];
  }
}
