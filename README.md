# CCBlade in Dafny

CCBlade is a cocos2d-x node that draws a fading "blade" trail behind a
moving touch. It has two parts:

- the path, a bounded list of points with the newest first. `push`
  prepends to it, interpolating large jumps; it is then cut back to the
  point limit. `pop` and the drain tick `popLastOne` remove points from the
  back.
- the ribbon mesher `populateVertices`. It writes a head/body/tail triangle
  strip into two fixed-size buffers, `_vertices` and `_texCoords`, each of
  `2 * pointLimit - 2` slots.

The project has four modules:

- `Geometry` (geometry.dfy) holds the point helpers `cgpSub`, `cgpAdd`,
  `cgpMult`, `cgpDot`, `cgpLengthSQ`, `cgpDistance`, `angle`,
  `cgpRotateByAngle` and `populateBorderVertices`. Coordinates are exact
  reals. The library routines `sqrtf`, `atan`, `cosf` and `sinf` are the
  fields of a `MathLib` value, so nothing is assumed about them unless a
  lemma states it as a hypothesis.
- `PathBuffer` (path_buffer.dfy) gives, as functions on sequences, what
  push, pop and one drain tick do to the path. It proves the properties of
  those functions:
  - insertion counts and the interpolated run;
  - prefix-preserving eviction and back-only pops;
  - the spacing invariant: no two neighbouring stored points are 10 or more
    apart.
- `Ribbon` (ribbon.dfy) gives the vertex and texture-coordinate buffers of
  an N-point path as sequences. The border routine is a parameter, so the
  layout is independent of trigonometry. It also proves the taper
  `stroke - i * stroke / N` and the fixed texture pattern.
- `CCBlade` (blade.dfy) is the class `Blade`. Its `path` is a `seq` field
  and its two buffers are `array`s allocated once. `Push`, `Pop`,
  `PopLastOne` and `PopulateVertices` are methods with the source's loops.
  Each is proved to change the path exactly as `PathBuffer` says, and to
  leave the buffers holding the `Ribbon` sequences. The object invariant
  `Valid()` says that whenever the path has at least three points (the
  precondition of drawing), the first `2N - 2` slots of each buffer hold
  the ribbon of the current path.

Dafny's array bounds checks prove that every buffer write of
`populateVertices` is in range for every path of 2 to pointLimit points.
That includes the unconditional writes to `_texCoords[1]` and
`_texCoords[2]`, and the two-point path that `push` can hand it.

One consequence of the code: point limit 5 and pushes of (x,0), (x+20,0),
(x+40,0) leave seven points before eviction. Eviction drops the oldest
input (x,0) and the interpolated point (x+20/3,0), not the two oldest
inputs. `PathBuffer.ThreePushesScenario` states the resulting path.

## Model

| member | source | states |
|---|---|---|
| Geometry.Sub | CCBlade.cpp:31-34 | cgpSub, componentwise; `AddSubInverse` states that `Add` undoes it |
| Geometry.Add | CCBlade.cpp:61-64 | cgpAdd, componentwise; `AddSubInverse` states that `Sub` undoes it |
| Geometry.Mult | CCBlade.cpp:56-59 | cgpMult; `LengthSQScale` states its effect on the squared length |
| Geometry.Dot | CCBlade.cpp:36-39 | cgpDot; `LengthSQ` states that a vector's dot with itself is non-negative |
| Geometry.Length | CCBlade.cpp:46-49 | cgpLength over the abstract sqrt; `DistanceSquared` states what it is under an exact root |
| Geometry.Distance | CCBlade.cpp:51-54 | cgpDistance; `DistanceSymmetric` and `DistanceSquared` state its properties |
| Geometry.Rotate | CCBlade.cpp:66-74 | cgpRotateByAngle over the abstract cos and sin; `RotateRoundTrip` states its inverse |
| Geometry.Angle | CCBlade.cpp:76-90 | angle, with its four branches; `AngleRange` states its range |
| Geometry.BorderVertices | CCBlade.cpp:92-98 | populateBorderVertices; `BorderMidpoint` and `BorderWidth` state where the two points lie |
| Geometry.LengthSQ | CCBlade.cpp:41-44 | the squared length is never negative |
| Geometry.AddSubInverse | CCBlade.cpp:31-64 | adding back what was subtracted, or subtracting what was added, gives the point back |
| Geometry.LengthSQScale | CCBlade.cpp:41-59 | scaling a vector by s scales its squared length by s*s |
| Geometry.DistanceSymmetric | CCBlade.cpp:51-54 | distance does not depend on argument order, whatever sqrt is |
| Geometry.DistanceSquared | CCBlade.cpp:46-54 | with an exact square root, distance is non-negative and squares to the squared length |
| Geometry.RotateRoundTrip | CCBlade.cpp:66-74 | rotating by a and then by -a about the same pivot is the identity, given cos even, sin odd and cos²+sin²=1 |
| Geometry.AngleRange | CCBlade.cpp:76-90 | the angle lies in [-π, 3π/2) when atan stays in its principal range |
| Geometry.BorderMidpoint | CCBlade.cpp:92-98 | the two border points are symmetric about the rotated point at distance l along the segment |
| Geometry.BorderWidth | CCBlade.cpp:92-98 | the two border points are 2d apart, given cos²+sin²=1 |
| PathBuffer.Interval | CCBlade.cpp:203 | the interpolation step; `RunEndsAtTarget` and `IntervalShort` state its properties |
| PathBuffer.Run | CCBlade.cpp:204-206 | the points the interpolation loop prepends, count of them; `RunAt` and `RunSteps` state where each lies |
| PathBuffer.Inserted | CCBlade.cpp:192-207 | the points one push puts in front of the path; `PushInserts` states all three cases |
| PathBuffer.Evict | CCBlade.cpp:208-210 | the eviction loop; `EvictKeepsFront` states that it keeps the first min(size, limit) points |
| PathBuffer.PushPath | CCBlade.cpp:185-210 | the path after a push; `PushBounded`, `PushOntoEmpty` and `PushKeepsDense` state its properties, and `CCBlade.Blade.Push` is proved to produce it |
| PathBuffer.PopPath | CCBlade.cpp:217-220 | the pop loop; `PopRemovesFromBack` states which points remain, and `CCBlade.Blade.Pop` is proved to produce it |
| PathBuffer.DrainedPath | CCBlade.cpp:227-233 | the path after a drain tick; `DrainRemovesAtMostOne` states it in closed form, and `CCBlade.Blade.PopLastOne` is proved to produce it |
| PathBuffer.DetachRequested | CCBlade.cpp:230-232 | whether a drain tick removes the node; `DrainRemovesAtMostOne` states when, in both directions |
| PathBuffer.InterpolationCount | CCBlade.cpp:202 | the truncated count is at least 2 and is the unique c with (c-1)*10 <= d < c*10 |
| PathBuffer.RunAt | CCBlade.cpp:204-206 | after the loop, index k holds first + interval*(count-k), and the old head follows the run |
| PathBuffer.RunEndsAtTarget | CCBlade.cpp:203-205 | the last interpolated point is exactly the pushed point |
| PathBuffer.RunSteps | CCBlade.cpp:203-205 | consecutive run points, and the last run point and the old head, differ by exactly one interval |
| PathBuffer.PushInserts | CCBlade.cpp:192-207 | push always inserts at least one point and the new head is the pushed point; an empty path or a jump under 10 gets exactly [p]; otherwise floor(d/10)+1 run points follow, then the old head |
| PathBuffer.EvictKeepsFront | CCBlade.cpp:208-210 | eviction keeps exactly the first min(size, limit) points |
| PathBuffer.PushBounded | CCBlade.cpp:197-210 | after a push the size is min(inserted + old size, limit), the path is a prefix of inserted ++ old path, and its head is p |
| PathBuffer.PushOntoEmpty | CCBlade.cpp:192-195 | a push onto an empty path stores exactly [p] |
| PathBuffer.PopRemovesFromBack | CCBlade.cpp:217-220 | pop(count) leaves the front prefix of size - min(max(count,0), size) points |
| PathBuffer.DrainRemovesAtMostOne | CCBlade.cpp:227-234 | a drain tick removes at most one point from the back; under auto-cleanup a path left below 3 points is cleared and detachment is requested, iff auto-cleanup is on and fewer than 3 points remain |
| PathBuffer.IntervalShort | CCBlade.cpp:198-203 | the interpolation step is d/count long (squared) and under 10 |
| PathBuffer.InsertedSpacing | CCBlade.cpp:197-207 | each inserted point is closer than 10 to the next one, and the last to the old head, given an exact square root |
| PathBuffer.PushKeepsDense | CCBlade.cpp:185-210 | push keeps the path dense: no two neighbours 10 or more apart |
| PathBuffer.DrainKeepsDense | CCBlade.cpp:215-234 | pop and a drain tick keep the path dense |
| PathBuffer.JumpOfTwenty | CCBlade.cpp:197-207 | a jump of 20 along the x-axis inserts the target and the two points 20/3 apart before it |
| PathBuffer.ThreePushesScenario | CCBlade.cpp:185-210 | the three-push example at limit 5 ends with [x+40, x+100/3, x+80/3, x+20, x+40/3] on the x-axis |
| PathBuffer.DrainScenario | CCBlade.cpp:227-234 | under auto-cleanup a 3-point path is cleared with detachment and a 4-point path only pops; without it a 3-point path only pops |
| Ribbon.HalfWidth | CCBlade.cpp:162-166 | the taper; `HalfWidthDecreasing` and `HalfWidthBounds` state its properties |
| Ribbon.VertexBody | CCBlade.cpp:163-172 | the border pairs of body points 1..N-2; `RibbonVerticesAt` states where each lands |
| Ribbon.RibbonVertices | CCBlade.cpp:153-181 | the vertex buffer of a path; `RibbonVerticesAt` and `RibbonVerticesFrom` characterise it in both directions |
| Ribbon.RibbonTexCoords | CCBlade.cpp:153-181 | the texture-coordinate buffer of an N-point path; `TexCoordsAt` and `TexCoordsOfTwo` state it slot by slot |
| Ribbon.LayoutAt | CCBlade.cpp:135-136 | head at 0, body pair k at 2k+1 and 2k+2, tail at 2·body+1 |
| Ribbon.RibbonVerticesAt | CCBlade.cpp:153-179 | vertex 0 is path[0], vertex 2N-3 is path[N-1], and slots 2i-1, 2i hold the border pair of segment i-1 → i at half-width stroke - i*stroke/N |
| Ribbon.RibbonVerticesFrom | CCBlade.cpp:153-179 | conversely, any buffer with that head, tail and body pairs is the vertex buffer |
| Ribbon.TexCoordsAt | CCBlade.cpp:158-180 | for N >= 3 the texture coordinates are (0,0.5); (0.25,1),(0.25,0); (0.5,1),(0.5,0) for body points 2..N-2; (0.75,0.5), independent of the points |
| Ribbon.TexCoordsOfTwo | CCBlade.cpp:175-180 | a two-point path has texture coordinates (0,0.5),(0.75,0.5) only |
| Ribbon.HalfWidthDecreasing | CCBlade.cpp:162-166 | with a positive stroke the half-width strictly decreases with the body index |
| Ribbon.HalfWidthBounds | CCBlade.cpp:162-166 | with a positive stroke every body half-width lies in (0, stroke), and it would reach 0 at index N |
| CCBlade.ContentScaled | CCBlade.cpp:187-190 | skipping the multiplication for scale 1 gives the same point as multiplying |
| CCBlade.Blade.Valid | CCBlade.cpp:132-181 | the object invariant: fixed buffer sizes, the path within the point limit, the buffers holding the ribbon whenever at least 3 points are stored, draining only with a positive interval, and the border routine equal to `Geometry.BorderVertices` over the blade's `MathLib`; every method keeps it |
| CCBlade.Blade.constructor | CCBlade.cpp:125-139 | requires pointLimit >= 3; both buffers get exactly 2*pointLimit-2 zeroed slots; empty path, scaled stroke, auto-cleanup off |
| CCBlade.Blade.SetStroke | CCBlade.cpp:111-114 | the stroke becomes stroke*scale and the invariant holds |
| CCBlade.Blade.SetDrainInterval | CCBlade.cpp:241-249 | the interval is stored and draining is scheduled iff it is positive |
| CCBlade.Blade.AutoCleanup | CCBlade.cpp:251-257 | auto-cleanup is on; with no positive interval it becomes 1/60 and draining is scheduled, otherwise interval and schedule are unchanged |
| CCBlade.Blade.PopulateVertices | CCBlade.cpp:153-181 | for any path of 2..pointLimit points, the first 2N-2 slots of the buffers become the ribbon of the path; the rest are untouched except texCoords[2] |
| CCBlade.Blade.PopulateBody | CCBlade.cpp:161-172 | the body loop writes exactly slots 1..2N-4: border pairs and (0.5,1),(0.5,0) |
| CCBlade.Blade.MeshMatchesRibbon | CCBlade.cpp:153-181 | buffer contents written slot by slot are the ribbon sequences |
| CCBlade.Blade.Push | CCBlade.cpp:185-213 | the path becomes PushPath of the scaled point; an empty path gets [p] with the buffers untouched; otherwise the buffers are remeshed |
| CCBlade.Blade.Pop | CCBlade.cpp:215-225 | the path becomes PopPath; the buffers are remeshed iff at least 3 points remain, and are untouched otherwise |
| CCBlade.Blade.PopLastOne | CCBlade.cpp:227-234 | the path becomes DrainedPath; detachment is returned exactly when auto-cleanup leaves fewer than 3 points, and then draining stops; the buffers are remeshed with the current stroke if at least 3 points remain and untouched if the pop leaves fewer |
| CCBlade.Blade.Draw | CCBlade.cpp:259-276 | nothing is drawn below 3 points; otherwise the count 2N-2 fits both buffers, whose first 2N-2 slots hold the ribbon |

## Left out

- Texture loading, shader and uniform set-up, colour and opacity, and all GL calls of `draw` are engine calls. `Draw` keeps only the guard and the vertex count.
- Scheduling `popLastOne` is timer plumbing. The model records it as the `draining` flag, and a drain tick is an explicit call to `PopLastOne`.
- `removeFromParentAndCleanup` is a scene-graph side effect. It becomes the `detach` result of `PopLastOne`, which also clears `draining` because the removal unschedules the node.
- `CC_CONTENT_SCALE_FACTOR()` is an environment query. It is the `scale` parameter of the constructor, `SetStroke` and `Push`.
- Floating point becomes exact reals. Rounding, and a float distance too large to fit the `int` count, are not modelled.
- `sqrtf`, `atan`, `cosf` and `sinf` are abstract (`MathLib`). Lemmas that need one of their values state it as a hypothesis.
- `_drainInterval` is not initialised by the constructor. The model starts it at 0, which means not draining.
- The getters `getStroke` and `getDrainInterval`, `create`, the destructor and memory management are not modelled. They contain no logic beyond a field read or an allocation.
- `cocos2dx/CCBlade.h` gives only the field list; it holds no logic.
- Blade.SetStroke: the buffers keep the mesh of the old stroke until the path next changes, as in the source. `Valid()` tracks this with the ghost `meshStroke`.
