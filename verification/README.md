# Sphere-and-curve WebGL demo: geometry and animation core

The demo draws a sphere-like mesh that slides along a smooth closed curve.
This project models the part of `main.js` that builds and moves that geometry,
with every WebGL and DOM call removed. It is pure sequence manipulation over
homogeneous 4-vectors (`Vectors.Vec4`, exact reals).

- **Curve builder** (`chaikin.dfy`, module `Chaikin`). `chaikin2D` performs
  Chaikin corner cutting on the closed seed hexagon. Each round replaces edge
  (P_i, P_(i+1) mod n) by its 3/4–1/4 and 1/4–3/4 points. The base case
  appends the first point again.
- **Geometry builder** (`mesh.dfy`, module `Mesh`). `newTriangle`,
  `divideTriangle` and the array-building part of `shape3D` are modelled.
  - Each of the tetrahedron's four faces is split recursively into four.
  - Leaves push three vertices, four normal scalars per vertex (x, y, z, 0)
    and three on the `numPyramid` counter.
  - The sphere projection `normalize` is the parameter `proj`.
- **Path resampler** (`resampler.dfy`, module `Resampler`).
  `calculateAnimDivisions` maps the curve onto exactly `animateSubdivisions`
  waypoints in one of three ways:
  - returns it unchanged when the lengths are equal;
  - decimates to the nearest index when the curve is longer;
  - interpolates linearly between floor and ceiling points when it is shorter.

  It exists both as the code runs it (the two loops and the equal-length
  branch, as methods) and as a function. The methods are proved equal to
  the function.
- **Translator** (`animation.dfy`, module `Animation`).
  - `incrementAnimPos` steps the cursor round the loop.
  - `translatePyramid` undoes the previous translation and applies the
    waypoint at the cursor.
- **Demo state machine** (`demo.dfy`, `invariant.dfy`, `handlers.dfy`).
  - The program's globals form a `Scene`.
  - The keydown handler (`m q e i j a l`) and an animation frame are
    functions on it, with the rendering calls dropped.
  - An invariant `Invariant.Valid` is proved to hold after `initRender` and
    to be kept by every key and every frame. It says:
    - the mesh level stays in [1, 8] and the curve level in [0, 8];
    - the cursor stays in [0, 150);
    - the curve and waypoints are those of the current curve level;
    - the mesh is the current level's mesh moved by exactly the waypoint it
      carries.
  - A frame's cursor step is one `Animation.Advance`, so the animation
    lemmas apply to the demo's frames: from a state whose mesh sits at the
    waypoint under the cursor, one loop of 150 frames returns the scene to
    where it started (`Invariant.AnimationLoopReturns`). Not every reachable
    state is of that kind. A curve-level key pressed while animating
    recomputes the waypoints but leaves the mesh where it was, and the mesh
    then stays off the new waypoint under the cursor until the next animating
    frame, a mesh key (m, q or e, which rebuild the mesh at that waypoint) or
    a curve-level key pressed while paused. A pausing `a` does not end it,
    since its `render` runs with the animation off and moves nothing; nor do
    `l`, unknown keys or level keys at their bounds.

Where one might expect otherwise, the model follows the code:

- **Curve length.** The curve has n·2^k + 1 points at every level k, not
  6·2^k. The closing copy of the first point is added once, at the bottom of
  the recursion, so the hexagon gives 7 points at level 0 and 13 (not 12) at
  level 1 (`Chaikin.SeedCurveLengths`).
- **Resampling three points onto two waypoints.** The step is
  (3 − 1) / 2 = 1, so the sampled indices are round(0) = 0 and
  round(1) = 1, not 0 and 2 (`Resampler.ThreePointsOntoTwo`).
- **Unreachable clamp branches.** Over exact reals the "clamp to the last
  point" branches of both resampling loops are dead
  (`Resampler.DecimatedAtNearest`, `Resampler.InterpolatedAtConvex`).

## Model

| member | source | states |
|---|---|---|
| Chaikin.Chaikin2D | main.js:158-181 | on n ≥ 1 points, k rounds give exactly n·2^k + 1 points, and the last point equals the first |
| Chaikin.CornerCut | main.js:168-178 | one round turns n points into 2n |
| Chaikin.CornerCutAt | main.js:170-177 | output points 2i and 2i+1 of a round are 3/4·P_i + 1/4·P_(i+1 mod n) and 1/4·P_i + 3/4·P_(i+1 mod n) in x and y; z and w come from P_i; the last edge wraps round to P_0 |
| Chaikin.CornerCutLoop | main.js:168-178 | the loop as written, pushing two cuts per index, builds exactly the round described by CornerCutAt |
| Chaikin.ChaikinClosesOnce | main.js:158-181 | the curve is k plain rounds of cutting followed by one copy of its first point: the closing point is added once and never fed back into a round |
| Chaikin.CornerCutBelow | main.js:170-178 | a round keeps every point in each half-plane holding the polygon |
| Chaikin.ChaikinStaysInHull | main.js:158-181 | every point of the curve lies in the convex hull of the polygon it was cut from |
| Chaikin.ChaikinKeepsLevel | main.js:176-177 | z and w are carried through: a polygon in one plane with one w gives a curve in that plane with that w |
| Chaikin.SeedCurveLengths | main.js:186-191 | the seed hexagon gives 7 points with the first repeated at level 0 and 13 points at level 1 |
| Chaikin.CurveLengthOdd | main.js:161-180 | a polygon with an even number of points gives a curve of odd length at every level |
| Chaikin.CurveLengthNotEven | main.js:161-180 | such a curve never has an even number of points |
| Mesh.NewTriangle | main.js:86-96 | pushes the three vertices in order and their normals (x, y, z, 0 each) in order, adds three to the counter, and keeps the normal array aligned with the vertex array |
| Mesh.Leaves | main.js:103-121 | the subdivision tree of depth d has 4^d leaf faces |
| Mesh.DivideTriangleAppendsLeaves | main.js:103-121 | divideTriangle appends the leaf faces, in the order (a,ab,ac), (ab,b,bc), (bc,c,ac), (ab,bc,ac) at every level, to the vertex array, their normals to the normal array, and three per face to the counter; nothing already there changes |
| Mesh.DivideTriangleCounts | main.js:103-121 | divideTriangle adds exactly 3·4^d vertices and 3·4^d to the counter, keeps the earlier vertices, and keeps the normal array aligned |
| Mesh.LeavesArePoints | main.js:103-121 | with a projection that keeps w, corners with w = 1 give leaf vertices with w = 1 |
| Mesh.NormalsOfAligned | main.js:91-93 | the normal scalars of a run of vertices are four per vertex, scalars 4i..4i+3 being vertex i's (x, y, z, 0) |
| Mesh.AlignedAppend | main.js:87-93 | pushing vertices together with their normals keeps the two arrays aligned |
| Mesh.Faces | main.js:132-135 | the mesh at depth d has 4·4^d faces |
| Mesh.BuildFacesAppends | main.js:132-135 | the four divideTriangle calls append the faces of the four tetrahedron faces, in call order |
| Mesh.Shape3DBuildsMesh | main.js:127-135 | after shape3D the vertex array holds exactly the 12·4^d vertices of the faces and the normal array their aligned normals; the counter grew by 12·4^d on top of what it held |
| Mesh.Shape3DCountOverruns | main.js:95 | as written, after a second rebuild the counter is twice the vertex count |
| Mesh.RebuildCountsVertices | main.js:127-135 | with the counter reset, it equals the vertex count 12·4^d after every rebuild, and the arrays are those shape3D builds |
| Resampler.Round | main.js:215 | Math.round returns the integer within half of x, with halves rounded up |
| Resampler.Ceil | main.js:237 | Math.ceil returns the least integer not below x |
| Resampler.Step | main.js:212 | dirtyIter is non-negative, and n steps cover the len − 1 edges exactly |
| Resampler.Resample | main.js:200-254 | exactly n waypoints, and the curve itself when its length already is n |
| Resampler.PositionBounds | main.js:212-224 | every position visited lies on the curve, at least one step before its last point |
| Resampler.StepAtLeastOne | main.js:211-212 | when the curve is longer than the target, the step is at least one point |
| Resampler.DecimatedAtNearest | main.js:214-225 | waypoint i is line[round(i·(len−1)/n)]; the index is valid and never the last, so the clamp branch is dead; it lies within half a point of the exact position |
| Resampler.DecimationIncreasing | main.js:214-225 | decimation reads strictly increasing indices: no point is read twice |
| Resampler.InterpolatedAtConvex | main.js:236-252 | floor and ceiling are valid indices at most one apart, so the clamp branch is dead; x and y are the convex combination of the two points with weight in [0, 1) on the ceiling point; z and w are the ceiling point's |
| Resampler.ResampleStartsAtFirst | main.js:200-254 | the first waypoint is the first point of the curve |
| Resampler.ResampleInHull | main.js:200-254 | every waypoint lies in the convex hull of the curve |
| Resampler.ResampleKeepsLevel | main.js:200-254 | a curve in one plane with one w gives waypoints in that plane with that w |
| Resampler.ThreePointsOntoTwo | main.js:211-225 | three points resampled onto two waypoints give the points at indices 0 and 1 |
| Resampler.DecimateLoop | main.js:211-226 | the decimating loop with its running iterator pushes exactly the n waypoints Resample describes |
| Resampler.InterpolateLoop | main.js:230-253 | the interpolating loop with its running iterator pushes exactly the n waypoints Resample describes |
| Resampler.CalculateAnimDivisions | main.js:200-254 | the three-way case split yields exactly n waypoints, equal to Resample |
| Animation.IncrementAnimPos | main.js:260-266 | the cursor stays in [0, n) and advances by one modulo n |
| Animation.TranslatePyramid | main.js:275-290 | afterwards the current translation is the target; the vertex count and every vertex's z and w are unchanged |
| Animation.TranslateTracksWaypoint | main.js:275-290 | a mesh at its base position moved by the current translation ends at its base moved by the new waypoint, whatever translation it carried before |
| Animation.Advance | main.js:260-268 | after a frame the cursor is in range and the mesh carries the waypoint at the cursor |
| Animation.AdvanceManyTracks | main.js:260-290 | within one loop, k frames move the cursor k places round the loop and leave the mesh at its base moved by the waypoint there |
| Animation.CycleReturnsToStart | main.js:260-290 | one whole loop of n frames returns cursor, translation and every vertex to where they started |
| Demo.Shape2D | main.js:186-194 | shape2D always leaves exactly 150 waypoints |
| Demo.SetCurveLevel | main.js:476-497 | a curve-level key leaves the new level, the curve of that level and its resampled waypoints |
| Demo.SetCurveLevelMovesMesh | main.js:476-497 | a curve-level key keeps the cursor; when paused it translates the mesh at once to the new curve's waypoint under the cursor, and while animating it leaves mesh and translation for the next frame |
| Invariant.ReshapeValid | main.js:127-151 | after shape3D the translation is the waypoint at the cursor and the mesh is the rebuilt mesh moved by it, with its normals; with the counter reset as in `Mesh.Rebuild`, the counter matches the vertex count |
| Invariant.TranslateValid | main.js:275-290 | translatePyramid keeps the invariant |
| Invariant.RenderValid | main.js:385-406 | a frame keeps the invariant, and while animating it leaves the mesh at the waypoint under the new cursor |
| Demo.StepCursorAdvances | main.js:260-268 | the frame's cursor step on the scene is exactly one `Animation.Advance` of its mesh, translation and cursor |
| Invariant.FramesAdvance | main.js:385-406 | while animating, k frames of the demo are k steps of `Animation.AdvanceMany` |
| Invariant.AnimationLoopReturns | main.js:260-290 | from a valid state whose mesh sits at the waypoint under the cursor, 150 animation frames bring the whole scene back to where it was |
| Invariant.ShapesValid | main.js:313-317 | shape2D then shape3D from in-range levels gives a valid state |
| Invariant.InitValid | main.js:297-329 | the state after initRender is valid |
| Invariant.FlagsKeepValid | main.js:444-517 | the wireframe, animation and lighting flags do not affect the invariant |
| Invariant.ReshapeSettleValid | main.js:445-473 | a rebuild followed by a render when not animating restores the invariant |
| Invariant.ValidBuffers | main.js:385-400 | in a valid state the mesh has 12·4^d vertices, the draw count (with the counter reset as in `Mesh.Rebuild`) equals the vertex count, the normals are aligned, the curve has 6·2^k + 1 points, and there are 150 waypoints, the first being the curve's first point |
| Invariant.SeedWaypointsInHull | main.js:186-194 | the waypoints of every curve level lie in the seed hexagon's convex hull and in its plane z = 0, w = 1 |
| Invariant.WaypointsInSeedHull | main.js:186-194 | in a valid state the waypoints lie in the seed hexagon's hull and plane |
| Invariant.CurveNeverMatchesLoop | main.js:205-207 | in a valid state the curve never has exactly 150 points, so the equal-length branch is never taken |
| Invariant.SeedCurveNotLoop | main.js:205-207 | no level of the seed curve has exactly 150 points |
| Handlers.ToggleWireframeValid | main.js:445-451 | key m keeps the invariant |
| Handlers.SetMeshLevelValid | main.js:454-473 | moving the mesh level to any level in [1, 8] and rebuilding keeps the invariant |
| Handlers.SetCurveLevelValid | main.js:476-497 | moving the curve level to any level in [0, 8] rebuilds curve and waypoints and restores the invariant |
| Handlers.ToggleAnimateValid | main.js:500-503 | key a keeps the invariant |
| Handlers.ToggleLightingValid | main.js:506-517 | key l flips the lighting flag between 0 and 1 and keeps the invariant |
| Handlers.KeyAtBoundIgnored | main.js:441-519 | a level key at the end of its range, and any unknown key, leaves the state unchanged |
| Handlers.KeyClampsLevels | main.js:454-497 | q/e move the mesh level by one inside [1, 8], i/j move the curve level by one inside [0, 8], and no other key changes either level |
| Handlers.MeshDownValid | main.js:454-462 | key q keeps the invariant |
| Handlers.MeshUpValid | main.js:465-473 | key e keeps the invariant |
| Handlers.CurveDownValid | main.js:476-485 | key i above level 0 drops the curve level by one and restores the invariant, whatever the old curve was |
| Handlers.CurveUpValid | main.js:488-497 | key j below level 8 raises the curve level by one and restores the invariant, whatever the old curve was |
| Handlers.KeyValid | main.js:441-519 | every key press keeps the invariant |
| Handlers.HandleValid | main.js:441-519 | every key press and every animation frame keeps the invariant |

## Left out

- WebGL and DOM plumbing: `initEnvironment`, `initGLBuffer`, the draw calls of `initRender` and `render`, `main`, canvas sizing and shader uniforms. They are I/O against a graphics API. `render` is kept only as its one effect on the geometry, the animation step.
- `requestAnimationFrame`: the animation loop is modelled as a stream of `Frame` events, each one `render` call.
- `normalize` (from the vector helper library loaded alongside main.js) is the parameter `proj`. Unit length of the mesh vertices is not proved, since it needs square roots.
- `mix(a, b, 0.5)` is the exact componentwise midpoint. `translate(tx, ty, 0)` multiplied with a vertex is `Vectors.Shift`, the exact homogeneous product.
- Floating point: all arithmetic is over exact reals. The drift of `iterator += dirtyIter` and of repeated undo/apply translations is not modelled.
- The lighting flag only feeds a shader uniform. The wireframe flag feeds a uniform and also picks how the mesh is drawn: a `LINE_STRIP` or a `TRIANGLES` call per triangle in `initRender` (main.js:319-327), and in `render` a `LINE_STRIP` per triangle or one `TRIANGLES` call for the whole mesh (main.js:394-401). Both are kept as fields of the scene and nothing else.
- The aliasing in `chaikin2D`'s base case, which pushes onto its input array, is modelled as a fresh `arr + [arr[0]]`. `shape2D` passes a fresh literal each time, so the mutation is never observed.
- `Chaikin.Chaikin2D` requires a non-empty polygon, and `Resampler.Resample` a non-empty curve. On empty input `chaikin2D` pushes `arr[0]`, which is undefined (main.js:163). `calculateAnimDivisions` on an empty `lineArr` takes the shorter-line branch, where the test `roof < lineArr.length` never holds, so it pushes `lineArr[lineArr.length - 1]`, also undefined, 150 times (main.js:241, 248). The program always passes the six-point seed and its curves.
- Animation.AdvanceManyTracks: stated for at most one loop of frames (k ≤ n). Longer runs follow by repeating `Animation.CycleReturnsToStart`.
- The demo state machine uses the corrected rebuild `Mesh.Rebuild`, which resets the counter; see Findings. The as-written `Mesh.Shape3D` is modelled and its overrun proved.
- Invariant.ReshapeValid: its counter clause holds for the corrected rebuild only. As written, `shape3D` leaves `numPyramid` at 12·4^d more than before, so from the second rebuild on it exceeds the vertex count (`Mesh.Shape3DCountOverruns`).
- Invariant.ValidBuffers: "the draw count equals the vertex count" holds for the corrected rebuild only. With the code as written the count passed at line 400 is larger than the vertex array after any second rebuild.
- Invariant.MeshValid: states the counter of the corrected rebuild, for the same reason.
- `Handlers.CurveDownValid` and `Handlers.CurveUpValid` need only the weaker invariant `Invariant.ValidButCurve`, because the key rebuilds the curve and the waypoints.

## Findings

| source | as written | input that shows it | evidently intended | confidence | as-written member | corrected member |
|---|---|---|---|---|---|---|
| main.js:127-135 | `shape3D` empties the vertex and normal arrays but never resets `numPyramid`, which `newTriangle` only ever increments (line 95). `render` passes it as the vertex count of `gl.drawArrays(gl.TRIANGLES, 0, numPyramid)` (line 400). | Any level d: `initRender` builds the mesh, then key `m` rebuilds it. The counter is then 24·4^d while the array holds 12·4^d vertices. | `numPyramid = 0` alongside the array resets, so the counter equals the vertex count after every rebuild | not executed | Mesh.Shape3DCountOverruns | Mesh.RebuildCountsVertices |
