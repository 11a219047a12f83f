/** The invariant every state of the demo keeps, from `initRender` through
    any sequence of key presses and animation frames, and what it implies
    for the buffers the renderer draws from. */
module Invariant {
  import opened Vectors
  import opened Chaikin
  import Resampler
  import Mesh
  import opened Animation
  import opened Demo

  /** The part of the invariant about the levels, the flag, the curve, the
      waypoints and the cursor: the levels within their bounds, the curve and
      the waypoints those of the current curve level, the cursor inside the
      loop. */
  predicate CurveValid(s: Scene) {
    && 1 <= s.pyramidSubdivisions <= 8
    && s.lineSubdivisions <= 8
    && (s.lightingFlag == 0 || s.lightingFlag == 1)
    && s.lineArr == Chaikin2D(LineSeed, s.lineSubdivisions)
    && s.animatePosArr == Resampler.Resample(s.lineArr, AnimateSubdivisions)
    && s.pyramidPos < AnimateSubdivisions
  }

  /** The part of the invariant about the mesh: the mesh of the current mesh
      level moved by the translation it carries, with its normals and a draw
      count that matches it. */
  predicate MeshValid(s: Scene, proj: Vec4 -> Vec4) {
    && s.curr.Applied?
    && var base := Mesh.Rebuild(s.pyramidSubdivisions, proj);
       && s.mesh.normals == base.normals
       && s.mesh.count == |base.vertices|
       && PlacedAt(s.mesh.vertices, base.vertices, s.curr)
  }

  /** The invariant of every state the handlers reach. */
  predicate Valid(s: Scene, proj: Vec4 -> Vec4) {
    CurveValid(s) && MeshValid(s, proj)
  }

  /** The invariant with the curve and the waypoints left free: all that a
      curve level key needs, since it rebuilds both. */
  predicate ValidButCurve(s: Scene, proj: Vec4 -> Vec4) {
    && 1 <= s.pyramidSubdivisions <= 8
    && s.lineSubdivisions <= 8
    && (s.lightingFlag == 0 || s.lightingFlag == 1)
    && Ready(s)
    && MeshValid(s, proj)
  }

  lemma ReshapeValid(s: Scene, proj: Vec4 -> Vec4)
    requires Ready(s)
    ensures var r := Reshape(s, proj);
            var base := Mesh.Rebuild(s.pyramidSubdivisions, proj);
            && r.curr == Applied(s.animatePosArr[s.pyramidPos])
            && r.mesh.normals == base.normals
            && r.mesh.count == |base.vertices|
            && PlacedAt(r.mesh.vertices, base.vertices, r.curr)
  {
    var base := Mesh.Rebuild(s.pyramidSubdivisions, proj);
    Mesh.RebuildCountsVertices(s.mesh, s.pyramidSubdivisions, proj);
    TranslateTracksWaypoint(Pose(base.vertices, Undefined), base.vertices, s.animatePosArr[s.pyramidPos]);
  }

  lemma TranslateValid(s: Scene, proj: Vec4 -> Vec4)
    requires Valid(s, proj)
    requires s.pyramidPos < |s.animatePosArr|
    ensures Valid(Translate(s), proj)
  {
    var base := Mesh.Rebuild(s.pyramidSubdivisions, proj);
    TranslateTracksWaypoint(Pose(s.mesh.vertices, s.curr), base.vertices, s.animatePosArr[s.pyramidPos]);
  }

  lemma RenderValid(s: Scene, proj: Vec4 -> Vec4)
    requires Valid(s, proj)
    ensures Valid(Render(s), proj)
    ensures s.animate ==> Render(s).curr == Applied(Render(s).animatePosArr[Render(s).pyramidPos])
  {
    if s.animate {
      TranslateValid(s.(pyramidPos := IncrementAnimPos(s.pyramidPos, AnimateSubdivisions)), proj);
    }
  }

  /** `shape2D` then `shape3D` from any globals with in-range levels and
      lighting flag gives a state satisfying the invariant. */
  lemma ShapesValid(s: Scene, proj: Vec4 -> Vec4)
    requires 1 <= s.pyramidSubdivisions <= 8 && s.lineSubdivisions <= 8
    requires s.lightingFlag == 0 || s.lightingFlag == 1
    requires s.pyramidPos < AnimateSubdivisions
    ensures Valid(Reshape(Shape2D(s), proj), proj)
  {
    ReshapeValid(Shape2D(s), proj);
  }

  /** The state after `initRender` satisfies the invariant. */
  lemma InitValid(proj: Vec4 -> Vec4)
    ensures Valid(Init(proj), proj)
  {
    ShapesValid(Scene(false, 0, false, 4, 0, Mesh.MeshState([], [], 0), Undefined, [], [], 0), proj);
  }

  /** The flags only feed the shaders: changing them keeps the invariant. */
  lemma FlagsKeepValid(s: Scene, animate: bool, wireframe: bool, lightingFlag: int, proj: Vec4 -> Vec4)
    requires Valid(s, proj) && (lightingFlag == 0 || lightingFlag == 1)
    ensures Valid(s.(animate := animate, wireframe := wireframe, lightingFlag := lightingFlag), proj)
  {
  }

  /** Rebuilding the mesh, then rendering if not animating, restores the
      invariant. */
  lemma ReshapeSettleValid(t: Scene, proj: Vec4 -> Vec4)
    requires CurveValid(t)
    ensures Valid(Settle(Reshape(t, proj)), proj)
  {
    ReshapeValid(t, proj);
    RenderValid(Reshape(t, proj), proj);
  }

  /** What the invariant says about the buffers handed to the renderer: the
      mesh has 12 * 4^level vertices, the normal array four scalars per vertex
      lined up with the untranslated mesh, the draw count equals the vertex
      count, the curve has 6 * 2^level + 1 points and there are 150 waypoints,
      the first of them the curve's first point. */
  lemma ValidBuffers(s: Scene, proj: Vec4 -> Vec4)
    requires Valid(s, proj)
    ensures |s.mesh.vertices| == 12 * Mesh.Pow4(s.pyramidSubdivisions)
    ensures Mesh.Aligned(Mesh.Rebuild(s.pyramidSubdivisions, proj).vertices, s.mesh.normals)
    ensures s.mesh.count == |s.mesh.vertices|
    ensures |s.lineArr| == 6 * Pow2(s.lineSubdivisions) + 1
    ensures |s.animatePosArr| == AnimateSubdivisions
    ensures s.animatePosArr[0] == s.lineArr[0]
  {
    Mesh.RebuildCountsVertices(s.mesh, s.pyramidSubdivisions, proj);
    Resampler.ResampleStartsAtFirst(s.lineArr, AnimateSubdivisions);
  }

  /** The waypoints of any curve level lie in every half-plane that holds
      the seed hexagon, and in its plane z = 0, w = 1. */
  lemma SeedWaypointsInHull(level: nat, a: real, b: real, c: real)
    requires AllBelow(LineSeed, a, b, c)
    ensures AllBelow(Resampler.Resample(Chaikin2D(LineSeed, level), AnimateSubdivisions), a, b, c)
    ensures AllLevel(Resampler.Resample(Chaikin2D(LineSeed, level), AnimateSubdivisions), 0.0, 1.0)
  {
    var line := Chaikin2D(LineSeed, level);
    ChaikinStaysInHull(LineSeed, level, a, b, c);
    Resampler.ResampleInHull(line, AnimateSubdivisions, a, b, c);
    ChaikinKeepsLevel(LineSeed, level, 0.0, 1.0);
    Resampler.ResampleKeepsLevel(line, AnimateSubdivisions, 0.0, 1.0);
  }

  /** The path the mesh follows stays inside the seed hexagon's convex hull,
      and in its plane z = 0, w = 1. */
  lemma WaypointsInSeedHull(s: Scene, proj: Vec4 -> Vec4, a: real, b: real, c: real)
    requires Valid(s, proj)
    requires AllBelow(LineSeed, a, b, c)
    ensures AllBelow(s.animatePosArr, a, b, c)
    ensures AllLevel(s.animatePosArr, 0.0, 1.0)
  {
    SeedWaypointsInHull(s.lineSubdivisions, a, b, c);
  }

  /** The curve never has exactly 150 points at any level (its length is odd),
      so the waypoints are always resampled, never the curve itself. */
  lemma CurveNeverMatchesLoop(s: Scene, proj: Vec4 -> Vec4)
    requires Valid(s, proj)
    ensures |s.lineArr| != AnimateSubdivisions
  {
    SeedCurveNotLoop(s.lineSubdivisions);
  }

  /** No level of the seed curve has exactly 150 points. */
  lemma SeedCurveNotLoop(k: nat)
    ensures |Chaikin2D(LineSeed, k)| != AnimateSubdivisions
  {
    CurveLengthNotEven(LineSeed, k, AnimateSubdivisions);
  }

  /** While the animation runs, k frames of the demo are k steps of
      `Animation.AdvanceMany` on the scene's mesh, translation and cursor. */
  lemma {:induction false} FramesAdvance(s: Scene, k: nat)
    requires AnimateSubdivisions <= |s.animatePosArr| && s.animate
    ensures Frames(s, k) == WithAnim(s, AdvanceMany(AnimOf(s), AnimateSubdivisions, k))
  {
    if k > 0 {
      FramesAdvance(s, k - 1);
      StepCursorAdvances(Frames(s, k - 1));
    }
  }

  /** One whole loop of 150 frames from a valid state whose mesh sits at the
      waypoint under the cursor brings the scene back exactly where it was. */
  lemma AnimationLoopReturns(s: Scene, proj: Vec4 -> Vec4)
    requires Valid(s, proj) && s.animate
    requires s.curr == Applied(s.animatePosArr[s.pyramidPos])
    ensures Frames(s, AnimateSubdivisions) == s
  {
    var base := Mesh.Rebuild(s.pyramidSubdivisions, proj);
    FramesAdvance(s, AnimateSubdivisions);
    CycleReturnsToStart(AnimOf(s), AnimateSubdivisions, base.vertices);
  }
}
