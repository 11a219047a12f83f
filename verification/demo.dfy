/** The demo's state and its keyboard and frame handlers with the rendering
    calls dropped: what `initRender`, the keydown handler and `render` do to
    the geometry, the curve, the waypoints and the cursor. */
module Demo {
  import opened Vectors
  import opened Chaikin
  import opened Resampler
  import Mesh
  import opened Animation

  /** `animateSubdivisions`: the number of waypoints in one animation loop. */
  const AnimateSubdivisions: nat := 150

  /** The program's globals that the geometry and animation read and write. */
  datatype Scene = Scene(
    wireframe: bool,
    lightingFlag: int,
    animate: bool,
    pyramidSubdivisions: nat,
    lineSubdivisions: nat,
    mesh: Mesh.MeshState,
    curr: Translation,
    lineArr: seq<Vec4>,
    animatePosArr: seq<Vec4>,
    pyramidPos: nat)

  /** The demo events: a key press, or an animation frame (`render` run by
      `requestAnimationFrame`). */
  datatype Event = KeyDown(key: char) | Frame

  /** What the handlers need to index the waypoints at the cursor. */
  predicate Ready(s: Scene) {
    s.pyramidPos < AnimateSubdivisions <= |s.animatePosArr|
  }

  /** `shape2D`: rebuild the curve at the current level and resample it. */
  function Shape2D(s: Scene): (r: Scene)
    ensures |r.animatePosArr| == AnimateSubdivisions
  {
    var line := Chaikin2D(LineSeed, s.lineSubdivisions);
    s.(lineArr := line, animatePosArr := Resample(line, AnimateSubdivisions))
  }

  /** `translatePyramid` on the scene's mesh, to the waypoint at the cursor. */
  function Translate(s: Scene): Scene
    requires s.pyramidPos < |s.animatePosArr|
  {
    var p := TranslatePyramid(Pose(s.mesh.vertices, s.curr), s.animatePosArr[s.pyramidPos]);
    s.(mesh := s.mesh.(vertices := p.mesh), curr := p.curr)
  }

  /** `shape3D`: rebuild the mesh at the current level (with the draw counter
      reset, see `Mesh.Rebuild`), forget the translation, and translate to the
      waypoint at the cursor. */
  function Reshape(s: Scene, proj: Vec4 -> Vec4): Scene
    requires s.pyramidPos < |s.animatePosArr|
  {
    Translate(s.(mesh := Mesh.Rebuild(s.pyramidSubdivisions, proj), curr := Undefined))
  }

  /** The animation state inside the scene: the mesh with its translation,
      the waypoints and the cursor. */
  function AnimOf(s: Scene): Anim {
    Anim(Pose(s.mesh.vertices, s.curr), s.animatePosArr, s.pyramidPos)
  }

  /** The scene with the mesh, translation and cursor taken from `a`. */
  function WithAnim(s: Scene, a: Anim): Scene {
    s.(mesh := s.mesh.(vertices := a.pose.mesh), curr := a.pose.curr, pyramidPos := a.pyramidPos)
  }

  /** `incrementAnimPos`: step the cursor round the loop, then translate. */
  function StepCursor(s: Scene): Scene
    requires AnimateSubdivisions <= |s.animatePosArr|
  {
    Translate(s.(pyramidPos := IncrementAnimPos(s.pyramidPos, AnimateSubdivisions)))
  }

  /** A step of the scene's cursor is one `Animation.Advance` of its
      animation state, so what is proved of `Advance` holds of the frames. */
  lemma StepCursorAdvances(s: Scene)
    requires AnimateSubdivisions <= |s.animatePosArr|
    ensures StepCursor(s) == WithAnim(s, Advance(AnimOf(s), AnimateSubdivisions))
  {
  }

  /** `render` without the drawing: advance the animation when it is on. */
  function Render(s: Scene): Scene
    requires AnimateSubdivisions <= |s.animatePosArr|
  {
    if s.animate then StepCursor(s) else s
  }

  /** `k` animation frames in a row. */
  function Frames(s: Scene, k: nat): (r: Scene)
    requires AnimateSubdivisions <= |s.animatePosArr|
    ensures r.animatePosArr == s.animatePosArr && r.animate == s.animate
  {
    if k == 0 then s else Render(Frames(s, k - 1))
  }

  /** Render now unless the animation loop will. */
  function Settle(t: Scene): Scene
    requires AnimateSubdivisions <= |t.animatePosArr|
  {
    if !t.animate then Render(t) else t
  }

  /** Key `m`: toggle wireframe and rebuild the mesh. */
  function ToggleWireframe(s: Scene, proj: Vec4 -> Vec4): Scene
    requires Ready(s)
  {
    Settle(Reshape(s.(wireframe := !s.wireframe), proj))
  }

  /** Keys `q` and `e`: move the mesh level to `level` and rebuild the mesh. */
  function SetMeshLevel(s: Scene, level: nat, proj: Vec4 -> Vec4): Scene
    requires Ready(s)
  {
    Settle(Reshape(s.(pyramidSubdivisions := level), proj))
  }

  /** Keys `i` and `j`: move the curve level to `level`, rebuild the curve and
      the waypoints, and (when not animating) translate and render. */
  function SetCurveLevel(s: Scene, level: nat): (r: Scene)
    requires Ready(s)
    ensures r.lineSubdivisions == level
    ensures r.lineArr == Chaikin2D(LineSeed, level)
    ensures r.animatePosArr == Resample(r.lineArr, AnimateSubdivisions)
  {
    var t := Shape2D(s.(lineSubdivisions := level));
    if !t.animate then Render(Translate(t)) else t
  }

  /** A curve-level key leaves the cursor where it was. When the animation
      is paused it moves the mesh to the new curve's waypoint under the
      cursor at once; while it runs, the mesh and its translation are left
      for the next frame. */
  lemma SetCurveLevelMovesMesh(s: Scene, level: nat)
    requires Ready(s)
    ensures SetCurveLevel(s, level).pyramidPos == s.pyramidPos
    ensures !s.animate ==> SetCurveLevel(s, level).curr
                           == Applied(SetCurveLevel(s, level).animatePosArr[s.pyramidPos])
    ensures s.animate ==> SetCurveLevel(s, level).curr == s.curr && SetCurveLevel(s, level).mesh == s.mesh
  {
  }

  /** Key `a`: toggle the animation and render. */
  function ToggleAnimate(s: Scene): Scene
    requires Ready(s)
  {
    Render(s.(animate := !s.animate))
  }

  /** Key `l`: switch between the two lighting modes. */
  function ToggleLighting(s: Scene): Scene
    requires Ready(s)
  {
    Settle(s.(lightingFlag := if s.lightingFlag == 1 then 0 else 1))
  }

  /** Key `q`: one mesh level down, but not below 1. */
  function MeshDown(s: Scene, proj: Vec4 -> Vec4): Scene
    requires Ready(s)
  {
    if s.pyramidSubdivisions > 1 then SetMeshLevel(s, s.pyramidSubdivisions - 1, proj) else s
  }

  /** Key `e`: one mesh level up, but not above 8. */
  function MeshUp(s: Scene, proj: Vec4 -> Vec4): Scene
    requires Ready(s)
  {
    if s.pyramidSubdivisions < 8 then SetMeshLevel(s, s.pyramidSubdivisions + 1, proj) else s
  }

  /** Key `i`: one curve level down, but not below 0. */
  function CurveDown(s: Scene): Scene
    requires Ready(s)
  {
    if s.lineSubdivisions > 0 then SetCurveLevel(s, s.lineSubdivisions - 1) else s
  }

  /** Key `j`: one curve level up, but not above 8. */
  function CurveUp(s: Scene): Scene
    requires Ready(s)
  {
    if s.lineSubdivisions < 8 then SetCurveLevel(s, s.lineSubdivisions + 1) else s
  }

  /** The keydown handler; other keys do nothing. */
  function OnKey(s: Scene, key: char, proj: Vec4 -> Vec4): Scene
    requires Ready(s)
  {
    match key
    case 'm' => ToggleWireframe(s, proj)
    case 'q' => MeshDown(s, proj)
    case 'e' => MeshUp(s, proj)
    case 'i' => CurveDown(s)
    case 'j' => CurveUp(s)
    case 'a' => ToggleAnimate(s)
    case 'l' => ToggleLighting(s)
    case _ => s
  }

  function Handle(s: Scene, e: Event, proj: Vec4 -> Vec4): Scene
    requires Ready(s)
  {
    match e
    case KeyDown(key) => OnKey(s, key, proj)
    case Frame => Render(s)
  }

  /** The globals as declared, then `initRender`: `shape2D` and `shape3D`. */
  function Init(proj: Vec4 -> Vec4): Scene {
    var s := Scene(false, 0, false, 4, 0, Mesh.MeshState([], [], 0), Undefined, [], [], 0);
    var t := Shape2D(s);
    Reshape(t, proj)
  }
}
