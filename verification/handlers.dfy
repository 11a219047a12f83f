/** Each handler of the demo keeps the invariant: every key the keydown
    handler knows, the keys it ignores, and the animation frame. */
module Handlers {
  import opened Vectors
  import opened Animation
  import opened Demo
  import opened Invariant

  lemma ToggleWireframeValid(s: Scene, proj: Vec4 -> Vec4)
    requires Valid(s, proj)
    ensures Valid(ToggleWireframe(s, proj), proj)
  {
    ReshapeSettleValid(s.(wireframe := !s.wireframe), proj);
  }

  lemma SetMeshLevelValid(s: Scene, level: nat, proj: Vec4 -> Vec4)
    requires Valid(s, proj) && 1 <= level <= 8
    ensures Valid(SetMeshLevel(s, level, proj), proj)
  {
    ReshapeSettleValid(s.(pyramidSubdivisions := level), proj);
  }

  lemma SetCurveLevelValid(s: Scene, level: nat, proj: Vec4 -> Vec4)
    requires ValidButCurve(s, proj) && level <= 8
    ensures Valid(SetCurveLevel(s, level), proj)
  {
    var t := Shape2D(s.(lineSubdivisions := level));
    TranslateValid(t, proj);
    RenderValid(Translate(t), proj);
  }

  lemma ToggleAnimateValid(s: Scene, proj: Vec4 -> Vec4)
    requires Valid(s, proj)
    ensures Valid(ToggleAnimate(s), proj)
  {
    FlagsKeepValid(s, !s.animate, s.wireframe, s.lightingFlag, proj);
    RenderValid(s.(animate := !s.animate), proj);
  }

  lemma ToggleLightingValid(s: Scene, proj: Vec4 -> Vec4)
    requires Valid(s, proj)
    ensures Valid(ToggleLighting(s), proj)
    ensures ToggleLighting(s).lightingFlag == 1 - s.lightingFlag
  {
    var l := if s.lightingFlag == 1 then 0 else 1;
    FlagsKeepValid(s, s.animate, s.wireframe, l, proj);
    RenderValid(s.(lightingFlag := l), proj);
  }

  /** A level key at the end of its range, and any key the handler does not
      know, leaves the state exactly as it was. */
  lemma KeyAtBoundIgnored(s: Scene, key: char, proj: Vec4 -> Vec4)
    requires Ready(s)
    requires || (key == 'q' && s.pyramidSubdivisions <= 1)
             || (key == 'e' && s.pyramidSubdivisions >= 8)
             || (key == 'i' && s.lineSubdivisions == 0)
             || (key == 'j' && s.lineSubdivisions >= 8)
             || key !in "mqeijal"
    ensures OnKey(s, key, proj) == s
  {
  }

  /** The level keys move their level by one step inside its range and stop
      at its ends: the mesh level within [1, 8], the curve level within
      [0, 8]; no other key changes either level. */
  lemma KeyClampsLevels(s: Scene, key: char, proj: Vec4 -> Vec4)
    requires Ready(s)
    ensures OnKey(s, key, proj).pyramidSubdivisions
         == if key == 'q' && s.pyramidSubdivisions > 1 then s.pyramidSubdivisions - 1
            else if key == 'e' && s.pyramidSubdivisions < 8 then s.pyramidSubdivisions + 1
            else s.pyramidSubdivisions
    ensures OnKey(s, key, proj).lineSubdivisions
         == if key == 'i' && s.lineSubdivisions > 0 then s.lineSubdivisions - 1
            else if key == 'j' && s.lineSubdivisions < 8 then s.lineSubdivisions + 1
            else s.lineSubdivisions
  {
  }

  /** `q` keeps the invariant. */
  lemma MeshDownValid(s: Scene, proj: Vec4 -> Vec4)
    requires Valid(s, proj)
    ensures Valid(MeshDown(s, proj), proj)
  {
    if s.pyramidSubdivisions > 1 {
      SetMeshLevelValid(s, s.pyramidSubdivisions - 1, proj);
    }
  }

  /** `e` keeps the invariant. */
  lemma MeshUpValid(s: Scene, proj: Vec4 -> Vec4)
    requires Valid(s, proj)
    ensures Valid(MeshUp(s, proj), proj)
  {
    if s.pyramidSubdivisions < 8 {
      SetMeshLevelValid(s, s.pyramidSubdivisions + 1, proj);
    }
  }

  /** `i` above level 0 rebuilds the curve one level down and restores the
      invariant, whatever the old curve was. */
  lemma CurveDownValid(s: Scene, proj: Vec4 -> Vec4)
    requires ValidButCurve(s, proj) && s.lineSubdivisions > 0
    ensures Valid(CurveDown(s), proj)
    ensures CurveDown(s).lineSubdivisions == s.lineSubdivisions - 1
  {
    SetCurveLevelValid(s, s.lineSubdivisions - 1, proj);
  }

  /** `j` below level 8 rebuilds the curve one level up and restores the
      invariant, whatever the old curve was. */
  lemma CurveUpValid(s: Scene, proj: Vec4 -> Vec4)
    requires ValidButCurve(s, proj) && s.lineSubdivisions < 8
    ensures Valid(CurveUp(s), proj)
    ensures CurveUp(s).lineSubdivisions == s.lineSubdivisions + 1
  {
    SetCurveLevelValid(s, s.lineSubdivisions + 1, proj);
  }

  /** Every key press keeps the invariant. */
  lemma KeyValid(s: Scene, key: char, proj: Vec4 -> Vec4)
    requires Valid(s, proj)
    ensures Valid(OnKey(s, key, proj), proj)
  {
    match key
    case 'm' => ToggleWireframeValid(s, proj);
    case 'q' => MeshDownValid(s, proj);
    case 'e' => MeshUpValid(s, proj);
    case 'i' => if s.lineSubdivisions > 0 { CurveDownValid(s, proj); }
    case 'j' => if s.lineSubdivisions < 8 { CurveUpValid(s, proj); }
    case 'a' => ToggleAnimateValid(s, proj);
    case 'l' => ToggleLightingValid(s, proj);
    case _ =>
  }

  /** Every key press and every frame keeps the invariant: in particular the
      mesh level stays in [1, 8], the curve level in [0, 8], the cursor in
      [0, 150), and the mesh stays the current level's mesh moved by exactly
      the translation it carries. */
  lemma HandleValid(s: Scene, e: Event, proj: Vec4 -> Vec4)
    requires Valid(s, proj)
    ensures Ready(s)
    ensures Valid(Handle(s, e, proj), proj)
  {
    match e
    case Frame => RenderValid(s, proj);
    case KeyDown(key) => KeyValid(s, key, proj);
  }
}
