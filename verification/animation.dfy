/** The translator: the animation cursor (`incrementAnimPos`) and the in-place
    translation of the mesh to the current waypoint (`translatePyramid`). */
module Animation {
  import opened Vectors

  /** `currTranslation`: undefined right after a rebuild, otherwise the
      waypoint last applied to the mesh. */
  datatype Translation = Undefined | Applied(offset: Vec4)

  /** Where a vertex sits when the translation `t` has been applied to it. */
  function Offset(v: Vec4, t: Translation): Vec4 {
    match t
    case Undefined => v
    case Applied(o) => Shift(v, o.x, o.y)
  }

  /** The untranslated mesh `base` moved by `t`, vertex by vertex. */
  function Placed(base: seq<Vec4>, t: Translation): (r: seq<Vec4>)
    ensures |r| == |base|
    ensures forall i :: 0 <= i < |base| ==> r[i] == Offset(base[i], t)
  {
    match t
    case Undefined => base
    case Applied(o) => ShiftAll(base, o.x, o.y)
  }

  /** The mesh is the untranslated mesh `base` moved by `t`. */
  predicate PlacedAt(mesh: seq<Vec4>, base: seq<Vec4>, t: Translation) {
    mesh == Placed(base, t)
  }

  /** `incrementAnimPos`'s cursor step: one forward, back to 0 once it reaches
      `animateSubdivisions`. */
  function IncrementAnimPos(pyramidPos: nat, animateSubdivisions: nat): (r: nat)
    ensures animateSubdivisions >= 1 ==> r < animateSubdivisions
    ensures pyramidPos < animateSubdivisions ==> r == (pyramidPos + 1) % animateSubdivisions
  {
    if pyramidPos + 1 >= animateSubdivisions then 0 else pyramidPos + 1
  }

  /** The mesh being moved and the translation it currently carries. */
  datatype Pose = Pose(mesh: seq<Vec4>, curr: Translation)

  /** `translatePyramid` with the waypoint at the cursor as `target`: undo the
      previous translation, if there is one, then apply `target`. */
  function TranslatePyramid(p: Pose, target: Vec4): (r: Pose)
    ensures r.curr == Applied(target)
    ensures |r.mesh| == |p.mesh|
    ensures forall i :: 0 <= i < |p.mesh| ==> r.mesh[i].z == p.mesh[i].z && r.mesh[i].w == p.mesh[i].w
  {
    var back := match p.curr
                case Undefined => p.mesh
                case Applied(last) => ShiftAll(p.mesh, -last.x, -last.y);
    Pose(ShiftAll(back, target.x, target.y), Applied(target))
  }

  /** Translation tracks the waypoint exactly: a mesh sitting at its base
      moved by the current translation ends up at its base moved by the new
      target, whatever translation it carried before. */
  lemma TranslateTracksWaypoint(p: Pose, base: seq<Vec4>, target: Vec4)
    requires PlacedAt(p.mesh, base, p.curr)
    ensures PlacedAt(TranslatePyramid(p, target).mesh, base, Applied(target))
  {
    var r := TranslatePyramid(p, target);
    var want := Placed(base, Applied(target));
    forall i | 0 <= i < |base|
      ensures r.mesh[i] == want[i]
    {
      var v := base[i];
      match p.curr
      case Undefined =>
      case Applied(last) =>
        var moved := Shift(v, last.x, last.y);
        assert moved.x + (-last.x) * moved.w == v.x;
        assert moved.y + (-last.y) * moved.w == v.y;
        assert Shift(moved, -last.x, -last.y) == v;
    }
    assert r.mesh == want;
  }

  /** The animation state `incrementAnimPos` works on. */
  datatype Anim = Anim(pose: Pose, waypoints: seq<Vec4>, pyramidPos: nat)

  /** `incrementAnimPos`: step the cursor, then translate to the waypoint there. */
  function Advance(a: Anim, animateSubdivisions: nat): (r: Anim)
    requires 1 <= animateSubdivisions <= |a.waypoints|
    ensures r.pyramidPos < animateSubdivisions
    ensures r.waypoints == a.waypoints
    ensures r.pose.curr == Applied(a.waypoints[r.pyramidPos])
  {
    var pos := IncrementAnimPos(a.pyramidPos, animateSubdivisions);
    Anim(TranslatePyramid(a.pose, a.waypoints[pos]), a.waypoints, pos)
  }

  /** `k` frames of animation. */
  function AdvanceMany(a: Anim, animateSubdivisions: nat, k: nat): (r: Anim)
    requires 1 <= animateSubdivisions <= |a.waypoints|
    ensures r.waypoints == a.waypoints
  {
    if k == 0 then a
    else Advance(AdvanceMany(a, animateSubdivisions, k - 1), animateSubdivisions)
  }

  /** The cursor k places further round the loop, for k up to one loop:
      (pos + k) mod n. */
  function Ahead(pos: nat, k: nat, n: nat): nat {
    if pos + k < n then pos + k else pos + k - n
  }

  /** Within one loop, after k frames from a valid cursor the cursor has moved
      k places round the loop, and the mesh sits at its base moved by the
      waypoint there. */
  lemma {:induction false} AdvanceManyTracks(a: Anim, animateSubdivisions: nat, k: nat, base: seq<Vec4>)
    requires 1 <= animateSubdivisions <= |a.waypoints|
    requires a.pyramidPos < animateSubdivisions && k <= animateSubdivisions
    requires PlacedAt(a.pose.mesh, base, a.pose.curr)
    ensures AdvanceMany(a, animateSubdivisions, k).pyramidPos == Ahead(a.pyramidPos, k, animateSubdivisions)
    ensures PlacedAt(AdvanceMany(a, animateSubdivisions, k).pose.mesh, base,
                     AdvanceMany(a, animateSubdivisions, k).pose.curr)
    ensures k >= 1 ==> AdvanceMany(a, animateSubdivisions, k).pose.curr
                       == Applied(a.waypoints[Ahead(a.pyramidPos, k, animateSubdivisions)])
  {
    if k > 0 {
      var prev := AdvanceMany(a, animateSubdivisions, k - 1);
      AdvanceManyTracks(a, animateSubdivisions, k - 1, base);
      TranslateTracksWaypoint(prev.pose, base, a.waypoints[IncrementAnimPos(prev.pyramidPos, animateSubdivisions)]);
    }
  }

  /** One whole loop of the animation is the identity: after
      `animateSubdivisions` frames, the cursor, the translation and every
      vertex of the mesh are back where they started. */
  lemma CycleReturnsToStart(a: Anim, animateSubdivisions: nat, base: seq<Vec4>)
    requires 1 <= animateSubdivisions <= |a.waypoints|
    requires a.pyramidPos < animateSubdivisions
    requires a.pose.curr == Applied(a.waypoints[a.pyramidPos])
    requires PlacedAt(a.pose.mesh, base, a.pose.curr)
    ensures AdvanceMany(a, animateSubdivisions, animateSubdivisions) == a
  {
    var r := AdvanceMany(a, animateSubdivisions, animateSubdivisions);
    AdvanceManyTracks(a, animateSubdivisions, animateSubdivisions, base);
  }
}
