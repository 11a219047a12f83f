/** The geometry builder: recursive subdivision of the four faces of a
    tetrahedron into a sphere-like mesh (`newTriangle`, `divideTriangle` and
    the array-building part of `shape3D`). The projection of a midpoint onto
    the unit sphere (`normalize`) is a parameter `proj`.

    `Leaves` and `DivideTriangle` name `proj` in their decreases clauses after
    the depth. This changes nothing about termination (the depth alone
    decreases); it only keeps the verifier from evaluating a call eagerly, to
    the full 4^depth leaves, whenever the depth happens to be a literal. */
module Mesh {
  import opened Vectors

  datatype Triangle = Triangle(a: Vec4, b: Vec4, c: Vec4)

  /** The arrays a rebuild writes: `pyramidArr` (vertices), `normalArr`
      (a flat list of scalars, four per vertex) and the `numPyramid` counter. */
  datatype MeshState = MeshState(vertices: seq<Vec4>, normals: seq<real>, count: nat)

  /** The tetrahedron the mesh is cut from. */
  const PyramidA: Vec4 := Vec4(0.0, 0.0, -1.0, 1.0)
  const PyramidB: Vec4 := Vec4(0.0, 0.942809, 0.333333, 1.0)
  const PyramidC: Vec4 := Vec4(-0.816497, -0.471405, 0.333333, 1.0)
  const PyramidD: Vec4 := Vec4(0.816497, -0.471405, 0.333333, 1.0)

  function Pow4(k: nat): (r: nat)
    ensures r >= 1
  {
    if k == 0 then 1 else 4 * Pow4(k - 1)
  }

  /** `mix(a, b, 0.5)`: the componentwise midpoint. */
  function Midpoint(a: Vec4, b: Vec4): Vec4 {
    Vec4((a.x + b.x) / 2.0, (a.y + b.y) / 2.0, (a.z + b.z) / 2.0, (a.w + b.w) / 2.0)
  }

  /** The four scalars pushed to the normal array for vertex v: its x, y, z and 0. */
  function NormalOf(v: Vec4): seq<real> {
    [v.x, v.y, v.z, 0.0]
  }

  /** The normal scalars of a run of vertices, four per vertex, in order. */
  function NormalsOf(vs: seq<Vec4>): (r: seq<real>)
    ensures |r| == 4 * |vs|
  {
    if |vs| == 0 then [] else NormalOf(vs[0]) + NormalsOf(vs[1..])
  }

  /** The vertices of a run of triangles, three per triangle, in order. */
  function Flatten(ts: seq<Triangle>): (r: seq<Vec4>)
    ensures |r| == 3 * |ts|
  {
    if |ts| == 0 then [] else [ts[0].a, ts[0].b, ts[0].c] + Flatten(ts[1..])
  }

  /** The normal array lines up with the vertex array: scalars 4i .. 4i+3 are
      the normal of vertex i. */
  predicate Aligned(vs: seq<Vec4>, ns: seq<real>) {
    |ns| == 4 * |vs| &&
    forall i :: 0 <= i < |vs| ==> ns[4 * i..4 * i + 4] == NormalOf(vs[i])
  }

  lemma {:induction false} FlattenAppend(s: seq<Triangle>, t: seq<Triangle>)
    ensures Flatten(s + t) == Flatten(s) + Flatten(t)
    decreases |s|
  {
    if |s| > 0 {
      assert (s + t)[1..] == s[1..] + t;
      FlattenAppend(s[1..], t);
    } else {
      assert s + t == t;
    }
  }

  lemma {:induction false} NormalsOfAppend(s: seq<Vec4>, t: seq<Vec4>)
    ensures NormalsOf(s + t) == NormalsOf(s) + NormalsOf(t)
    decreases |s|
  {
    if |s| > 0 {
      assert (s + t)[1..] == s[1..] + t;
      NormalsOfAppend(s[1..], t);
    } else {
      assert s + t == t;
    }
  }

  /** `NormalsOf` lays out exactly one normal per vertex, in vertex order. */
  lemma {:induction false} NormalsOfAligned(vs: seq<Vec4>)
    ensures Aligned(vs, NormalsOf(vs))
    decreases |vs|
  {
    if |vs| > 0 {
      var ns := NormalsOf(vs);
      var rest := NormalsOf(vs[1..]);
      NormalsOfAligned(vs[1..]);
      forall i | 0 <= i < |vs|
        ensures ns[4 * i..4 * i + 4] == NormalOf(vs[i])
      {
        if i > 0 {
          assert ns[4 * i..4 * i + 4] == rest[4 * (i - 1)..4 * (i - 1) + 4];
          assert vs[i] == vs[1..][i - 1];
        }
      }
    }
  }

  /** Appending vertices together with their normals keeps the arrays aligned. */
  lemma AlignedAppend(vs: seq<Vec4>, ns: seq<real>, ws: seq<Vec4>)
    requires Aligned(vs, ns)
    ensures Aligned(vs + ws, ns + NormalsOf(ws))
  {
    var vs' := vs + ws;
    var ns' := ns + NormalsOf(ws);
    NormalsOfAligned(ws);
    forall i | 0 <= i < |vs'|
      ensures ns'[4 * i..4 * i + 4] == NormalOf(vs'[i])
    {
      if i < |vs| {
        assert ns'[4 * i..4 * i + 4] == ns[4 * i..4 * i + 4];
      } else {
        var j := i - |vs|;
        assert ns'[4 * i..4 * i + 4] == NormalsOf(ws)[4 * j..4 * j + 4];
        assert vs'[i] == ws[j];
      }
    }
  }

  /** `newTriangle(a, b, c)`: push the three vertices, their normals and bump
      the counter by three. */
  function NewTriangle(st: MeshState, a: Vec4, b: Vec4, c: Vec4): (r: MeshState)
    ensures r.vertices == st.vertices + Flatten([Triangle(a, b, c)])
    ensures r.normals == st.normals + NormalsOf(Flatten([Triangle(a, b, c)]))
    ensures r.count == st.count + 3
    ensures Aligned(st.vertices, st.normals) ==> Aligned(r.vertices, r.normals)
  {
    assert Flatten([Triangle(a, b, c)]) == [a, b, c];
    assert NormalsOf([a, b, c]) == NormalOf(a) + NormalsOf([b, c]);
    assert NormalsOf([b, c]) == NormalOf(b) + NormalsOf([c]);
    assert NormalsOf([c]) == NormalOf(c);
    assert Aligned(st.vertices, st.normals) ==> Aligned(st.vertices + [a, b, c], st.normals + NormalsOf([a, b, c])) by {
      if Aligned(st.vertices, st.normals) {
        AlignedAppend(st.vertices, st.normals, [a, b, c]);
      }
    }
    MeshState(st.vertices + [a, b, c],
              st.normals + NormalOf(a) + NormalOf(b) + NormalOf(c),
              st.count + 3)
  }

  /** The leaf faces of the subdivision tree of (a, b, c) at depth `count`, in
      the order (a, ab, ac), (ab, b, bc), (bc, c, ac), (ab, bc, ac) at every
      level: the reference the accumulating `DivideTriangle` is compared to. */
  function Leaves(a: Vec4, b: Vec4, c: Vec4, count: nat, proj: Vec4 -> Vec4): (r: seq<Triangle>)
    ensures |r| == Pow4(count)
    decreases count, proj
  {
    if count == 0 then [Triangle(a, b, c)]
    else
      var ab := proj(Midpoint(a, b));
      var ac := proj(Midpoint(a, c));
      var bc := proj(Midpoint(b, c));
      Leaves(a, ab, ac, count - 1, proj) + Leaves(ab, b, bc, count - 1, proj) +
      Leaves(bc, c, ac, count - 1, proj) + Leaves(ab, bc, ac, count - 1, proj)
  }

  /** `divideTriangle(a, b, c, count)`, threading the arrays through the four
      recursive calls in the order the program makes them. */
  function DivideTriangle(st: MeshState, a: Vec4, b: Vec4, c: Vec4, count: nat, proj: Vec4 -> Vec4): MeshState
    decreases count, proj
  {
    if count > 0 then
      var ab := proj(Midpoint(a, b));
      var ac := proj(Midpoint(a, c));
      var bc := proj(Midpoint(b, c));
      var s1 := DivideTriangle(st, a, ab, ac, count - 1, proj);
      var s2 := DivideTriangle(s1, ab, b, bc, count - 1, proj);
      var s3 := DivideTriangle(s2, bc, c, ac, count - 1, proj);
      DivideTriangle(s3, ab, bc, ac, count - 1, proj)
    else
      NewTriangle(st, a, b, c)
  }

  /** `t` is `s` with the faces `ts` pushed: their vertices in order, their
      normals in order, and three per face on the counter. */
  predicate Appends(s: MeshState, t: MeshState, ts: seq<Triangle>) {
    t.vertices == s.vertices + Flatten(ts) &&
    t.normals == s.normals + NormalsOf(Flatten(ts)) &&
    t.count == s.count + 3 * |ts|
  }

  lemma AppendsChain(s: MeshState, t: MeshState, u: MeshState, ts: seq<Triangle>, us: seq<Triangle>)
    requires Appends(s, t, ts) && Appends(t, u, us)
    ensures Appends(s, u, ts + us)
  {
    var f, g := Flatten(ts), Flatten(us);
    FlattenAppend(ts, us);
    NormalsOfAppend(f, g);
    assert u.vertices == s.vertices + Flatten(ts + us) by {
      assert u.vertices == (s.vertices + f) + g;
    }
    assert u.normals == s.normals + NormalsOf(Flatten(ts + us)) by {
      assert u.normals == (s.normals + NormalsOf(f)) + NormalsOf(g);
    }
  }

  /** `divideTriangle` appends the leaf faces of the subdivision tree, in tree
      order, to the vertex array, their normals to the normal array, and three
      per face to the counter; nothing already in the arrays changes. */
  lemma {:induction false} DivideTriangleAppendsLeaves(st: MeshState, a: Vec4, b: Vec4, c: Vec4, count: nat, proj: Vec4 -> Vec4)
    ensures Appends(st, DivideTriangle(st, a, b, c, count, proj), Leaves(a, b, c, count, proj))
    decreases count
  {
    if count > 0 {
      var ab := proj(Midpoint(a, b));
      var ac := proj(Midpoint(a, c));
      var bc := proj(Midpoint(b, c));
      var l1 := Leaves(a, ab, ac, count - 1, proj);
      var l2 := Leaves(ab, b, bc, count - 1, proj);
      var l3 := Leaves(bc, c, ac, count - 1, proj);
      var l4 := Leaves(ab, bc, ac, count - 1, proj);
      var s1 := DivideTriangle(st, a, ab, ac, count - 1, proj);
      var s2 := DivideTriangle(s1, ab, b, bc, count - 1, proj);
      var s3 := DivideTriangle(s2, bc, c, ac, count - 1, proj);
      var s4 := DivideTriangle(s3, ab, bc, ac, count - 1, proj);
      DivideTriangleAppendsLeaves(st, a, ab, ac, count - 1, proj);
      DivideTriangleAppendsLeaves(s1, ab, b, bc, count - 1, proj);
      DivideTriangleAppendsLeaves(s2, bc, c, ac, count - 1, proj);
      DivideTriangleAppendsLeaves(s3, ab, bc, ac, count - 1, proj);
      AppendsChain(st, s1, s2, l1, l2);
      AppendsChain(st, s2, s3, l1 + l2, l3);
      AppendsChain(st, s3, s4, l1 + l2 + l3, l4);
    } else {
      assert Flatten([Triangle(a, b, c)]) == [a, b, c];
    }
  }

  /** Whatever was built before, `divideTriangle` adds exactly 3 * 4^count
      vertices and as much to the counter, leaves the earlier vertices alone,
      and keeps the normal array aligned with the vertex array. */
  lemma DivideTriangleCounts(st: MeshState, a: Vec4, b: Vec4, c: Vec4, count: nat, proj: Vec4 -> Vec4)
    ensures |DivideTriangle(st, a, b, c, count, proj).vertices| == |st.vertices| + 3 * Pow4(count)
    ensures DivideTriangle(st, a, b, c, count, proj).vertices[..|st.vertices|] == st.vertices
    ensures DivideTriangle(st, a, b, c, count, proj).count == st.count + 3 * Pow4(count)
    ensures Aligned(st.vertices, st.normals) ==>
              Aligned(DivideTriangle(st, a, b, c, count, proj).vertices,
                      DivideTriangle(st, a, b, c, count, proj).normals)
  {
    DivideTriangleAppendsLeaves(st, a, b, c, count, proj);
    if Aligned(st.vertices, st.normals) {
      AlignedAppend(st.vertices, st.normals, Flatten(Leaves(a, b, c, count, proj)));
    }
  }

  /** The faces of the whole mesh at depth `level`: the four faces of the
      tetrahedron, each subdivided, in the order `shape3D` visits them. */
  function Faces(level: nat, proj: Vec4 -> Vec4): (r: seq<Triangle>)
    ensures |r| == 4 * Pow4(level)
  {
    Leaves(PyramidA, PyramidB, PyramidC, level, proj) +
    Leaves(PyramidD, PyramidC, PyramidB, level, proj) +
    Leaves(PyramidA, PyramidD, PyramidB, level, proj) +
    Leaves(PyramidA, PyramidC, PyramidD, level, proj)
  }

  /** The four `divideTriangle` calls of `shape3D`, starting from `start`. */
  function BuildFaces(start: MeshState, level: nat, proj: Vec4 -> Vec4): MeshState {
    var s1 := DivideTriangle(start, PyramidA, PyramidB, PyramidC, level, proj);
    var s2 := DivideTriangle(s1, PyramidD, PyramidC, PyramidB, level, proj);
    var s3 := DivideTriangle(s2, PyramidA, PyramidD, PyramidB, level, proj);
    DivideTriangle(s3, PyramidA, PyramidC, PyramidD, level, proj)
  }

  lemma BuildFacesAppends(start: MeshState, level: nat, proj: Vec4 -> Vec4)
    ensures Appends(start, BuildFaces(start, level, proj), Faces(level, proj))
  {
    var l1 := Leaves(PyramidA, PyramidB, PyramidC, level, proj);
    var l2 := Leaves(PyramidD, PyramidC, PyramidB, level, proj);
    var l3 := Leaves(PyramidA, PyramidD, PyramidB, level, proj);
    var l4 := Leaves(PyramidA, PyramidC, PyramidD, level, proj);
    var s1 := DivideTriangle(start, PyramidA, PyramidB, PyramidC, level, proj);
    var s2 := DivideTriangle(s1, PyramidD, PyramidC, PyramidB, level, proj);
    var s3 := DivideTriangle(s2, PyramidA, PyramidD, PyramidB, level, proj);
    var s4 := DivideTriangle(s3, PyramidA, PyramidC, PyramidD, level, proj);
    DivideTriangleAppendsLeaves(start, PyramidA, PyramidB, PyramidC, level, proj);
    DivideTriangleAppendsLeaves(s1, PyramidD, PyramidC, PyramidB, level, proj);
    DivideTriangleAppendsLeaves(s2, PyramidA, PyramidD, PyramidB, level, proj);
    DivideTriangleAppendsLeaves(s3, PyramidA, PyramidC, PyramidD, level, proj);
    AppendsChain(start, s1, s2, l1, l2);
    AppendsChain(start, s2, s3, l1 + l2, l3);
    AppendsChain(start, s3, s4, l1 + l2 + l3, l4);
  }

  /** The array-building part of `shape3D` as written: the vertex and normal
      arrays are emptied but `numPyramid` is not reset. */
  function Shape3D(st: MeshState, level: nat, proj: Vec4 -> Vec4): MeshState {
    BuildFaces(MeshState([], [], st.count), level, proj)
  }

  /** A rebuild at depth d leaves exactly the faces of the subdivided
      tetrahedron: 4 * 4^d triangles, 12 * 4^d vertices, four normal scalars
      per vertex lined up with it; the counter grows by 12 * 4^d on top of
      whatever it held. */
  lemma Shape3DBuildsMesh(st: MeshState, level: nat, proj: Vec4 -> Vec4)
    ensures Shape3D(st, level, proj).vertices == Flatten(Faces(level, proj))
    ensures Shape3D(st, level, proj).normals == NormalsOf(Flatten(Faces(level, proj)))
    ensures |Shape3D(st, level, proj).vertices| == 12 * Pow4(level)
    ensures Aligned(Shape3D(st, level, proj).vertices, Shape3D(st, level, proj).normals)
    ensures Shape3D(st, level, proj).count == st.count + 12 * Pow4(level)
  {
    var start := MeshState([], [], st.count);
    BuildFacesAppends(start, level, proj);
    assert start.vertices + Flatten(Faces(level, proj)) == Flatten(Faces(level, proj));
    assert start.normals + NormalsOf(Flatten(Faces(level, proj))) == NormalsOf(Flatten(Faces(level, proj)));
    NormalsOfAligned(Flatten(Faces(level, proj)));
  }

  /** As written, the counter `render` passes to the draw call overruns the
      vertex array after any second rebuild: it then counts more vertices
      than the buffer holds. */
  lemma Shape3DCountOverruns(level: nat, proj: Vec4 -> Vec4)
    ensures var m := Shape3D(Shape3D(MeshState([], [], 0), level, proj), level, proj);
            m.count == 2 * |m.vertices| && m.count > |m.vertices|
  {
    var m1 := Shape3D(MeshState([], [], 0), level, proj);
    Shape3DBuildsMesh(MeshState([], [], 0), level, proj);
    Shape3DBuildsMesh(m1, level, proj);
  }

  /** `shape3D` with `numPyramid` reset along with the arrays, as its use as
      the draw count requires. */
  function Rebuild(level: nat, proj: Vec4 -> Vec4): MeshState {
    BuildFaces(MeshState([], [], 0), level, proj)
  }

  /** After a corrected rebuild the counter equals the number of vertices,
      whatever happened before; the mesh itself is the one `Shape3D` builds. */
  lemma RebuildCountsVertices(st: MeshState, level: nat, proj: Vec4 -> Vec4)
    ensures Rebuild(level, proj).count == |Rebuild(level, proj).vertices| == 12 * Pow4(level)
    ensures Aligned(Rebuild(level, proj).vertices, Rebuild(level, proj).normals)
    ensures Rebuild(level, proj).vertices == Shape3D(st, level, proj).vertices
    ensures Rebuild(level, proj).normals == Shape3D(st, level, proj).normals
  {
    Shape3DBuildsMesh(MeshState([], [], 0), level, proj);
    Shape3DBuildsMesh(st, level, proj);
    BuildFacesAppends(MeshState([], [], st.count), level, proj);
  }

  /** When the projection keeps w (as `normalize(v, true)` does) and the
      corners are points (w = 1), every vertex of the subdivision is a point. */
  lemma {:induction false} LeavesArePoints(a: Vec4, b: Vec4, c: Vec4, count: nat, proj: Vec4 -> Vec4)
    requires forall v :: proj(v).w == v.w
    requires a.w == 1.0 && b.w == 1.0 && c.w == 1.0
    ensures forall t :: t in Leaves(a, b, c, count, proj) ==> t.a.w == 1.0 && t.b.w == 1.0 && t.c.w == 1.0
    decreases count
  {
    if count > 0 {
      var ab := proj(Midpoint(a, b));
      var ac := proj(Midpoint(a, c));
      var bc := proj(Midpoint(b, c));
      LeavesArePoints(a, ab, ac, count - 1, proj);
      LeavesArePoints(ab, b, bc, count - 1, proj);
      LeavesArePoints(bc, c, ac, count - 1, proj);
      LeavesArePoints(ab, bc, ac, count - 1, proj);
    }
  }
}
