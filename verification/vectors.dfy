/** Homogeneous 4-vectors as the demo stores them (its `vec4`), over exact reals. */
module Vectors {

  /** A point (w = 1) or a direction (w = 0) in homogeneous coordinates. */
  datatype Vec4 = Vec4(x: real, y: real, z: real, w: real)

  /** The translation matrix for (tx, ty, 0) multiplied with `v`: the offset is
      scaled by the homogeneous coordinate, z and w are left alone. */
  function Shift(v: Vec4, tx: real, ty: real): Vec4 {
    Vec4(v.x + tx * v.w, v.y + ty * v.w, v.z, v.w)
  }

  /** `Shift` applied to every element, in place and in order. */
  function ShiftAll(vs: seq<Vec4>, tx: real, ty: real): seq<Vec4> {
    seq(|vs|, i requires 0 <= i < |vs| => Shift(vs[i], tx, ty))
  }

  /** `p` lies in the closed half-plane a*x + b*y <= c of the xy-plane. */
  predicate Below(p: Vec4, a: real, b: real, c: real) {
    a * p.x + b * p.y <= c
  }

  /** Every point of `s` lies in the half-plane a*x + b*y <= c. A set of points
      lies in the convex hull of another exactly when every half-plane holding
      the second also holds the first. */
  predicate AllBelow(s: seq<Vec4>, a: real, b: real, c: real) {
    forall i :: 0 <= i < |s| ==> Below(s[i], a, b, c)
  }

  /** Every point of `s` has the given z and w. */
  predicate AllLevel(s: seq<Vec4>, z: real, w: real) {
    forall i :: 0 <= i < |s| ==> s[i].z == z && s[i].w == w
  }

  /** The xy-interpolation (1 - t) * p + t * q with weight t in [0, 1] stays in
      every half-plane that holds both ends. */
  lemma MixBelow(p: Vec4, q: Vec4, t: real, a: real, b: real, c: real)
    requires 0.0 <= t <= 1.0
    requires Below(p, a, b, c) && Below(q, a, b, c)
    ensures a * ((1.0 - t) * p.x + t * q.x) + b * ((1.0 - t) * p.y + t * q.y) <= c
  {
    var lp := a * p.x + b * p.y;
    var lq := a * q.x + b * q.y;
    assert a * ((1.0 - t) * p.x + t * q.x) + b * ((1.0 - t) * p.y + t * q.y)
        == (1.0 - t) * lp + t * lq;
    assert (1.0 - t) * lp <= (1.0 - t) * c;
    assert t * lq <= t * c;
  }
}
