/** The curve builder: Chaikin corner cutting of the closed 2D polygon the
    pyramid travels along (`chaikin2D`). */
module Chaikin {
  import opened Vectors

  function Pow2(k: nat): nat {
    if k == 0 then 1 else 2 * Pow2(k - 1)
  }

  /** A point of the plane z = 0, with w = 1. */
  function Point(x: real, y: real): (r: Vec4)
    ensures r.z == 0.0 && r.w == 1.0
  {
    Vec4(x, y, 0.0, 1.0)
  }

  /** The hexagon the curve is built from. */
  const LineSeed: seq<Vec4> := [
    Point(-8.0, 8.0),
    Point(2.0, 4.0),
    Point(6.0, 6.0),
    Point(10.0, -8.0),
    Point(2.0, -2.0),
    Point(-6.0, -2.0)
  ]

  /** First cut of edge (p, q): 3/4 of p and 1/4 of q in x and y; z and w are p's. */
  function CutNear(p: Vec4, q: Vec4): Vec4 {
    Vec4(0.75 * p.x + 0.25 * q.x, 0.75 * p.y + 0.25 * q.y, p.z, p.w)
  }

  /** Second cut of edge (p, q): 1/4 of p and 3/4 of q in x and y; z and w are p's. */
  function CutFar(p: Vec4, q: Vec4): Vec4 {
    Vec4(0.25 * p.x + 0.75 * q.x, 0.25 * p.y + 0.75 * q.y, p.z, p.w)
  }

  /** The two points the loop pushes for the edge from point j to point
      (j + 1) mod n; the last edge closes the polygon back to point 0. */
  function EdgeCuts(arr: seq<Vec4>, j: int): seq<Vec4>
    requires 0 <= j < |arr|
  {
    [CutNear(arr[j], arr[(j + 1) % |arr|]), CutFar(arr[j], arr[(j + 1) % |arr|])]
  }

  /** What one round pushes for the edges starting at points i, i+1, ...,
      |arr|-1, in that order. */
  function CutFrom(arr: seq<Vec4>, i: nat): (r: seq<Vec4>)
    requires i <= |arr|
    ensures |r| == 2 * (|arr| - i)
    decreases |arr| - i
  {
    if i == |arr| then [] else EdgeCuts(arr, i) + CutFrom(arr, i + 1)
  }

  /** The points pushed for edge j sit at 2(j - i) and 2(j - i) + 1. */
  lemma {:induction false} CutFromAt(arr: seq<Vec4>, i: nat, j: int)
    requires i <= j < |arr|
    ensures CutFrom(arr, i)[2 * (j - i)] == CutNear(arr[j], arr[(j + 1) % |arr|])
    ensures CutFrom(arr, i)[2 * (j - i) + 1] == CutFar(arr[j], arr[(j + 1) % |arr|])
    decreases |arr| - i
  {
    if j > i {
      CutFromAt(arr, i + 1, j);
    }
  }

  /** One round of corner cutting: every edge (P_i, P_(i+1) mod n) of the closed
      polygon becomes the two points at weights 3/4-1/4 and 1/4-3/4, in edge
      order; z and w come from P_i. */
  function CornerCut(arr: seq<Vec4>): (r: seq<Vec4>)
    ensures |r| == 2 * |arr|
  {
    CutFrom(arr, 0)
  }

  /** Output points 2i and 2i+1 of a round are the two cuts of edge i. */
  lemma CornerCutAt(arr: seq<Vec4>, i: int)
    requires 0 <= i < |arr|
    ensures |CornerCut(arr)| == 2 * |arr|
    ensures CornerCut(arr)[2 * i] == CutNear(arr[i], arr[(i + 1) % |arr|])
    ensures CornerCut(arr)[2 * i + 1] == CutFar(arr[i], arr[(i + 1) % |arr|])
  {
    CutFromAt(arr, 0, i);
  }

  /** The loop of one round as written: for each i it pushes the near cut and
      then the far cut of the edge from point i to point (i + 1) mod n, and
      what it builds is exactly `CornerCut`. */
  method CornerCutLoop(arr: seq<Vec4>) returns (retArr: seq<Vec4>)
    ensures retArr == CornerCut(arr)
  {
    retArr := [];
    var i := 0;
    while i < |arr|
      invariant 0 <= i <= |arr|
      invariant |retArr| == 2 * i
      invariant forall k :: 0 <= k < 2 * i ==> retArr[k] == CornerCut(arr)[k]
    {
      var p, q := arr[i], arr[(i + 1) % |arr|];
      CornerCutAt(arr, i);
      retArr := retArr + [CutNear(p, q), CutFar(p, q)];
      i := i + 1;
    }
  }

  /** `chaikin2D(arr, subdivisions)`: cut, recurse, and at the bottom append the
      first point again so the strip closes. */
  function Chaikin2D(arr: seq<Vec4>, subdivisions: nat): (r: seq<Vec4>)
    requires |arr| >= 1
    ensures |r| == |arr| * Pow2(subdivisions) + 1
    ensures r[|r| - 1] == r[0]
    decreases subdivisions
  {
    if subdivisions == 0 then arr + [arr[0]]
    else
      var r := Chaikin2D(CornerCut(arr), subdivisions - 1);
      assert |CornerCut(arr)| * Pow2(subdivisions - 1) == |arr| * Pow2(subdivisions);
      r
  }

  /** `k` rounds of corner cutting with no closing point: the reference the
      recursion in `Chaikin2D` is compared against. */
  function CutRounds(arr: seq<Vec4>, k: nat): seq<Vec4> {
    if k == 0 then arr else CornerCut(CutRounds(arr, k - 1))
  }

  /** Cutting first and then running k more rounds is k + 1 rounds. */
  lemma {:induction false} CutRoundsShift(arr: seq<Vec4>, k: nat)
    ensures CutRounds(CornerCut(arr), k) == CutRounds(arr, k + 1)
  {
    if k > 0 {
      CutRoundsShift(arr, k - 1);
    }
  }

  /** The curve is `subdivisions` rounds of corner cutting followed by one
      closing copy of the first point: the closure is added once, at the end,
      and never fed back into a round. */
  lemma {:induction false} ChaikinClosesOnce(arr: seq<Vec4>, subdivisions: nat)
    requires |arr| >= 1
    ensures |CutRounds(arr, subdivisions)| >= 1
    ensures Chaikin2D(arr, subdivisions)
         == CutRounds(arr, subdivisions) + [CutRounds(arr, subdivisions)[0]]
    decreases subdivisions
  {
    if subdivisions > 0 {
      ChaikinClosesOnce(CornerCut(arr), subdivisions - 1);
      CutRoundsShift(arr, subdivisions - 1);
    }
  }

  /** One round never leaves a half-plane that holds the polygon. */
  lemma CornerCutBelow(arr: seq<Vec4>, a: real, b: real, c: real)
    requires AllBelow(arr, a, b, c)
    ensures AllBelow(CornerCut(arr), a, b, c)
  {
    var r := CornerCut(arr);
    forall k | 0 <= k < |r|
      ensures Below(r[k], a, b, c)
    {
      var i := k / 2;
      var p := arr[i];
      var q := arr[(i + 1) % |arr|];
      CornerCutAt(arr, i);
      if k % 2 == 0 {
        assert r[k] == r[2 * i];
        MixBelow(p, q, 0.25, a, b, c);
      } else {
        assert r[k] == r[2 * i + 1];
        MixBelow(p, q, 0.75, a, b, c);
      }
    }
  }

  /** Every point of the curve lies in the convex hull of the polygon it was
      cut from: each half-plane holding the polygon holds the whole curve. */
  lemma {:induction false} ChaikinStaysInHull(arr: seq<Vec4>, subdivisions: nat, a: real, b: real, c: real)
    requires |arr| >= 1
    requires AllBelow(arr, a, b, c)
    ensures AllBelow(Chaikin2D(arr, subdivisions), a, b, c)
    decreases subdivisions
  {
    if subdivisions > 0 {
      CornerCutBelow(arr, a, b, c);
      ChaikinStaysInHull(CornerCut(arr), subdivisions - 1, a, b, c);
    }
  }

  /** z and w are carried through unchanged: a planar polygon gives a curve in
      the same plane with the same w. */
  lemma {:induction false} ChaikinKeepsLevel(arr: seq<Vec4>, subdivisions: nat, z: real, w: real)
    requires |arr| >= 1
    requires AllLevel(arr, z, w)
    ensures AllLevel(Chaikin2D(arr, subdivisions), z, w)
    decreases subdivisions
  {
    if subdivisions > 0 {
      var r := CornerCut(arr);
      forall k | 0 <= k < |r|
        ensures r[k].z == z && r[k].w == w
      {
        var i := k / 2;
        CornerCutAt(arr, i);
        if k % 2 == 0 {
          assert r[k] == r[2 * i];
        } else {
          assert r[k] == r[2 * i + 1];
        }
      }
      ChaikinKeepsLevel(r, subdivisions - 1, z, w);
    }
  }

  /** The seed curve: 7 points closed by repetition with no rounds, 13 after
      one round. */
  lemma SeedCurveLengths()
    ensures |Chaikin2D(LineSeed, 0)| == 7 && Chaikin2D(LineSeed, 0)[6] == LineSeed[0]
    ensures |Chaikin2D(LineSeed, 1)| == 13
  {
    var c0 := Chaikin2D(LineSeed, 0);
    assert |c0| == 7;
    var c1 := Chaikin2D(LineSeed, 1);
    assert Pow2(1) == 2;
    assert |c1| == 13;
  }

  /** A polygon with an even number of points gives a curve of odd length at
      every level. */
  lemma CurveLengthOdd(arr: seq<Vec4>, subdivisions: nat)
    requires |arr| >= 1 && |arr| % 2 == 0
    ensures |Chaikin2D(arr, subdivisions)| % 2 == 1
  {
    EvenTimesPlusOne(|arr|, Pow2(subdivisions));
  }

  /** An even number times anything, plus one, is odd. */
  lemma EvenTimesPlusOne(n: int, p: int)
    requires n % 2 == 0
    ensures (n * p + 1) % 2 == 1
  {
    var h := n / 2;
    assert n * p == 2 * (h * p) by {
      assert n == 2 * h;
    }
  }

  /** So such a curve never has an even number of points. */
  lemma CurveLengthNotEven(arr: seq<Vec4>, subdivisions: nat, m: int)
    requires |arr| >= 1 && |arr| % 2 == 0 && m % 2 == 0
    ensures |Chaikin2D(arr, subdivisions)| != m
  {
    CurveLengthOdd(arr, subdivisions);
  }
}
