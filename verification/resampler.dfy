/** The path resampler (`calculateAnimDivisions`): maps the curve, whatever its
    length, onto exactly `animateSubdivisions` waypoints. Over exact reals the
    running `iterator` of pass i is i * (len - 1) / n. */
module Resampler {
  import opened Vectors

  /** `Math.round`: the nearest integer, halves rounded up. */
  function Round(x: real): (r: int)
    ensures x - 0.5 < r as real <= x + 0.5
  {
    (x + 0.5).Floor
  }

  /** `Math.ceil`: the least integer not below x. */
  function Ceil(x: real): (r: int)
    ensures x <= r as real < x + 1.0
    ensures r == x.Floor || r == x.Floor + 1
  {
    if x.Floor as real == x then x.Floor else x.Floor + 1
  }

  /** `dirtyIter`: the distance along the curve between two waypoints, such
      that n steps cover the len - 1 edges exactly. */
  function Step(len: nat, n: nat): (r: real)
    requires len >= 1 && n >= 1
    ensures r >= 0.0
    ensures r * n as real == (len - 1) as real
  {
    (len - 1) as real / n as real
  }

  /** The value of `iterator` on pass i: i steps from 0. */
  function Position(i: nat, len: nat, n: nat): (r: real)
    requires len >= 1 && n >= 1
    ensures r >= 0.0
  {
    i as real * Step(len, n)
  }

  /** Pass i of the decimating loop (the curve is longer than the target):
      the point at the rounded position, or the last point when rounding
      overshoots. */
  function DecimatedAt(line: seq<Vec4>, n: nat, i: nat): Vec4
    requires 1 <= n < |line|
  {
    var temp := Round(Position(i, |line|, n));
    if temp < |line| then line[temp] else line[|line| - 1]
  }

  /** Pass i of the interpolating loop (the curve is shorter than the target):
      x and y interpolated between the points at the floor and the ceiling of
      the position, z and w copied from the ceiling point; the last point when
      the ceiling is out of range. */
  function InterpolatedAt(line: seq<Vec4>, n: nat, i: nat): Vec4
    requires 1 <= |line| < n
  {
    var iter := Position(i, |line|, n);
    var roof := Ceil(iter);
    var floor := iter.Floor;
    var percentage := iter - floor as real;
    if roof < |line| then
      Vec4(line[roof].x * percentage + line[floor].x * (1.0 - percentage),
           line[roof].y * percentage + line[floor].y * (1.0 - percentage),
           line[roof].z, line[roof].w)
    else line[|line| - 1]
  }

  /** `calculateAnimDivisions` as a function of the curve and the target count. */
  function Resample(line: seq<Vec4>, n: nat): (r: seq<Vec4>)
    requires |line| >= 1
    ensures |r| == n
    ensures |line| == n ==> r == line
  {
    if |line| == n then line
    else if |line| > n then seq(n, i requires 0 <= i < n => DecimatedAt(line, n, i))
    else seq(n, i requires 0 <= i < n => InterpolatedAt(line, n, i))
  }

  /** Every position the loops visit lies on the curve, at least one full step
      before its last point. */
  lemma PositionBounds(i: nat, len: nat, n: nat)
    requires len >= 1 && i < n
    ensures 0.0 <= Position(i, len, n)
    ensures Position(i, len, n) + Step(len, n) <= (len - 1) as real
  {
    var step := Step(len, n);
    assert Position(i, len, n) + step == (i + 1) as real * step;
    assert (n - (i + 1)) as real * step >= 0.0;
    assert n as real * step - (i + 1) as real * step == (n - (i + 1)) as real * step;
  }

  /** When the curve is longer than the target, consecutive waypoints are at
      least one point apart. */
  lemma StepAtLeastOne(len: nat, n: nat)
    requires 1 <= n < len
    ensures Step(len, n) >= 1.0
  {
    var step := Step(len, n);
    assert (step - 1.0) * n as real == (len - 1 - n) as real;
    assert (step - 1.0) * n as real >= 0.0;
  }

  /** Decimation reads the curve at index round(i * (len - 1) / n), which is a
      valid index and never the last one, so the "clamp to last" branch is
      dead; the index is within half a point of the exact position. */
  lemma DecimatedAtNearest(line: seq<Vec4>, n: nat, i: nat)
    requires 1 <= n < |line| && i < n
    ensures 0 <= Round(Position(i, |line|, n)) <= |line| - 2
    ensures -0.5 < Round(Position(i, |line|, n)) as real - Position(i, |line|, n) <= 0.5
    ensures DecimatedAt(line, n, i) == line[Round(Position(i, |line|, n))]
  {
    PositionBounds(i, |line|, n);
    StepAtLeastOne(|line|, n);
  }

  /** Decimation visits the curve in order and never reads a point twice: the
      sampled indices strictly increase with the waypoint number. */
  lemma DecimationIncreasing(len: nat, n: nat, i: nat, j: nat)
    requires 1 <= n < len && i < j
    ensures Round(Position(i, len, n)) < Round(Position(j, len, n))
  {
    var step := Step(len, n);
    StepAtLeastOne(len, n);
    assert Position(j, len, n) - Position(i, len, n) == (j - i) as real * step;
    assert (j - i - 1) as real * step >= 0.0;
    assert (j - i) as real * step == (j - i - 1) as real * step + step;
  }

  /** Interpolation reads the points at the floor and the ceiling of the
      position, which are valid and at most one apart, so the "clamp to last"
      branch is dead; the waypoint's x and y are the convex combination of the
      two with weight frac in [0, 1) on the ceiling point (an exact hit when
      the position is whole), and its z and w are the ceiling point's. */
  lemma InterpolatedAtConvex(line: seq<Vec4>, n: nat, i: nat)
    requires 1 <= |line| < n && i < n
    ensures var pos := Position(i, |line|, n);
            var lo := pos.Floor;
            var hi := Ceil(pos);
            var frac := pos - lo as real;
            var r := InterpolatedAt(line, n, i);
            && 0 <= lo <= hi < |line| && hi - lo <= 1
            && 0.0 <= frac < 1.0 && (hi == lo ==> frac == 0.0)
            && r.x == (1.0 - frac) * line[lo].x + frac * line[hi].x
            && r.y == (1.0 - frac) * line[lo].y + frac * line[hi].y
            && r.z == line[hi].z && r.w == line[hi].w
  {
    PositionBounds(i, |line|, n);
  }

  /** The first waypoint is always the first point of the curve. */
  lemma ResampleStartsAtFirst(line: seq<Vec4>, n: nat)
    requires |line| >= 1 && n >= 1
    ensures Resample(line, n)[0] == line[0]
  {
    if |line| > n {
      DecimatedAtNearest(line, n, 0);
    } else if |line| < n {
      InterpolatedAtConvex(line, n, 0);
    }
  }

  /** Every waypoint lies in the convex hull of the curve: each half-plane
      holding the curve holds all the waypoints. */
  lemma ResampleInHull(line: seq<Vec4>, n: nat, a: real, b: real, c: real)
    requires |line| >= 1
    requires AllBelow(line, a, b, c)
    ensures AllBelow(Resample(line, n), a, b, c)
  {
    var r := Resample(line, n);
    if |line| > n {
      forall i | 0 <= i < n
        ensures Below(r[i], a, b, c)
      {
        DecimatedAtNearest(line, n, i);
      }
    } else if |line| < n {
      forall i | 0 <= i < n
        ensures Below(r[i], a, b, c)
      {
        InterpolatedAtConvex(line, n, i);
        var pos := Position(i, |line|, n);
        MixBelow(line[pos.Floor], line[Ceil(pos)], pos - pos.Floor as real, a, b, c);
      }
    }
  }

  /** A curve in one plane with one w gives waypoints in the same plane with
      the same w. */
  lemma ResampleKeepsLevel(line: seq<Vec4>, n: nat, z: real, w: real)
    requires |line| >= 1
    requires AllLevel(line, z, w)
    ensures AllLevel(Resample(line, n), z, w)
  {
    var r := Resample(line, n);
    if |line| > n {
      forall i | 0 <= i < n
        ensures r[i].z == z && r[i].w == w
      {
        DecimatedAtNearest(line, n, i);
      }
    } else if |line| < n {
      forall i | 0 <= i < n
        ensures r[i].z == z && r[i].w == w
      {
        InterpolatedAtConvex(line, n, i);
      }
    }
  }

  /** Three points onto two waypoints: the step is 1, so the waypoints are the
      points at indices round(0) = 0 and round(1) = 1. */
  lemma ThreePointsOntoTwo()
    ensures Resample([Vec4(0.0, 0.0, 0.0, 1.0), Vec4(10.0, 0.0, 0.0, 1.0), Vec4(10.0, 10.0, 0.0, 1.0)], 2)
         == [Vec4(0.0, 0.0, 0.0, 1.0), Vec4(10.0, 0.0, 0.0, 1.0)]
  {
    var line := [Vec4(0.0, 0.0, 0.0, 1.0), Vec4(10.0, 0.0, 0.0, 1.0), Vec4(10.0, 10.0, 0.0, 1.0)];
    assert Step(3, 2) == 1.0;
    assert Round(Position(1, 3, 2)) == 1;
    DecimatedAtNearest(line, 2, 0);
    DecimatedAtNearest(line, 2, 1);
  }

  /** The decimating loop of `calculateAnimDivisions`: the running
      `iterator += dirtyIter` stays equal to i steps, so pass i pushes the
      waypoint `DecimatedAt` describes. */
  method DecimateLoop(lineArr: seq<Vec4>, animateSubdivisions: nat) returns (animatePosArr: seq<Vec4>)
    requires animateSubdivisions < |lineArr|
    ensures |animatePosArr| == animateSubdivisions
    ensures forall k :: 0 <= k < animateSubdivisions ==>
              animatePosArr[k] == DecimatedAt(lineArr, animateSubdivisions, k)
  {
    animatePosArr := [];
    var iter := 0.0;
    var i := 0;
    while i < animateSubdivisions
      invariant 0 <= i <= animateSubdivisions
      invariant |animatePosArr| == i
      invariant forall k :: 0 <= k < i ==> animatePosArr[k] == DecimatedAt(lineArr, animateSubdivisions, k)
      invariant i < animateSubdivisions ==> iter == Position(i, |lineArr|, animateSubdivisions)
    {
      var dirtyIter := (|lineArr| - 1) as real / animateSubdivisions as real;
      var temp := Round(iter);
      if temp < |lineArr| {
        animatePosArr := animatePosArr + [lineArr[temp]];
      } else {
        animatePosArr := animatePosArr + [lineArr[|lineArr| - 1]];
      }
      iter := iter + dirtyIter;
      i := i + 1;
    }
  }

  /** The interpolating loop of `calculateAnimDivisions`, with the same
      running position. */
  method InterpolateLoop(lineArr: seq<Vec4>, animateSubdivisions: nat) returns (animatePosArr: seq<Vec4>)
    requires 1 <= |lineArr| < animateSubdivisions
    ensures |animatePosArr| == animateSubdivisions
    ensures forall k :: 0 <= k < animateSubdivisions ==>
              animatePosArr[k] == InterpolatedAt(lineArr, animateSubdivisions, k)
  {
    animatePosArr := [];
    var iter := 0.0;
    var i := 0;
    while i < animateSubdivisions
      invariant 0 <= i <= animateSubdivisions
      invariant |animatePosArr| == i
      invariant forall k :: 0 <= k < i ==> animatePosArr[k] == InterpolatedAt(lineArr, animateSubdivisions, k)
      invariant iter == Position(i, |lineArr|, animateSubdivisions)
    {
      var dirtyIter := (|lineArr| - 1) as real / animateSubdivisions as real;
      var roof := Ceil(iter);
      var floor := iter.Floor;
      var percentage := iter - floor as real;
      var next;
      if roof < |lineArr| {
        var x := lineArr[roof].x * percentage + lineArr[floor].x * (1.0 - percentage);
        var y := lineArr[roof].y * percentage + lineArr[floor].y * (1.0 - percentage);
        next := Vec4(x, y, lineArr[roof].z, lineArr[roof].w);
      } else {
        next := lineArr[|lineArr| - 1];
      }
      assert next == InterpolatedAt(lineArr, animateSubdivisions, i);
      animatePosArr := animatePosArr + [next];
      assert iter + dirtyIter == Position(i + 1, |lineArr|, animateSubdivisions);
      iter := iter + dirtyIter;
      i := i + 1;
    }
  }

  /** `calculateAnimDivisions`: the three cases on the curve's length. */
  method CalculateAnimDivisions(lineArr: seq<Vec4>, animateSubdivisions: nat) returns (animatePosArr: seq<Vec4>)
    requires |lineArr| >= 1
    ensures |animatePosArr| == animateSubdivisions
    ensures animatePosArr == Resample(lineArr, animateSubdivisions)
  {
    if |lineArr| == animateSubdivisions {
      animatePosArr := lineArr;
    } else if |lineArr| > animateSubdivisions {
      animatePosArr := DecimateLoop(lineArr, animateSubdivisions);
    } else {
      animatePosArr := InterpolateLoop(lineArr, animateSubdivisions);
    }
  }
}
