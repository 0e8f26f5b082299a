// The two folds every support-mapped shape of the library is built from: the
// strict "farther along d" maximum of the Support loops, and the running sum of
// the Center and Minkowski-sum loops.

module SupportMath {
  import opened Vectors

  /** One step of a Support loop: the candidate replaces the maximum only when strictly farther along d. */
  function Farther(d: Vector2, max: Vector2, candidate: Vector2): Vector2 {
    if Dot(d, Sub(candidate, max)) > 0.0 then candidate else max
  }

  /** What a Support loop over points[0], points[1], ... returns. */
  function MaxAlong(d: Vector2, points: seq<Vector2>): Vector2
    requires |points| > 0
  {
    if |points| == 1 then points[0]
    else Farther(d, MaxAlong(d, points[..|points| - 1]), points[|points| - 1])
  }

  /** Index k holds a point farthest along d, and no earlier point is as far. */
  ghost predicate EarliestMax(d: Vector2, points: seq<Vector2>, k: int) {
    && 0 <= k < |points|
    && (forall j :: 0 <= j < |points| ==> Dot(d, points[j]) <= Dot(d, points[k]))
    && (forall j :: 0 <= j < k ==> Dot(d, points[j]) < Dot(d, points[k]))
  }

  lemma FartherChoice(d: Vector2, max: Vector2, candidate: Vector2)
    ensures Farther(d, max, candidate) == candidate <== Dot(d, candidate) > Dot(d, max)
    ensures Farther(d, max, candidate) == max <== Dot(d, candidate) <= Dot(d, max)
  {
    DotSub(d, candidate, max);
  }

  /** Appending one point to a prefix whose earliest maximum is at k. */
  lemma EarliestMaxExtend(d: Vector2, points: seq<Vector2>, k: int)
    requires |points| > 1
    requires EarliestMax(d, points[..|points| - 1], k)
    ensures Dot(d, points[|points| - 1]) > Dot(d, points[k]) ==> EarliestMax(d, points, |points| - 1)
    ensures Dot(d, points[|points| - 1]) <= Dot(d, points[k]) ==> EarliestMax(d, points, k)
  {
    var n := |points| - 1;
    var front := points[..n];
    assert forall j :: 0 <= j < n ==> points[j] == front[j];
  }

  /**
   * The Support fold returns the earliest of the points farthest along d:
   * it is one of the points, no point is farther, and ties keep the first.
   */
  lemma {:induction false} MaxAlongEarliest(d: Vector2, points: seq<Vector2>)
    requires |points| > 0
    ensures exists k :: EarliestMax(d, points, k) && MaxAlong(d, points) == points[k]
  {
    if |points| == 1 {
      assert EarliestMax(d, points, 0);
    } else {
      var n := |points| - 1;
      var front := points[..n];
      MaxAlongEarliest(d, front);
      var k :| EarliestMax(d, front, k) && MaxAlong(d, front) == front[k];
      assert front[k] == points[k];
      FartherChoice(d, points[k], points[n]);
      EarliestMaxExtend(d, points, k);
      if Dot(d, points[n]) > Dot(d, points[k]) {
        assert MaxAlong(d, points) == points[n];
      } else {
        assert MaxAlong(d, points) == points[k];
      }
    }
  }

  /** The fold over one more point is one more Farther step. */
  lemma MaxAlongAppend(d: Vector2, points: seq<Vector2>, p: Vector2)
    requires |points| > 0
    ensures MaxAlong(d, points + [p]) == Farther(d, MaxAlong(d, points), p)
  {
    assert (points + [p])[..|points|] == points;
  }

  /** Corollary: the result of the fold is as far along d as every point. */
  lemma MaxAlongMaximal(d: Vector2, points: seq<Vector2>, j: int)
    requires 0 <= j < |points|
    ensures Dot(d, points[j]) <= Dot(d, MaxAlong(d, points))
    ensures MaxAlong(d, points) in points
  {
    MaxAlongEarliest(d, points);
  }

  /** The running sum of the Center and Minkowski-sum loops: points[0] + points[1] + ... */
  function Sum(points: seq<Vector2>): Vector2
    requires |points| > 0
  {
    if |points| == 1 then points[0] else Add(Sum(points[..|points| - 1]), points[|points| - 1])
  }

  lemma SumAppend(points: seq<Vector2>, p: Vector2)
    requires |points| > 0
    ensures Sum(points + [p]) == Add(Sum(points), p)
  {
    assert (points + [p])[..|points|] == points;
  }

  /** The same total, as a sum of dot products with d. */
  function SumOfDots(d: Vector2, points: seq<Vector2>): real
    requires |points| > 0
  {
    if |points| == 1 then Dot(d, points[0]) else SumOfDots(d, points[..|points| - 1]) + Dot(d, points[|points| - 1])
  }

  /** Center of a vertex set: the sum divided componentwise by the count. */
  function Mean(points: seq<Vector2>): Vector2
    requires |points| > 0
  {
    var s := Sum(points);
    Vector2(s.x / (|points| as real), s.y / (|points| as real))
  }

  /** dot(d, p0 + p1 + ...) == dot(d, p0) + dot(d, p1) + ... */
  lemma {:induction false} DotSum(d: Vector2, points: seq<Vector2>)
    requires |points| > 0
    ensures Dot(d, Sum(points)) == SumOfDots(d, points)
  {
    if |points| > 1 {
      DotSum(d, points[..|points| - 1]);
      DotAdd(d, Sum(points[..|points| - 1]), points[|points| - 1]);
    }
  }

  /** Summing points that are each no farther than the matching point of s gives a sum no farther than s's. */
  lemma {:induction false} SumMaximal(d: Vector2, s: seq<Vector2>, q: seq<Vector2>)
    requires |s| == |q| > 0
    requires forall i :: 0 <= i < |s| ==> Dot(d, q[i]) <= Dot(d, s[i])
    ensures Dot(d, Sum(q)) <= Dot(d, Sum(s))
  {
    if |s| > 1 {
      var n := |s| - 1;
      SumMaximal(d, s[..n], q[..n]);
      DotAdd(d, Sum(s[..n]), s[n]);
      DotAdd(d, Sum(q[..n]), q[n]);
    }
  }

  lemma SumSingleton(p: Vector2)
    ensures Sum([p]) == p
    ensures Mean([p]) == p
  {
  }

  /** The mean of points lies in the same half-plane bound as the points: it is no farther along d than their maximum. */
  lemma {:induction false} SumBoundedByMax(d: Vector2, points: seq<Vector2>, bound: real)
    requires |points| > 0
    requires forall i :: 0 <= i < |points| ==> Dot(d, points[i]) <= bound
    ensures Dot(d, Sum(points)) <= (|points| as real) * bound
  {
    if |points| > 1 {
      var n := |points| - 1;
      SumBoundedByMax(d, points[..n], bound);
      DotAdd(d, Sum(points[..n]), points[n]);
    }
  }

  lemma MeanBoundedByMax(d: Vector2, points: seq<Vector2>, bound: real)
    requires |points| > 0
    requires forall i :: 0 <= i < |points| ==> Dot(d, points[i]) <= bound
    ensures Dot(d, Mean(points)) <= bound
  {
    SumBoundedByMax(d, points, bound);
    var n := |points| as real;
    var s := Sum(points);
    assert Dot(d, Mean(points)) == Dot(d, s) / n;
  }
}
