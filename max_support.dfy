// MaxSupport: the convex hull of a span of primitives. Its support is the
// primitive support farthest along the direction, its centre the mean of the
// primitives' centres.

module MaxSupport {
  import opened Vectors
  import opened SupportMath
  import P = Primitives

  /** Center; the span must not be empty, since the sum is divided by its length. */
  function Center(ps: seq<P.Primitive>): Vector2
    requires |ps| > 0
  {
    Mean(P.Centers(ps))
  }

  /** Support: the first primitive's support, replaced by any later one strictly farther along n. */
  function Support(m: Numerics, ps: seq<P.Primitive>, n: Vector2): Vector2
    requires |ps| > 0
  {
    MaxAlong(n, P.Supports(m, ps, n))
  }

  /** The Center loop: from the origin, every centre added, then divided by the count. */
  method ComputeCenter(ps: seq<P.Primitive>) returns (r: Vector2)
    requires |ps| > 0
    ensures r == Center(ps)
  {
    var centers := P.Centers(ps);
    var center := Zero;
    var i := 0;
    while i < |ps|
      invariant 0 <= i <= |ps|
      invariant i == 0 ==> center == Zero
      invariant i > 0 ==> center == Sum(centers[..i])
    {
      if i == 0 {
        assert centers[..1] == [centers[0]];
        assert Add(center, centers[0]) == centers[0];
      } else {
        assert centers[..i + 1] == centers[..i] + [centers[i]];
        SumAppend(centers[..i], centers[i]);
      }
      center := Add(center, P.Center(ps[i]));
      i := i + 1;
    }
    assert centers[..|ps|] == centers;
    r := Vector2(center.x / (|ps| as real), center.y / (|ps| as real));
  }

  /** The Support loop over the primitives' supports. */
  method ComputeSupport(m: Numerics, ps: seq<P.Primitive>, n: Vector2) returns (r: Vector2)
    requires |ps| > 0
    ensures r == Support(m, ps, n)
  {
    var supports := P.Supports(m, ps, n);
    var max := P.Support(m, ps[0], n);
    var i := 1;
    assert supports[..1] == [max];
    while i < |ps|
      invariant 1 <= i <= |ps|
      invariant max == MaxAlong(n, supports[..i])
    {
      var support := P.Support(m, ps[i], n);
      assert supports[..i + 1] == supports[..i] + [support];
      MaxAlongAppend(n, supports[..i], support);
      if Dot(n, Sub(support, max)) > 0.0 {
        max := support;
      }
      i := i + 1;
    }
    assert supports[..|ps|] == supports;
    r := max;
  }

  /** The support is the support of the earliest primitive farthest along n. */
  lemma SupportEarliest(m: Numerics, ps: seq<P.Primitive>, n: Vector2)
    requires |ps| > 0
    ensures exists k :: EarliestMax(n, P.Supports(m, ps, n), k) && Support(m, ps, n) == P.Support(m, ps[k], n)
  {
    MaxAlongEarliest(n, P.Supports(m, ps, n));
  }

  /** The centre is no farther along n than the support. */
  lemma CenterWithinSupport(m: Numerics, ps: seq<P.Primitive>, n: Vector2)
    requires ExactTrig(m) && |ps| > 0 && P.RadiiNonNegative(ps)
    ensures Dot(n, Center(ps)) <= Dot(n, Support(m, ps, n))
  {
    var supports := P.Supports(m, ps, n);
    var top := Dot(n, MaxAlong(n, supports));
    var centers := P.Centers(ps);
    forall i | 0 <= i < |ps| ensures Dot(n, centers[i]) <= top {
      P.CenterWithinSupport(m, ps[i], n);
      MaxAlongMaximal(n, supports, i);
    }
    MeanBoundedByMax(n, centers, top);
  }

  /** A span of one primitive behaves exactly like that primitive. */
  lemma OfOne(m: Numerics, p: P.Primitive, n: Vector2)
    ensures Support(m, [p], n) == P.Support(m, p, n)
    ensures Center([p]) == P.Center(p)
  {
    assert P.Centers([p]) == [P.Center(p)];
    SumSingleton(P.Center(p));
  }
}
