// MinkowskiSum over a span of primitives: the support is the sum of the
// primitives' supports and the centre the sum of their centres.

module MinkowskiSum {
  import opened Vectors
  import opened SupportMath
  import P = Primitives

  /** Center; the first primitive is read, so the span must not be empty. */
  function Center(ps: seq<P.Primitive>): Vector2
    requires |ps| > 0
  {
    Sum(P.Centers(ps))
  }

  function Support(m: Numerics, ps: seq<P.Primitive>, n: Vector2): Vector2
    requires |ps| > 0
  {
    Sum(P.Supports(m, ps, n))
  }

  /** The Center loop: the first centre, then every later one added. */
  method ComputeCenter(ps: seq<P.Primitive>) returns (r: Vector2)
    requires |ps| > 0
    ensures r == Center(ps)
  {
    var centers := P.Centers(ps);
    var center := P.Center(ps[0]);
    var i := 1;
    assert centers[..1] == [center];
    SumSingleton(center);
    while i < |ps|
      invariant 1 <= i <= |ps|
      invariant center == Sum(centers[..i])
    {
      var next := P.Center(ps[i]);
      assert centers[..i + 1] == centers[..i] + [next];
      SumAppend(centers[..i], next);
      center := Add(center, next);
      i := i + 1;
    }
    assert centers[..|ps|] == centers;
    r := center;
  }

  /** The Support loop: the first support, then every later one added. */
  method ComputeSupport(m: Numerics, ps: seq<P.Primitive>, n: Vector2) returns (r: Vector2)
    requires |ps| > 0
    ensures r == Support(m, ps, n)
  {
    var supports := P.Supports(m, ps, n);
    var support := P.Support(m, ps[0], n);
    var i := 1;
    assert supports[..1] == [support];
    SumSingleton(support);
    while i < |ps|
      invariant 1 <= i <= |ps|
      invariant support == Sum(supports[..i])
    {
      var next := P.Support(m, ps[i], n);
      assert supports[..i + 1] == supports[..i] + [next];
      SumAppend(supports[..i], next);
      support := Add(support, next);
      i := i + 1;
    }
    assert supports[..|ps|] == supports;
    r := support;
  }

  /** dot(n, Support(n)) is the sum of dot(n, each primitive's support). */
  lemma SupportDot(m: Numerics, ps: seq<P.Primitive>, n: Vector2)
    requires |ps| > 0
    ensures Dot(n, Support(m, ps, n)) == SumOfDots(n, P.Supports(m, ps, n))
  {
    DotSum(n, P.Supports(m, ps, n));
  }

  /** Points each no farther along n than the matching primitive's support sum to a point no farther than the support. */
  lemma SupportMaximal(m: Numerics, ps: seq<P.Primitive>, n: Vector2, q: seq<Vector2>)
    requires |ps| > 0 && |q| == |ps|
    requires forall i :: 0 <= i < |ps| ==> Dot(n, q[i]) <= Dot(n, P.Support(m, ps[i], n))
    ensures Dot(n, Sum(q)) <= Dot(n, Support(m, ps, n))
  {
    SumMaximal(n, P.Supports(m, ps, n), q);
  }

  /** The centre is no farther along n than the support. */
  lemma CenterWithinSupport(m: Numerics, ps: seq<P.Primitive>, n: Vector2)
    requires ExactTrig(m) && |ps| > 0 && P.RadiiNonNegative(ps)
    ensures Dot(n, Center(ps)) <= Dot(n, Support(m, ps, n))
  {
    forall i | 0 <= i < |ps| ensures Dot(n, P.Centers(ps)[i]) <= Dot(n, P.Support(m, ps[i], n)) {
      P.CenterWithinSupport(m, ps[i], n);
    }
    SupportMaximal(m, ps, n, P.Centers(ps));
  }

  /** A sum of one primitive is that primitive. */
  lemma OfOne(m: Numerics, p: P.Primitive, n: Vector2)
    ensures Support(m, [p], n) == P.Support(m, p, n)
    ensures Center([p]) == P.Center(p)
  {
    assert P.Centers([p]) == [P.Center(p)];
    assert P.Supports(m, [p], n) == [P.Support(m, p, n)];
    SumSingleton(P.Center(p));
    SumSingleton(P.Support(m, p, n));
  }
}
