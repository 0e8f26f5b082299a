// Collision.Intersection and Collision.PenetrationDepth: Minkowski Portal
// Refinement on the support of B - A. Both keep a portal v1..v2 that the
// origin ray -v0 from the interior point v0 = centreB - centreA crosses, and
// refine it with the support point v3 along the portal's outer normal. The
// loops are methods over the local v1 and v2, proved equal to functions that
// run the same refinement; geometric convergence is not part of the model.

module Mpr {
  import opened Vectors
  import opened Queries
  import SignedVolumes

  /** The refinement cap of Intersection. */
  const MaxRefinementIntersection: int := 10

  /** The refinement cap of PenetrationDepth. */
  const MaxRefinementPenetration: int := 256

  /** ToPositiveNormal: (x, y) to (-y, x), the normal a quarter turn anticlockwise. */
  function PositiveNormal(v: Vector2): Vector2 {
    Vector2(-v.y, v.x)
  }

  /**
   * The positive normal is perpendicular to its argument, as long, zero only
   * for zero, and turning twice reverses the vector.
   */
  lemma PositiveNormalProperties(v: Vector2)
    ensures Dot(PositiveNormal(v), v) == 0.0
    ensures LengthSquared(PositiveNormal(v)) == LengthSquared(v)
    ensures PositiveNormal(v) == Zero <==> v == Zero
    ensures PositiveNormal(PositiveNormal(v)) == Neg(v)
  {
  }

  /** The support of B - A along d: B's support along d minus A's along -d. */
  function Support(a: Shape, b: Shape, d: Vector2): Vector2 {
    Sub(b.support(d), a.support(Neg(d)))
  }

  /**
   * Math.Sign of the origin ray -v0 against the positive normal of the line
   * from v0 through p: on which side of that line the origin lies.
   */
  function Side(v0: Vector2, p: Vector2): int {
    Sign(Dot(PositiveNormal(Sub(p, v0)), Neg(v0)))
  }

  /** The support direction of the portal: the positive normal of (v1 - v2) times the sign. */
  function PortalNormal(sign: int, v1: Vector2, v2: Vector2): Vector2 {
    PositiveNormal(Scale(sign as real, Sub(v1, v2)))
  }

  /**
   * The termination test: the distance from the portal to the support plane
   * along the normalised direction is within ToleranceMpr. Normalising the
   * zero direction gives NaN in IEEE arithmetic and a comparison with NaN
   * is false, so a direction of zero length never passes.
   */
  predicate Close(m: Numerics, sd: Vector2, v3: Vector2, v1: Vector2) {
    LengthSquared(sd) != 0.0 && Dot(Normalize(m, sd), Sub(v3, v1)) <= ToleranceMpr
  }

  /** A portal: the two support points v1 and v2. */
  datatype Portal = Portal(v1: Vector2, v2: Vector2)

  /** The new portal: v3 replaces v1 when the two signs agree, and v2 otherwise. */
  function Choose(sign: int, sign3: int, p: Portal, v3: Vector2): Portal {
    if sign * sign3 == 1 then Portal(v3, p.v2) else Portal(p.v1, v3)
  }

  /**
   * The portal invariant: the origin lies on the sign side of the line
   * v0..v1 (and, once v2 has been replaced, on the other side of v0..v2).
   * A choice between non-zero signs keeps v1 on its side and puts a
   * replaced v2 on the other, replacing exactly one of the two.
   */
  lemma ChooseSided(v0: Vector2, sign: int, p: Portal, v3: Vector2)
    requires (sign == 1 || sign == -1) && Side(v0, p.v1) == sign && Side(v0, v3) != 0
    ensures var q := Choose(sign, Side(v0, v3), p, v3);
            Side(v0, q.v1) == sign && (q.v2 == p.v2 || Side(v0, q.v2) == -sign) &&
            ((q == Portal(v3, p.v2) && Side(v0, v3) == sign) || (q == Portal(p.v1, v3) && Side(v0, v3) == -sign))
  {
  }

  /** A point the support of s dominates in every direction: a point of the shape. */
  ghost predicate Dominated(s: Shape, q: Vector2) {
    forall d {:trigger s.support(d)} :: Dot(d, q) <= Dot(d, s.support(d))
  }

  /**
   * A point q common to A and B puts the origin q - q on the far side of
   * every support plane of B - A: the support along any d is not behind it.
   */
  lemma CommonPointNotBehind(a: Shape, b: Shape, d: Vector2, q: Vector2)
    requires Dominated(a, q) && Dominated(b, q)
    ensures Dot(d, Support(a, b, d)) >= 0.0
  {
    assert Dot(d, q) <= Dot(d, b.support(d));
    assert Dot(Neg(d), q) <= Dot(Neg(d), a.support(Neg(d)));
    DotSub(d, b.support(d), a.support(Neg(d)));
    DotNeg(d, q);
    DotNeg(d, a.support(Neg(d)));
  }

  // ---- Intersection ----

  /** The outcome of one refinement: a verdict, or the next portal. */
  datatype Refined = Verdict(hit: bool) | Next(portal: Portal)

  /**
   * One refinement of Intersection. The origin is inside the portal when it
   * is not beyond v1 along the outer normal; the shapes are apart when the
   * support v3 is behind the origin or the support plane is within the
   * tolerance of the portal; the origin on the line v0..v3 decides by
   * length; otherwise v3 replaces one end.
   */
  function IntersectionStep(m: Numerics, a: Shape, b: Shape, v0: Vector2, sign: int, p: Portal): Refined {
    var sd := PortalNormal(sign, p.v1, p.v2);
    if Dot(sd, p.v1) >= 0.0 then Verdict(true)
    else
      var v3 := Support(a, b, sd);
      if Dot(sd, v3) < 0.0 then Verdict(false)
      else if Close(m, sd, v3, p.v1) then Verdict(false)
      else
        var sign3 := Side(v0, v3);
        if sign3 == 0 then Verdict(LengthSquared(Neg(v0)) <= LengthSquared(Sub(v0, v3)))
        else Next(Choose(sign, sign3, p, v3))
  }

  /** The refinement loop from round i on; running out of rounds is a miss. */
  function IntersectionRun(m: Numerics, a: Shape, b: Shape, v0: Vector2, sign: int, p: Portal, i: int): bool
    requires 0 <= i <= MaxRefinementIntersection
    decreases MaxRefinementIntersection - i
  {
    if i == MaxRefinementIntersection then false
    else
      match IntersectionStep(m, a, b, v0, sign, p)
      case Verdict(hit) => hit
      case Next(q) => IntersectionRun(m, a, b, v0, sign, q, i + 1)
  }

  /** The first portal: v1 along the origin ray and v2 along the outer normal of v0..v1. */
  function FirstPortal(a: Shape, b: Shape, v0: Vector2, sign: int): Portal {
    var v1 := Support(a, b, Neg(v0));
    Portal(v1, Support(a, b, Scale(sign as real, PositiveNormal(Sub(v1, v0)))))
  }

  /**
   * Collision.Intersection: coincident centres intersect; the origin on the
   * line v0..v1 decides by comparing lengths; otherwise the refinement loop.
   */
  function Intersection(m: Numerics, a: Shape, b: Shape): bool {
    var v0 := Sub(b.center, a.center);
    if v0 == Zero then true
    else
      var v1 := Support(a, b, Neg(v0));
      var sign := Side(v0, v1);
      if sign == 0 then LengthSquared(Neg(v0)) <= LengthSquared(Sub(v1, v0))
      else IntersectionRun(m, a, b, v0, sign, FirstPortal(a, b, v0, sign), 0)
  }

  /** Shapes whose world centres coincide intersect. */
  lemma IntersectionCoincident(m: Numerics, a: Shape, b: Shape)
    requires a.center == b.center
    ensures Intersection(m, a, b)
  {
  }

  /** A refinement that goes on keeps the portal invariant and replaces exactly one end with v3. */
  lemma IntersectionStepSided(m: Numerics, a: Shape, b: Shape, v0: Vector2, sign: int, p: Portal)
    requires (sign == 1 || sign == -1) && Side(v0, p.v1) == sign
    ensures var r := IntersectionStep(m, a, b, v0, sign, p);
            var v3 := Support(a, b, PortalNormal(sign, p.v1, p.v2));
            r.Next? ==> Side(v0, r.portal.v1) == sign && (r.portal.v2 == p.v2 || Side(v0, r.portal.v2) == -sign) &&
                        ((r.portal == Portal(v3, p.v2) && Side(v0, v3) == sign) ||
                         (r.portal == Portal(p.v1, v3) && Side(v0, v3) == -sign))
  {
    var sd := PortalNormal(sign, p.v1, p.v2);
    var v3 := Support(a, b, sd);
    if IntersectionStep(m, a, b, v0, sign, p).Next? {
      ChooseSided(v0, sign, p, v3);
    }
  }

  /**
   * For shapes with a common point the refinement never answers false
   * because the support point is behind the origin: a false verdict then
   * comes only from the tolerance test or the on-line comparison.
   */
  lemma IntersectionStepCommonPoint(m: Numerics, a: Shape, b: Shape, v0: Vector2, sign: int, p: Portal, q: Vector2)
    requires Dominated(a, q) && Dominated(b, q)
    ensures var sd := PortalNormal(sign, p.v1, p.v2);
            var v3 := Support(a, b, sd);
            IntersectionStep(m, a, b, v0, sign, p) == Verdict(false) ==>
              Dot(sd, p.v1) < 0.0 && 0.0 <= Dot(sd, v3) && (Close(m, sd, v3, p.v1) || Side(v0, v3) == 0)
  {
    CommonPointNotBehind(a, b, PortalNormal(sign, p.v1, p.v2), q);
  }

  /** Collision.Intersection. */
  method ComputeIntersection(m: Numerics, a: Shape, b: Shape) returns (hit: bool, ghost refinements: int)
    ensures hit == Intersection(m, a, b)
    ensures 0 <= refinements <= MaxRefinementIntersection
  {
    var centerA, centerB := a.center, b.center;
    var v0 := Sub(centerB, centerA);
    if v0 == Zero {
      return true, 0;
    }
    var originRay := Neg(v0);
    var v1 := Support(a, b, originRay);
    var v0v1 := Sub(v1, v0);
    var supportDirection := PositiveNormal(v0v1);
    var v0v1NormalSign := Sign(Dot(supportDirection, originRay));
    if v0v1NormalSign == 0 {
      return LengthSquared(originRay) <= LengthSquared(v0v1), 0;
    }
    supportDirection := Scale(v0v1NormalSign as real, supportDirection);
    var v2 := Support(a, b, supportDirection);
    hit, refinements := IntersectionLoop(m, a, b, v0, v0v1NormalSign, v1, v2);
  }

  /** The refinement loop of Collision.Intersection, from the first portal v1..v2. */
  method IntersectionLoop(m: Numerics, a: Shape, b: Shape, v0: Vector2, sign: int, v1: Vector2, v2: Vector2)
      returns (hit: bool, ghost refinements: int)
    requires (sign == 1 || sign == -1) && Side(v0, v1) == sign
    ensures hit == IntersectionRun(m, a, b, v0, sign, Portal(v1, v2), 0)
    ensures 1 <= refinements <= MaxRefinementIntersection
  {
    var v1, v2 := v1, v2;
    ghost var first := Portal(v1, v2);
    var i := 0;
    while i < MaxRefinementIntersection
      invariant 0 <= i <= MaxRefinementIntersection
      invariant Side(v0, v1) == sign
      invariant IntersectionRun(m, a, b, v0, sign, Portal(v1, v2), i) == IntersectionRun(m, a, b, v0, sign, first, 0)
      decreases MaxRefinementIntersection - i
    {
      i := i + 1;
      var done;
      done, hit, v1, v2 := IntersectionRefinement(m, a, b, v0, sign, v1, v2);
      if done {
        return hit, i;
      }
    }
    IntersectionAtCap(m, a, b, v0, sign, Portal(v1, v2));
    return false, MaxRefinementIntersection;
  }

  lemma IntersectionAtCap(m: Numerics, a: Shape, b: Shape, v0: Vector2, sign: int, p: Portal)
    ensures !IntersectionRun(m, a, b, v0, sign, p, MaxRefinementIntersection)
  {
  }

  /** The body of the refinement loop: a verdict, or the new portal. */
  method IntersectionRefinement(m: Numerics, a: Shape, b: Shape, v0: Vector2, sign: int, v1: Vector2, v2: Vector2)
      returns (done: bool, hit: bool, v1': Vector2, v2': Vector2)
    requires (sign == 1 || sign == -1) && Side(v0, v1) == sign
    ensures IntersectionStep(m, a, b, v0, sign, Portal(v1, v2)) == if done then Verdict(hit) else Next(Portal(v1', v2'))
    ensures !done ==> Side(v0, v1') == sign
  {
    IntersectionStepSided(m, a, b, v0, sign, Portal(v1, v2));
    v1', v2' := v1, v2;
    var originRay := Neg(v0);
    var supportDirection := PositiveNormal(Scale(sign as real, Sub(v1, v2)));
    if Dot(supportDirection, v1) >= 0.0 {
      return true, true, v1', v2';
    }
    var v3 := Support(a, b, supportDirection);
    if Dot(supportDirection, v3) < 0.0 {
      return true, false, v1', v2';
    }
    if LengthSquared(supportDirection) != 0.0 {
      var portalToSupportPlane := Dot(Normalize(m, supportDirection), Sub(v3, v1));
      if portalToSupportPlane <= ToleranceMpr {
        return true, false, v1', v2';
      }
    }
    supportDirection := PositiveNormal(Sub(v3, v0));
    var v0v3NormalSign := Sign(Dot(supportDirection, originRay));
    if v0v3NormalSign == 0 {
      return true, LengthSquared(originRay) <= LengthSquared(Sub(v0, v3)), v1', v2';
    }
    if sign * v0v3NormalSign == 1 {
      v1' := v3;
    } else {
      v2' := v3;
    }
    done, hit := false, false;
  }

  // ---- PenetrationDepth ----

  /** What PenetrationDepth produces: the contact normal and depth, or the debug build's exception. */
  datatype Penetration = Penetration(normal: Vector2, depth: real) | Unexpected

  /** The outcome of one refinement: the resolved contact, or the next portal. */
  datatype Deepened = Resolved(result: Penetration) | Deeper(portal: Portal)

  /**
   * One refinement of PenetrationDepth. When the support plane is within
   * the tolerance of the portal the normal is the normalised direction and
   * the depth the support point's extent along it; the origin on the line
   * v0..v3 resolves along the origin ray; otherwise v3 replaces one end.
   */
  function PenetrationStep(m: Numerics, a: Shape, b: Shape, v0: Vector2, sign: int, p: Portal): Deepened {
    var sd := PortalNormal(sign, p.v1, p.v2);
    var v3 := Support(a, b, sd);
    if Close(m, sd, v3, p.v1) then
      var normal := Normalize(m, sd);
      Resolved(Penetration(normal, Dot(v3, normal)))
    else
      var sign3 := Side(v0, v3);
      if sign3 == 0 then Resolved(Penetration(Neg(v0), Length(m, Sub(v0, v3)) - Length(m, Neg(v0))))
      else Deeper(Choose(sign, sign3, p, v3))
  }

  /**
   * The refinement loop from round k on. Running out of rounds reaches the
   * throw of the debug build, which Collision.cs enables on its first line.
   */
  function PenetrationRun(m: Numerics, a: Shape, b: Shape, v0: Vector2, sign: int, p: Portal, k: int): Penetration
    requires 0 <= k <= MaxRefinementPenetration
    decreases MaxRefinementPenetration - k
  {
    if k == MaxRefinementPenetration then Unexpected
    else
      match PenetrationStep(m, a, b, v0, sign, p)
      case Resolved(r) => r
      case Deeper(q) => PenetrationRun(m, a, b, v0, sign, q, k + 1)
  }

  /** The four sample directions for coincident centres, in the order they are tried. */
  function Samples(): (r: seq<Vector2>)
    ensures |r| == 4
  {
    [Vector2(0.0, -1.0), Vector2(1.0, 0.0), Vector2(0.0, 1.0), Vector2(-1.0, 0.0)]
  }

  /** The supports of B - A along the four sample directions. */
  function SampleSupports(a: Shape, b: Shape): (r: seq<Vector2>)
    ensures |r| == 4 && forall i :: 0 <= i < 4 ==> r[i] == Support(a, b, Samples()[i])
  {
    seq(4, i requires 0 <= i < 4 => Support(a, b, Samples()[i]))
  }

  /** The shortest support found so far and its squared length. */
  datatype Sample = Sample(support: Vector2, lengthSquared: real)

  /**
   * The sampling loop over the first n points: from Zero and
   * float.MaxValue, a point replaces the kept one only when it is strictly
   * shorter, so the result is the first shortest point.
   */
  function Shortest(points: seq<Vector2>, n: int): (r: Sample)
    requires 0 <= n <= |points|
    ensures r.lengthSquared <= SignedVolumes.FloatMax
    ensures forall i :: 0 <= i < n ==> r.lengthSquared <= LengthSquared(points[i])
    ensures r.lengthSquared == SignedVolumes.FloatMax ==>
              (r.support == Zero || exists i :: 0 <= i < n && r.support == points[i] && r.lengthSquared == LengthSquared(r.support))
    ensures r.lengthSquared < SignedVolumes.FloatMax ==>
              exists i :: 0 <= i < n && r.support == points[i] && r.lengthSquared == LengthSquared(r.support) &&
                          forall j :: 0 <= j < i ==> LengthSquared(points[j]) > r.lengthSquared
    decreases n
  {
    if n == 0 then Sample(Zero, SignedVolumes.FloatMax)
    else
      var s := Shortest(points, n - 1);
      var lengthSquared := LengthSquared(points[n - 1]);
      if lengthSquared < s.lengthSquared then Sample(points[n - 1], lengthSquared) else s
  }

  /**
   * Collision.PenetrationDepth: for coincident centres the shortest of the
   * four sampled supports and its length; the origin on the line v0..v1
   * resolves along the origin ray; otherwise the refinement loop.
   */
  function PenetrationDepth(m: Numerics, a: Shape, b: Shape): Penetration {
    var v0 := Sub(b.center, a.center);
    if v0 == Zero then
      var samples := SampleSupports(a, b);
      var s := Shortest(samples, |samples|);
      Penetration(s.support, m.sqrt(s.lengthSquared))
    else
      var v1 := Support(a, b, Neg(v0));
      var sign := Side(v0, v1);
      if sign == 0 then Penetration(Neg(v0), Length(m, Sub(v1, v0)) - Length(m, Neg(v0)))
      else PenetrationRun(m, a, b, v0, sign, FirstPortal(a, b, v0, sign), 0)
  }

  /**
   * With coincident centres no sampled support is shorter than the normal;
   * the depth is never negative and is the normal's length once some
   * sample lies below float.MaxValue.
   */
  lemma PenetrationCoincident(m: Numerics, a: Shape, b: Shape)
    requires RootsNonNegative(m) && a.center == b.center
    ensures var r := PenetrationDepth(m, a, b);
            var samples := SampleSupports(a, b);
            r.Penetration? && r.depth >= 0.0 &&
            (forall i :: 0 <= i < |samples| ==> LengthSquared(r.normal) <= LengthSquared(samples[i])) &&
            ((exists i :: 0 <= i < |samples| && LengthSquared(samples[i]) < SignedVolumes.FloatMax) ==> r.depth == Length(m, r.normal))
  {
    var samples := SampleSupports(a, b);
    var s := Shortest(samples, |samples|);
    CoincidentDepth(m, a, b);
    ShortestNonNegative(samples, |samples|);
    SampledPenetration(m, samples, s, PenetrationDepth(m, a, b));
  }

  /** With coincident centres the normal is Zero, the initial value of the loop, or one of the four sampled supports. */
  lemma CoincidentNormal(m: Numerics, a: Shape, b: Shape)
    requires a.center == b.center
    ensures var r := PenetrationDepth(m, a, b);
            r.Penetration? && (r.normal == Zero || r.normal in SampleSupports(a, b))
  {
    var samples := SampleSupports(a, b);
    CoincidentDepth(m, a, b);
    SampledNormal(samples, Shortest(samples, |samples|));
  }

  /** What the result built from the shortest of the samples satisfies, apart from its sign. */
  lemma SampledPenetration(m: Numerics, samples: seq<Vector2>, s: Sample, r: Penetration)
    requires s == Shortest(samples, |samples|) && r == Penetration(s.support, m.sqrt(s.lengthSquared))
    ensures r.Penetration? &&
            (forall i :: 0 <= i < |samples| ==> LengthSquared(r.normal) <= LengthSquared(samples[i])) &&
            ((exists i :: 0 <= i < |samples| && LengthSquared(samples[i]) < SignedVolumes.FloatMax) ==> r.depth == Length(m, r.normal))
  {
    ShortestNoLonger(samples, |samples|);
    SampledDepth(m, samples, s);
  }

  /** With coincident centres PenetrationDepth takes the shortest of the sampled supports. */
  lemma CoincidentDepth(m: Numerics, a: Shape, b: Shape)
    requires a.center == b.center
    ensures var samples := SampleSupports(a, b);
            var s := Shortest(samples, |samples|);
            PenetrationDepth(m, a, b) == Penetration(s.support, m.sqrt(s.lengthSquared))
  {
    assert Sub(b.center, a.center) == Zero;
  }

  /** The shortest sample is Zero or one of the samples. */
  lemma SampledNormal(samples: seq<Vector2>, s: Sample)
    requires s == Shortest(samples, |samples|)
    ensures s.support == Zero || s.support in samples
  {
    if s.support != Zero {
      var i :| 0 <= i < |samples| && s.support == samples[i];
    }
  }

  /** The shortest sample's length is its support's once some sample lies below float.MaxValue. */
  lemma SampledDepth(m: Numerics, samples: seq<Vector2>, s: Sample)
    requires s == Shortest(samples, |samples|)
    ensures (exists i :: 0 <= i < |samples| && LengthSquared(samples[i]) < SignedVolumes.FloatMax) ==>
              m.sqrt(s.lengthSquared) == Length(m, s.support)
  {
    ShortestExact(samples, |samples|);
  }

  /** The kept point is no longer than any of the first n points. */
  lemma ShortestNoLonger(points: seq<Vector2>, n: int)
    requires 0 <= n <= |points|
    ensures forall i :: 0 <= i < n ==> LengthSquared(Shortest(points, n).support) <= LengthSquared(points[i])
  {
    var s := Shortest(points, n);
    forall i | 0 <= i < n
      ensures LengthSquared(s.support) <= LengthSquared(points[i])
    {
      if s.lengthSquared < SignedVolumes.FloatMax || s.support != Zero {
        assert s.lengthSquared == LengthSquared(s.support);
      } else {
        assert LengthSquared(s.support) == 0.0;
      }
    }
  }

  /** The kept squared length is never negative. */
  lemma ShortestNonNegative(points: seq<Vector2>, n: int)
    requires 0 <= n <= |points|
    ensures Shortest(points, n).lengthSquared >= 0.0
  {
    var s := Shortest(points, n);
    LengthSquaredZero(s.support);
    if s.lengthSquared < SignedVolumes.FloatMax {
      assert s.lengthSquared == LengthSquared(s.support);
    }
  }

  /** The kept point is Zero, the initial value, or one of the first n points. */
  lemma ShortestMember(points: seq<Vector2>, n: int)
    requires 0 <= n <= |points|
    ensures var s := Shortest(points, n); s.support == Zero || s.support in points[..n]
  {
    var s := Shortest(points, n);
    if s.support != Zero {
      var i :| 0 <= i < n && s.support == points[i];
      assert points[..n][i] == points[i];
    }
  }

  /** Once one of the points is below float.MaxValue, the kept length is the kept point's. */
  lemma ShortestExact(points: seq<Vector2>, n: int)
    requires 0 <= n <= |points|
    ensures var s := Shortest(points, n);
            (exists i :: 0 <= i < n && LengthSquared(points[i]) < SignedVolumes.FloatMax) ==>
               s.lengthSquared == LengthSquared(s.support)
  {
    var s := Shortest(points, n);
    if exists i :: 0 <= i < n && LengthSquared(points[i]) < SignedVolumes.FloatMax {
      var i :| 0 <= i < n && LengthSquared(points[i]) < SignedVolumes.FloatMax;
      assert s.lengthSquared <= LengthSquared(points[i]);
    }
  }


  /** A refinement that goes on keeps the portal invariant and replaces exactly one end with v3. */
  lemma PenetrationStepSided(m: Numerics, a: Shape, b: Shape, v0: Vector2, sign: int, p: Portal)
    requires (sign == 1 || sign == -1) && Side(v0, p.v1) == sign
    ensures var r := PenetrationStep(m, a, b, v0, sign, p);
            var v3 := Support(a, b, PortalNormal(sign, p.v1, p.v2));
            r.Deeper? ==> Side(v0, r.portal.v1) == sign && (r.portal.v2 == p.v2 || Side(v0, r.portal.v2) == -sign) &&
                          ((r.portal == Portal(v3, p.v2) && Side(v0, v3) == sign) ||
                           (r.portal == Portal(p.v1, v3) && Side(v0, v3) == -sign))
  {
    var sd := PortalNormal(sign, p.v1, p.v2);
    var v3 := Support(a, b, sd);
    if PenetrationStep(m, a, b, v0, sign, p).Deeper? {
      ChooseSided(v0, sign, p, v3);
    }
  }

  /** A contact the refinement resolves has a unit normal, or the origin ray as its normal. */
  lemma {:induction false} PenetrationRunNormal(m: Numerics, a: Shape, b: Shape, v0: Vector2, sign: int, p: Portal, k: int)
    requires ExactSqrt(m) && 0 <= k <= MaxRefinementPenetration
    ensures var r := PenetrationRun(m, a, b, v0, sign, p, k);
            r.Penetration? ==> r.normal == Neg(v0) || LengthSquared(r.normal) == 1.0
    decreases MaxRefinementPenetration - k
  {
    if k < MaxRefinementPenetration {
      var sd := PortalNormal(sign, p.v1, p.v2);
      match PenetrationStep(m, a, b, v0, sign, p)
      case Resolved(r) =>
        if Close(m, sd, Support(a, b, sd), p.v1) {
          LengthSquaredZero(sd);
          NormalizeUnit(m, sd);
        }
      case Deeper(q) =>
        PenetrationRunNormal(m, a, b, v0, sign, q, k + 1);
    }
  }

  /**
   * PenetrationDepth away from coincident centres: the exception, or a
   * normal that is a unit vector or the origin ray -v0.
   */
  lemma PenetrationNormal(m: Numerics, a: Shape, b: Shape)
    requires ExactSqrt(m) && a.center != b.center
    ensures var r := PenetrationDepth(m, a, b);
            r.Penetration? ==> r.normal == Sub(a.center, b.center) || LengthSquared(r.normal) == 1.0
  {
    var v0 := Sub(b.center, a.center);
    assert v0 != Zero;
    assert Neg(v0) == Sub(a.center, b.center);
    var v1 := Support(a, b, Neg(v0));
    var sign := Side(v0, v1);
    if sign != 0 {
      PenetrationRunNormal(m, a, b, v0, sign, FirstPortal(a, b, v0, sign), 0);
    }
  }

  /** The sampling loop for coincident centres. */
  method SampleShortest(a: Shape, b: Shape) returns (minSupport: Vector2, minLengthSquared: real)
    ensures Sample(minSupport, minLengthSquared) == Shortest(SampleSupports(a, b), |SampleSupports(a, b)|)
  {
    var sampleDirections := Samples();
    minSupport := Zero;
    minLengthSquared := SignedVolumes.FloatMax;
    var i := 0;
    while i < |sampleDirections|
      invariant 0 <= i <= |sampleDirections|
      invariant Sample(minSupport, minLengthSquared) == Shortest(SampleSupports(a, b), i)
    {
      var support := Support(a, b, sampleDirections[i]);
      var lengthSquared := LengthSquared(support);
      if lengthSquared < minLengthSquared {
        minLengthSquared := lengthSquared;
        minSupport := support;
      }
      i := i + 1;
    }
  }

  /** Collision.PenetrationDepth. */
  method ComputePenetrationDepth(m: Numerics, a: Shape, b: Shape) returns (r: Penetration, ghost refinements: int)
    ensures r == PenetrationDepth(m, a, b)
    ensures 0 <= refinements <= MaxRefinementPenetration
  {
    var centerA, centerB := a.center, b.center;
    var v0 := Sub(centerB, centerA);
    if v0 == Zero {
      var minSupport, minLengthSquared := SampleShortest(a, b);
      return Penetration(minSupport, m.sqrt(minLengthSquared)), 0;
    }
    var originRay := Neg(v0);
    var v1 := Support(a, b, originRay);
    var v0v1 := Sub(v1, v0);
    var supportDirection := PositiveNormal(v0v1);
    var v0v1NormalSign := Sign(Dot(supportDirection, originRay));
    if v0v1NormalSign == 0 {
      return Penetration(originRay, Length(m, v0v1) - Length(m, originRay)), 0;
    }
    supportDirection := Scale(v0v1NormalSign as real, supportDirection);
    var v2 := Support(a, b, supportDirection);
    assert Portal(v1, v2) == FirstPortal(a, b, v0, v0v1NormalSign);
    r, refinements := PenetrationLoop(m, a, b, v0, v0v1NormalSign, v1, v2);
  }

  /** The refinement loop of Collision.PenetrationDepth, from the first portal v1..v2. */
  method PenetrationLoop(m: Numerics, a: Shape, b: Shape, v0: Vector2, sign: int, v1: Vector2, v2: Vector2)
      returns (r: Penetration, ghost refinements: int)
    requires (sign == 1 || sign == -1) && Side(v0, v1) == sign
    ensures r == PenetrationRun(m, a, b, v0, sign, Portal(v1, v2), 0)
    ensures 0 <= refinements <= MaxRefinementPenetration
  {
    var v1, v2 := v1, v2;
    ghost var first := Portal(v1, v2);
    var k := 0;
    while k < MaxRefinementPenetration
      invariant 0 <= k <= MaxRefinementPenetration
      invariant Side(v0, v1) == sign
      invariant PenetrationRun(m, a, b, v0, sign, Portal(v1, v2), k) == PenetrationRun(m, a, b, v0, sign, first, 0)
      decreases MaxRefinementPenetration - k
    {
      ghost var p := Portal(v1, v2);
      var done;
      done, r, v1, v2 := PenetrationRefinement(m, a, b, v0, sign, v1, v2);
      PenetrationRunStep(m, a, b, v0, sign, p, k, done, r, Portal(v1, v2));
      k := k + 1;
      if done {
        return r, k;
      }
    }
    PenetrationAtCap(m, a, b, v0, sign, Portal(v1, v2));
    return Unexpected, MaxRefinementPenetration;
  }

  /** One round of the refinement loop: a resolved step ends the run, otherwise it goes on from the new portal. */
  lemma PenetrationRunStep(m: Numerics, a: Shape, b: Shape, v0: Vector2, sign: int, p: Portal, k: int,
                           done: bool, r: Penetration, q: Portal)
    requires 0 <= k < MaxRefinementPenetration
    requires PenetrationStep(m, a, b, v0, sign, p) == if done then Resolved(r) else Deeper(q)
    ensures done ==> PenetrationRun(m, a, b, v0, sign, p, k) == r
    ensures !done ==> PenetrationRun(m, a, b, v0, sign, p, k) == PenetrationRun(m, a, b, v0, sign, q, k + 1)
  {
  }

  lemma PenetrationAtCap(m: Numerics, a: Shape, b: Shape, v0: Vector2, sign: int, p: Portal)
    ensures PenetrationRun(m, a, b, v0, sign, p, MaxRefinementPenetration) == Unexpected
  {
  }

  /** The body of the refinement loop: the resolved contact, or the new portal. */
  method PenetrationRefinement(m: Numerics, a: Shape, b: Shape, v0: Vector2, sign: int, v1: Vector2, v2: Vector2)
      returns (done: bool, r: Penetration, v1': Vector2, v2': Vector2)
    requires (sign == 1 || sign == -1) && Side(v0, v1) == sign
    ensures PenetrationStep(m, a, b, v0, sign, Portal(v1, v2)) == if done then Resolved(r) else Deeper(Portal(v1', v2'))
    ensures !done ==> Side(v0, v1') == sign
  {
    PenetrationStepSided(m, a, b, v0, sign, Portal(v1, v2));
    v1', v2' := v1, v2;
    var originRay := Neg(v0);
    var supportDirection := PositiveNormal(Scale(sign as real, Sub(v1, v2)));
    var v3 := Support(a, b, supportDirection);
    if LengthSquared(supportDirection) != 0.0 {
      var portalToSupportPlane := Dot(Normalize(m, supportDirection), Sub(v3, v1));
      if portalToSupportPlane <= ToleranceMpr {
        var normal := Normalize(m, supportDirection);
        return true, Penetration(normal, Dot(v3, normal)), v1', v2';
      }
    }
    supportDirection := PositiveNormal(Sub(v3, v0));
    var v0v3NormalSign := Sign(Dot(supportDirection, originRay));
    if v0v3NormalSign == 0 {
      return true, Penetration(originRay, Length(m, Sub(v0, v3)) - Length(m, originRay)), v1', v2';
    }
    if sign * v0v3NormalSign == 1 {
      v1' := v3;
    } else {
      v2' := v3;
    }
    done, r := false, Unexpected;
  }
}
