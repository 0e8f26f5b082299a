// The second collider snapshot, the ICollider implementations: the same five
// shapes with Center and Support(direction) in collider coordinates, except
// that the sphere's support is radius * direction with no normalisation, and
// there is no world lift. As in Colliders, the loops of Center and Support are
// methods proved equal to the specification functions.

module InterfaceColliders {
  import opened Vectors
  import opened SupportMath
  import C = Colliders

  datatype Collider =
    | Convex(vertices: seq<Vector2>)
    | ConvexHull(shapes: seq<Collider>)
    | MinkowskiSum(shapes: seq<Collider>)
    | Segment(a: Vector2, b: Vector2)
    | Sphere(radius: real)

  /** Every array that a loop starts by reading at index 0 is non-empty, at every level. */
  predicate Valid(c: Collider)
    decreases c
  {
    match c
    case Convex(v) => |v| > 0
    case ConvexHull(s) => |s| > 0 && forall i :: 0 <= i < |s| ==> Valid(s[i])
    case MinkowskiSum(s) => |s| > 0 && forall i :: 0 <= i < |s| ==> Valid(s[i])
    case Segment(_, _) => true
    case Sphere(_) => true
  }

  /** Every sphere in the collider has a non-negative radius. */
  predicate RadiiNonNegative(c: Collider)
    decreases c
  {
    match c
    case Convex(_) => true
    case ConvexHull(s) => forall i :: 0 <= i < |s| ==> RadiiNonNegative(s[i])
    case MinkowskiSum(s) => forall i :: 0 <= i < |s| ==> RadiiNonNegative(s[i])
    case Segment(_, _) => true
    case Sphere(r) => r >= 0.0
  }

  /** The geometry centre in collider coordinates. */
  function Center(c: Collider): Vector2
    requires Valid(c)
    decreases c
  {
    match c
    case Convex(v) => Mean(v)
    case ConvexHull(s) => Mean(SubCenters(s))
    case MinkowskiSum(s) => Sum(SubCenters(s))
    case Segment(a, b) => C.Midpoint(a, b)
    case Sphere(_) => Zero
  }

  /** The sub-shapes' centres, in order. */
  function SubCenters(s: seq<Collider>): (r: seq<Vector2>)
    requires forall i :: 0 <= i < |s| ==> Valid(s[i])
    ensures |r| == |s|
    decreases s
  {
    if |s| == 0 then [] else SubCenters(s[..|s| - 1]) + [Center(s[|s| - 1])]
  }

  /** The i-th entry of SubCenters is the i-th shape's centre. */
  lemma {:induction false} SubCentersIndex(s: seq<Collider>, i: int)
    requires forall j :: 0 <= j < |s| ==> Valid(s[j])
    requires 0 <= i < |s|
    ensures SubCenters(s)[i] == Center(s[i])
  {
    if i < |s| - 1 {
      SubCentersIndex(s[..|s| - 1], i);
    }
  }

  /** The support point in direction d, in collider coordinates. */
  function Support(c: Collider, d: Vector2): Vector2
    requires Valid(c)
    decreases c
  {
    match c
    case Convex(v) => MaxAlong(d, v)
    case ConvexHull(s) => MaxAlong(d, SubSupports(s, d))
    case MinkowskiSum(s) => Sum(SubSupports(s, d))
    case Segment(a, b) => if Dot(Sub(b, a), d) > 0.0 then b else a
    case Sphere(r) => Scale(r, d)
  }

  /** The sub-shapes' supports in direction d, in order. */
  function SubSupports(s: seq<Collider>, d: Vector2): (r: seq<Vector2>)
    requires forall i :: 0 <= i < |s| ==> Valid(s[i])
    ensures |r| == |s|
    decreases s
  {
    if |s| == 0 then [] else SubSupports(s[..|s| - 1], d) + [Support(s[|s| - 1], d)]
  }

  /** The i-th entry of SubSupports is the i-th shape's support. */
  lemma {:induction false} SubSupportsIndex(s: seq<Collider>, d: Vector2, i: int)
    requires forall j :: 0 <= j < |s| ==> Valid(s[j])
    requires 0 <= i < |s|
    ensures SubSupports(s, d)[i] == Support(s[i], d)
  {
    if i < |s| - 1 {
      SubSupportsIndex(s[..|s| - 1], d, i);
    }
  }

  // ---- The loops of the source, proved against Center and Support ----

  /** The Center property of each implementation. */
  method ComputeCenter(c: Collider) returns (r: Vector2)
    requires Valid(c)
    ensures r == Center(c)
    decreases c
  {
    match c {
      case Convex(v) =>
        r := VertexMean(v);
      case ConvexHull(s) =>
        var center := CenterSum(s);
        r := Vector2(center.x / (|s| as real), center.y / (|s| as real));
      case MinkowskiSum(s) =>
        r := CenterSum(s);
      case Segment(a, b) =>
        r := Vector2((a.x + b.x) / 2.0, (a.y + b.y) / 2.0);
      case Sphere(_) =>
        r := Zero;
    }
  }

  /** ConvexCollider.Center: the vertices summed from the first on, divided by their count. */
  method VertexMean(v: seq<Vector2>) returns (r: Vector2)
    requires |v| > 0
    ensures r == Mean(v)
  {
    var center := v[0];
    var i := 1;
    assert v[..1] == [v[0]];
    SumSingleton(v[0]);
    while i < |v|
      invariant 1 <= i <= |v|
      invariant center == Sum(v[..i])
    {
      assert v[..i + 1] == v[..i] + [v[i]];
      SumAppend(v[..i], v[i]);
      center := Add(center, v[i]);
      i := i + 1;
    }
    assert v[..|v|] == v;
    r := Vector2(center.x / (|v| as real), center.y / (|v| as real));
  }

  /** The summing loop of the hull's and the sum's Center. */
  method CenterSum(s: seq<Collider>) returns (r: Vector2)
    requires |s| > 0 && forall i :: 0 <= i < |s| ==> Valid(s[i])
    ensures r == Sum(SubCenters(s))
    decreases s
  {
    var center := ComputeCenter(s[0]);
    var i := 1;
    assert SubCenters(s[..1]) == [center] by {
      assert |SubCenters(s[..1][..0])| == 0;
    }
    SumSingleton(center);
    while i < |s|
      invariant 1 <= i <= |s|
      invariant center == Sum(SubCenters(s[..i]))
    {
      var next := ComputeCenter(s[i]);
      assert s[..i + 1][..i] == s[..i];
      SumAppend(SubCenters(s[..i]), next);
      center := Add(center, next);
      i := i + 1;
    }
    assert s[..|s|] == s;
    r := center;
  }

  /** Support(direction) of each implementation. */
  method ComputeSupport(c: Collider, d: Vector2) returns (r: Vector2)
    requires Valid(c)
    ensures r == Support(c, d)
    decreases c
  {
    match c {
      case Convex(v) =>
        r := VertexSupport(v, d);
      case ConvexHull(s) =>
        r := HullSupport(s, d);
      case MinkowskiSum(s) =>
        r := SumSupport(s, d);
      case Segment(a, b) =>
        r := if Dot(Sub(b, a), d) > 0.0 then b else a;
      case Sphere(radius) =>
        r := Scale(radius, d);
    }
  }

  /** ConvexCollider.Support: the first vertex, replaced by any later one strictly farther along d. */
  method VertexSupport(v: seq<Vector2>, d: Vector2) returns (r: Vector2)
    requires |v| > 0
    ensures r == MaxAlong(d, v)
  {
    var max := v[0];
    var i := 1;
    while i < |v|
      invariant 1 <= i <= |v|
      invariant max == MaxAlong(d, v[..i])
    {
      assert v[..i + 1] == v[..i] + [v[i]];
      MaxAlongAppend(d, v[..i], v[i]);
      var support := v[i];
      if Dot(d, Sub(support, max)) > 0.0 {
        max := support;
      }
      i := i + 1;
    }
    assert v[..|v|] == v;
    r := max;
  }

  /** ConvexHullCollider.Support: the same loop over the sub-shapes' supports. */
  method HullSupport(s: seq<Collider>, d: Vector2) returns (r: Vector2)
    requires |s| > 0 && forall i :: 0 <= i < |s| ==> Valid(s[i])
    ensures r == MaxAlong(d, SubSupports(s, d))
    decreases s
  {
    var max := ComputeSupport(s[0], d);
    var i := 1;
    assert SubSupports(s[..1], d) == [max] by {
      assert |SubSupports(s[..1][..0], d)| == 0;
    }
    while i < |s|
      invariant 1 <= i <= |s|
      invariant max == MaxAlong(d, SubSupports(s[..i], d))
    {
      var support := ComputeSupport(s[i], d);
      assert s[..i + 1][..i] == s[..i];
      MaxAlongAppend(d, SubSupports(s[..i], d), support);
      if Dot(d, Sub(support, max)) > 0.0 {
        max := support;
      }
      i := i + 1;
    }
    assert s[..|s|] == s;
    r := max;
  }

  /** MinkowskiSumCollider.Support: the sub-shapes' supports added up. */
  method SumSupport(s: seq<Collider>, d: Vector2) returns (r: Vector2)
    requires |s| > 0 && forall i :: 0 <= i < |s| ==> Valid(s[i])
    ensures r == Sum(SubSupports(s, d))
    decreases s
  {
    var support := ComputeSupport(s[0], d);
    var i := 1;
    assert SubSupports(s[..1], d) == [support] by {
      assert |SubSupports(s[..1][..0], d)| == 0;
    }
    SumSingleton(support);
    while i < |s|
      invariant 1 <= i <= |s|
      invariant support == Sum(SubSupports(s[..i], d))
    {
      var next := ComputeSupport(s[i], d);
      assert s[..i + 1][..i] == s[..i];
      SumAppend(SubSupports(s[..i], d), next);
      support := Add(support, next);
      i := i + 1;
    }
    assert s[..|s|] == s;
    r := support;
  }

  // ---- Convex polygon and hull ----

  /** The polygon's support is the earliest vertex farthest along d. */
  lemma ConvexSupportEarliest(v: seq<Vector2>, d: Vector2)
    requires |v| > 0
    ensures exists k :: EarliestMax(d, v, k) && Support(Convex(v), d) == v[k]
  {
    MaxAlongEarliest(d, v);
  }

  /** The hull's support is the support of its earliest sub-shape farthest along d. */
  lemma HullSupportEarliest(s: seq<Collider>, d: Vector2)
    requires Valid(ConvexHull(s))
    ensures exists k :: EarliestMax(d, SubSupports(s, d), k)
                     && Support(ConvexHull(s), d) == Support(s[k], d)
  {
    var subs := SubSupports(s, d);
    MaxAlongEarliest(d, subs);
    var k :| EarliestMax(d, subs, k) && MaxAlong(d, subs) == subs[k];
    SubSupportsIndex(s, d, k);
  }

  // ---- Minkowski sum ----

  /** dot(d, Support(d)) is the sum over the sub-shapes of dot(d, their support). */
  lemma SumSupportDot(s: seq<Collider>, d: Vector2)
    requires Valid(MinkowskiSum(s))
    ensures Dot(d, Support(MinkowskiSum(s), d)) == SumOfDots(d, SubSupports(s, d))
  {
    DotSum(d, SubSupports(s, d));
  }

  /** A sum of one shape is that shape, on both Support and Center. */
  lemma SumOfOne(c: Collider, d: Vector2)
    requires Valid(c)
    ensures Valid(MinkowskiSum([c]))
    ensures Support(MinkowskiSum([c]), d) == Support(c, d)
    ensures Center(MinkowskiSum([c])) == Center(c)
  {
    assert SubCenters([c]) == [Center(c)];
    assert SubSupports([c], d) == [Support(c, d)];
    SumSingleton(Center(c));
    SumSingleton(Support(c, d));
  }

  // ---- Segment ----

  /** The segment's support is an endpoint at least as far along d as both; b exactly when b - a points along d. */
  lemma SegmentSupportMaximal(a: Vector2, b: Vector2, d: Vector2)
    ensures Dot(d, a) <= Dot(d, Support(Segment(a, b), d))
    ensures Dot(d, b) <= Dot(d, Support(Segment(a, b), d))
    ensures Support(Segment(a, b), d) == b <==> Dot(d, b) > Dot(d, a) || (a == b)
  {
    DotSub(d, b, a);
    DotSymmetric(Sub(b, a), d);
  }

  // ---- Sphere ----

  /** The sphere's support is linear in the direction. */
  lemma SphereSupportLinear(radius: real, k: real, d: Vector2)
    ensures Support(Sphere(radius), Neg(d)) == Neg(Support(Sphere(radius), d))
    ensures Support(Sphere(radius), Scale(k, d)) == Scale(k, Support(Sphere(radius), d))
    ensures Support(Sphere(radius), Zero) == Zero
  {
    assert Scale(radius, Scale(k, d)) == Scale(k, Scale(radius, d)) by {
      assert radius * (k * d.x) == k * (radius * d.x);
      assert radius * (k * d.y) == k * (radius * d.y);
    }
  }

  /** dot(d, Support(d)) is radius * |d|^2. */
  lemma SphereSupportDot(radius: real, d: Vector2)
    ensures Dot(d, Support(Sphere(radius), d)) == radius * LengthSquared(d)
  {
    DotScaleSelf(radius, d);
  }

  /** With a non-negative radius the support point is never behind the origin along d. */
  lemma SphereSupportAhead(radius: real, d: Vector2)
    requires radius >= 0.0
    ensures Dot(d, Support(Sphere(radius), d)) >= 0.0
  {
    DotScaleSelfNonNegative(radius, d);
  }

  /** The sphere is centred at the origin, and radius 0 is the point collider at the origin. */
  lemma SpherePoint(radius: real, d: Vector2)
    requires radius == 0.0
    ensures Support(Sphere(radius), d) == Zero
    ensures Center(Sphere(radius)) == Zero
  {
  }

  // ---- The centre lies inside the shape ----

  /** Along any direction the centre is no farther than the support point. */
  lemma {:induction false} CenterWithinSupport(c: Collider, d: Vector2)
    requires Valid(c) && RadiiNonNegative(c)
    ensures Dot(d, Center(c)) <= Dot(d, Support(c, d))
    decreases c
  {
    match c {
      case Convex(v) =>
        forall i | 0 <= i < |v| ensures Dot(d, v[i]) <= Dot(d, MaxAlong(d, v)) {
          MaxAlongMaximal(d, v, i);
        }
        MeanBoundedByMax(d, v, Dot(d, MaxAlong(d, v)));
      case ConvexHull(s) =>
        var centers := SubCenters(s);
        var subs := SubSupports(s, d);
        var top := Dot(d, MaxAlong(d, subs));
        forall i | 0 <= i < |s| ensures Dot(d, centers[i]) <= top {
          SubCentersIndex(s, i);
          SubSupportsIndex(s, d, i);
          CenterWithinSupport(s[i], d);
          MaxAlongMaximal(d, subs, i);
        }
        MeanBoundedByMax(d, centers, top);
      case MinkowskiSum(s) =>
        var centers := SubCenters(s);
        var subs := SubSupports(s, d);
        forall i | 0 <= i < |s| ensures Dot(d, centers[i]) <= Dot(d, subs[i]) {
          SubCentersIndex(s, i);
          SubSupportsIndex(s, d, i);
          CenterWithinSupport(s[i], d);
        }
        SumMaximal(d, subs, centers);
      case Segment(a, b) =>
        SegmentSupportMaximal(a, b, d);
        assert Dot(d, C.Midpoint(a, b)) == (Dot(d, a) + Dot(d, b)) / 2.0;
      case Sphere(r) =>
        SphereSupportAhead(r, d);
    }
  }

  // ---- Agreement with the Collider snapshot ----

  /** The same shape in the abstract-class snapshot. */
  function ToCollider(c: Collider): (r: C.Collider)
    decreases c
  {
    match c
    case Convex(v) => C.Convex(v)
    case ConvexHull(s) => C.ConvexHull(ToColliders(s))
    case MinkowskiSum(s) => C.MinkowskiSum(ToColliders(s))
    case Segment(a, b) => C.Segment(a, b)
    case Sphere(r) => C.Sphere(r)
  }

  function ToColliders(s: seq<Collider>): (r: seq<C.Collider>)
    ensures |r| == |s|
    decreases s
  {
    if |s| == 0 then [] else ToColliders(s[..|s| - 1]) + [ToCollider(s[|s| - 1])]
  }

  lemma {:induction false} ToCollidersIndex(s: seq<Collider>, i: int)
    requires 0 <= i < |s|
    ensures ToColliders(s)[i] == ToCollider(s[i])
  {
    if i < |s| - 1 {
      ToCollidersIndex(s[..|s| - 1], i);
    }
  }

  /** Translation keeps validity. */
  lemma {:induction false} ToColliderValid(c: Collider)
    requires Valid(c)
    ensures C.Valid(ToCollider(c))
    decreases c
  {
    match c {
      case Convex(_) =>
      case ConvexHull(s) =>
        forall i | 0 <= i < |s| ensures C.Valid(ToColliders(s)[i]) {
          ToCollidersIndex(s, i);
          ToColliderValid(s[i]);
        }
      case MinkowskiSum(s) =>
        forall i | 0 <= i < |s| ensures C.Valid(ToColliders(s)[i]) {
          ToCollidersIndex(s, i);
          ToColliderValid(s[i]);
        }
      case Segment(_, _) =>
      case Sphere(_) =>
    }
  }

  /** Both snapshots compute the same centre for the same shape. */
  lemma {:induction false} CenterAgrees(c: Collider)
    requires Valid(c)
    ensures C.Valid(ToCollider(c)) && C.Center(ToCollider(c)) == Center(c)
    decreases c
  {
    ToColliderValid(c);
    match c {
      case Convex(_) =>
      case ConvexHull(s) =>
        SubCentersAgree(s);
      case MinkowskiSum(s) =>
        SubCentersAgree(s);
      case Segment(_, _) =>
      case Sphere(_) =>
    }
  }

  lemma {:induction false} SubCentersAgree(s: seq<Collider>)
    requires forall i :: 0 <= i < |s| ==> Valid(s[i])
    ensures forall i :: 0 <= i < |s| ==> C.Valid(ToColliders(s)[i])
    ensures C.SubCenters(ToColliders(s)) == SubCenters(s)
    decreases s
  {
    var t := ToColliders(s);
    forall i | 0 <= i < |s| ensures C.Valid(t[i]) && C.Center(t[i]) == Center(s[i]) {
      ToCollidersIndex(s, i);
      CenterAgrees(s[i]);
    }
    forall i | 0 <= i < |s| ensures C.SubCenters(t)[i] == SubCenters(s)[i] {
      C.SubCentersIndex(t, i);
      SubCentersIndex(s, i);
    }
  }

  /** Along a unit direction both snapshots compute the same support, spheres included. */
  lemma {:induction false} SupportAgreesOnUnit(m: Numerics, c: Collider, d: Vector2)
    requires ExactSqrt(m)
    requires Valid(c) && LengthSquared(d) == 1.0
    ensures C.Valid(ToCollider(c)) && C.Support(m, ToCollider(c), d) == Support(c, d)
    decreases c
  {
    ToColliderValid(c);
    match c {
      case Convex(_) =>
      case ConvexHull(s) =>
        SubSupportsAgree(m, s, d);
      case MinkowskiSum(s) =>
        SubSupportsAgree(m, s, d);
      case Segment(_, _) =>
      case Sphere(_) =>
        NormalizeOfUnit(m, d);
    }
  }

  lemma {:induction false} SubSupportsAgree(m: Numerics, s: seq<Collider>, d: Vector2)
    requires ExactSqrt(m)
    requires (forall i :: 0 <= i < |s| ==> Valid(s[i])) && LengthSquared(d) == 1.0
    ensures forall i :: 0 <= i < |s| ==> C.Valid(ToColliders(s)[i])
    ensures C.SubSupports(m, ToColliders(s), d) == SubSupports(s, d)
    decreases s
  {
    var t := ToColliders(s);
    forall i | 0 <= i < |s| ensures C.Valid(t[i]) && C.Support(m, t[i], d) == Support(s[i], d) {
      ToCollidersIndex(s, i);
      SupportAgreesOnUnit(m, s[i], d);
    }
    forall i | 0 <= i < |s| ensures C.SubSupports(m, t, d)[i] == SubSupports(s, d)[i] {
      C.SubSupportsIndex(m, t, d, i);
      SubSupportsIndex(s, d, i);
    }
  }

  /** A unit vector normalises to itself. */
  lemma NormalizeOfUnit(m: Numerics, d: Vector2)
    requires ExactSqrt(m) && LengthSquared(d) == 1.0
    ensures Normalize(m, d) == d
  {
    SqrtUnique(m, 1.0, 1.0);
    assert Length(m, d) == 1.0;
  }
}
