// The collider classes derived from the abstract Collider: convex polygon,
// convex hull, Minkowski sum, segment and sphere, each a Center() and a
// Support(direction) in object coordinates, and the WorldCenter and
// WorldSupport lifts into world coordinates. Every collider is immutable, so
// the class hierarchy is one closed datatype; the loops of Center and Support
// are methods proved equal to the specification functions Center and Support.

module Colliders {
  import opened Vectors
  import opened Transforms
  import opened SupportMath

  datatype Collider =
    | Convex(vertices: seq<Vector2>)
    | ConvexHull(shapes: seq<Collider>)
    | MinkowskiSum(shapes: seq<Collider>)
    | Segment(a: Vector2, b: Vector2)
    | Sphere(radius: real)

  /** Every array that a loop starts by reading at index 0 is non-empty, at every level. */
  predicate Valid(c: Collider)
    decreases c
  {
    match c
    case Convex(v) => |v| > 0
    case ConvexHull(s) => |s| > 0 && forall i :: 0 <= i < |s| ==> Valid(s[i])
    case MinkowskiSum(s) => |s| > 0 && forall i :: 0 <= i < |s| ==> Valid(s[i])
    case Segment(_, _) => true
    case Sphere(_) => true
  }

  /** Every sphere in the collider has a non-negative radius. */
  predicate RadiiNonNegative(c: Collider)
    decreases c
  {
    match c
    case Convex(_) => true
    case ConvexHull(s) => forall i :: 0 <= i < |s| ==> RadiiNonNegative(s[i])
    case MinkowskiSum(s) => forall i :: 0 <= i < |s| ==> RadiiNonNegative(s[i])
    case Segment(_, _) => true
    case Sphere(r) => r >= 0.0
  }

  function Midpoint(a: Vector2, b: Vector2): Vector2 {
    Vector2((a.x + b.x) / 2.0, (a.y + b.y) / 2.0)
  }

  /** The geometry centre in object coordinates. */
  function Center(c: Collider): Vector2
    requires Valid(c)
    decreases c
  {
    match c
    case Convex(v) => Mean(v)
    case ConvexHull(s) => Mean(SubCenters(s))
    case MinkowskiSum(s) => Sum(SubCenters(s))
    case Segment(a, b) => Midpoint(a, b)
    case Sphere(_) => Zero
  }

  /** The sub-shapes' centres, in order. */
  function SubCenters(s: seq<Collider>): (r: seq<Vector2>)
    requires forall i :: 0 <= i < |s| ==> Valid(s[i])
    ensures |r| == |s|
    decreases s
  {
    if |s| == 0 then [] else SubCenters(s[..|s| - 1]) + [Center(s[|s| - 1])]
  }

  /** The i-th entry of SubCenters is the i-th shape's centre. */
  lemma {:induction false} SubCentersIndex(s: seq<Collider>, i: int)
    requires forall j :: 0 <= j < |s| ==> Valid(s[j])
    requires 0 <= i < |s|
    ensures SubCenters(s)[i] == Center(s[i])
  {
    if i < |s| - 1 {
      SubCentersIndex(s[..|s| - 1], i);
    }
  }

  /** The support point in direction d, in object coordinates. */
  function Support(m: Numerics, c: Collider, d: Vector2): Vector2
    requires Valid(c)
    decreases c
  {
    match c
    case Convex(v) => MaxAlong(d, v)
    case ConvexHull(s) => MaxAlong(d, SubSupports(m, s, d))
    case MinkowskiSum(s) => Sum(SubSupports(m, s, d))
    case Segment(a, b) => if Dot(Sub(b, a), d) > 0.0 then b else a
    case Sphere(r) => Scale(r, Normalize(m, d))
  }

  /** The sub-shapes' supports in direction d, in order. */
  function SubSupports(m: Numerics, s: seq<Collider>, d: Vector2): (r: seq<Vector2>)
    requires forall i :: 0 <= i < |s| ==> Valid(s[i])
    ensures |r| == |s|
    decreases s
  {
    if |s| == 0 then [] else SubSupports(m, s[..|s| - 1], d) + [Support(m, s[|s| - 1], d)]
  }

  /** The i-th entry of SubSupports is the i-th shape's support. */
  lemma {:induction false} SubSupportsIndex(m: Numerics, s: seq<Collider>, d: Vector2, i: int)
    requires forall j :: 0 <= j < |s| ==> Valid(s[j])
    requires 0 <= i < |s|
    ensures SubSupports(m, s, d)[i] == Support(m, s[i], d)
  {
    if i < |s| - 1 {
      SubSupportsIndex(m, s[..|s| - 1], d, i);
    }
  }

  // ---- The loops of the source, proved against Center and Support ----

  /** Center(): the polygon's and the sub-shapes' loops, the segment's midpoint, the sphere's origin. */
  method ComputeCenter(c: Collider) returns (r: Vector2)
    requires Valid(c)
    ensures r == Center(c)
    decreases c
  {
    match c {
      case Convex(v) =>
        r := VertexMean(v);
      case ConvexHull(s) =>
        var center := CenterSum(s);
        r := Vector2(center.x / (|s| as real), center.y / (|s| as real));
      case MinkowskiSum(s) =>
        r := CenterSum(s);
      case Segment(a, b) =>
        r := Vector2((a.x + b.x) / 2.0, (a.y + b.y) / 2.0);
      case Sphere(_) =>
        r := Zero;
    }
  }

  /** The polygon's Center(): the vertices summed from the first on, divided by their count. */
  method VertexMean(v: seq<Vector2>) returns (r: Vector2)
    requires |v| > 0
    ensures r == Mean(v)
  {
    var center := v[0];
    var i := 1;
    assert v[..1] == [v[0]];
    SumSingleton(v[0]);
    while i < |v|
      invariant 1 <= i <= |v|
      invariant center == Sum(v[..i])
    {
      assert v[..i + 1] == v[..i] + [v[i]];
      SumAppend(v[..i], v[i]);
      center := Add(center, v[i]);
      i := i + 1;
    }
    assert v[..|v|] == v;
    r := Vector2(center.x / (|v| as real), center.y / (|v| as real));
  }

  /** The summing loop of the hull's and the sum's Center(). */
  method CenterSum(s: seq<Collider>) returns (r: Vector2)
    requires |s| > 0 && forall i :: 0 <= i < |s| ==> Valid(s[i])
    ensures r == Sum(SubCenters(s))
    decreases s
  {
    var center := ComputeCenter(s[0]);
    var i := 1;
    assert SubCenters(s[..1]) == [center] by {
      assert |SubCenters(s[..1][..0])| == 0;
    }
    SumSingleton(center);
    while i < |s|
      invariant 1 <= i <= |s|
      invariant center == Sum(SubCenters(s[..i]))
    {
      var next := ComputeCenter(s[i]);
      assert s[..i + 1][..i] == s[..i];
      SumAppend(SubCenters(s[..i]), next);
      center := Add(center, next);
      i := i + 1;
    }
    assert s[..|s|] == s;
    r := center;
  }

  /** Support(direction): the strict-maximum loops, the summing loop and the two closed forms. */
  method ComputeSupport(m: Numerics, c: Collider, d: Vector2) returns (r: Vector2)
    requires Valid(c)
    ensures r == Support(m, c, d)
    decreases c
  {
    match c {
      case Convex(v) =>
        r := VertexSupport(v, d);
      case ConvexHull(s) =>
        r := HullSupport(m, s, d);
      case MinkowskiSum(s) =>
        r := SumSupport(m, s, d);
      case Segment(a, b) =>
        r := if Dot(Sub(b, a), d) > 0.0 then b else a;
      case Sphere(radius) =>
        r := Scale(radius, Normalize(m, d));
    }
  }

  /** The polygon's Support: the first vertex, replaced by any later one strictly farther along d. */
  method VertexSupport(v: seq<Vector2>, d: Vector2) returns (r: Vector2)
    requires |v| > 0
    ensures r == MaxAlong(d, v)
  {
    var max := v[0];
    var i := 1;
    while i < |v|
      invariant 1 <= i <= |v|
      invariant max == MaxAlong(d, v[..i])
    {
      assert v[..i + 1] == v[..i] + [v[i]];
      MaxAlongAppend(d, v[..i], v[i]);
      var support := v[i];
      if Dot(d, Sub(support, max)) > 0.0 {
        max := support;
      }
      i := i + 1;
    }
    assert v[..|v|] == v;
    r := max;
  }

  /** The hull's Support: the same loop over the sub-shapes' supports. */
  method HullSupport(m: Numerics, s: seq<Collider>, d: Vector2) returns (r: Vector2)
    requires |s| > 0 && forall i :: 0 <= i < |s| ==> Valid(s[i])
    ensures r == MaxAlong(d, SubSupports(m, s, d))
    decreases s
  {
    var max := ComputeSupport(m, s[0], d);
    var i := 1;
    assert SubSupports(m, s[..1], d) == [max] by {
      assert |SubSupports(m, s[..1][..0], d)| == 0;
    }
    while i < |s|
      invariant 1 <= i <= |s|
      invariant max == MaxAlong(d, SubSupports(m, s[..i], d))
    {
      var support := ComputeSupport(m, s[i], d);
      assert s[..i + 1][..i] == s[..i];
      MaxAlongAppend(d, SubSupports(m, s[..i], d), support);
      if Dot(d, Sub(support, max)) > 0.0 {
        max := support;
      }
      i := i + 1;
    }
    assert s[..|s|] == s;
    r := max;
  }

  /** The sum's Support: the sub-shapes' supports added up. */
  method SumSupport(m: Numerics, s: seq<Collider>, d: Vector2) returns (r: Vector2)
    requires |s| > 0 && forall i :: 0 <= i < |s| ==> Valid(s[i])
    ensures r == Sum(SubSupports(m, s, d))
    decreases s
  {
    var support := ComputeSupport(m, s[0], d);
    var i := 1;
    assert SubSupports(m, s[..1], d) == [support] by {
      assert |SubSupports(m, s[..1][..0], d)| == 0;
    }
    SumSingleton(support);
    while i < |s|
      invariant 1 <= i <= |s|
      invariant support == Sum(SubSupports(m, s[..i], d))
    {
      var next := ComputeSupport(m, s[i], d);
      assert s[..i + 1][..i] == s[..i];
      SumAppend(SubSupports(m, s[..i], d), next);
      support := Add(support, next);
      i := i + 1;
    }
    assert s[..|s|] == s;
    r := support;
  }

  // ---- World coordinates ----

  /** A point of the collider's object space placed in the world by t: rotated, then translated. */
  function ToWorld(m: Numerics, t: ColliderTransform, p: Vector2): Vector2 {
    Place(m, t.rotation, t.translation, p)
  }

  /** WorldCenter: the centre placed in the world. */
  function WorldCenter(m: Numerics, c: Collider, t: ColliderTransform): Vector2
    requires Valid(c)
  {
    ToWorld(m, t, Center(c))
  }

  /** The world direction turned into object coordinates by the inverted rotation. */
  function LocalDirection(m: Numerics, t: ColliderTransform, d: Vector2): Vector2 {
    Unrotate(m, t.rotation, d)
  }

  /** WorldSupport: the local support of the un-rotated direction, placed in the world. */
  function WorldSupport(m: Numerics, c: Collider, t: ColliderTransform, d: Vector2): Vector2
    requires Valid(c)
  {
    ToWorld(m, t, Support(m, c, LocalDirection(m, t, d)))
  }

  // ---- Properties of the convex polygon ----

  /** The polygon's support is the earliest vertex farthest along d. */
  lemma ConvexSupportEarliest(m: Numerics, v: seq<Vector2>, d: Vector2)
    requires |v| > 0
    ensures exists k :: EarliestMax(d, v, k) && Support(m, Convex(v), d) == v[k]
  {
    MaxAlongEarliest(d, v);
  }

  // ---- Properties of the convex hull ----

  /** The hull's support is the support of its earliest sub-shape farthest along d. */
  lemma HullSupportEarliest(m: Numerics, s: seq<Collider>, d: Vector2)
    requires Valid(ConvexHull(s))
    ensures exists k :: EarliestMax(d, SubSupports(m, s, d), k)
                     && Support(m, ConvexHull(s), d) == Support(m, s[k], d)
  {
    var subs := SubSupports(m, s, d);
    MaxAlongEarliest(d, subs);
    var k :| EarliestMax(d, subs, k) && MaxAlong(d, subs) == subs[k];
    SubSupportsIndex(m, s, d, k);
  }

  /** A hull of one shape behaves exactly like that shape. */
  lemma HullOfOne(m: Numerics, c: Collider, d: Vector2)
    requires Valid(c)
    ensures Valid(ConvexHull([c]))
    ensures Support(m, ConvexHull([c]), d) == Support(m, c, d)
    ensures Center(ConvexHull([c])) == Center(c)
  {
    assert SubCenters([c]) == [Center(c)];
    assert SubSupports(m, [c], d) == [Support(m, c, d)];
    SumSingleton(Center(c));
  }

  // ---- Properties of the Minkowski sum ----

  /** dot(d, Support(d)) is the sum over the sub-shapes of dot(d, their support). */
  lemma SumSupportDot(m: Numerics, s: seq<Collider>, d: Vector2)
    requires Valid(MinkowskiSum(s))
    ensures Dot(d, Support(m, MinkowskiSum(s), d)) == SumOfDots(d, SubSupports(m, s, d))
  {
    DotSum(d, SubSupports(m, s, d));
  }

  /**
   * If the points q[i] are each no farther along d than the support of the
   * i-th sub-shape, then their sum is no farther than the sum's support.
   */
  lemma SumSupportMaximal(m: Numerics, s: seq<Collider>, d: Vector2, q: seq<Vector2>)
    requires Valid(MinkowskiSum(s))
    requires |q| == |s|
    requires forall i :: 0 <= i < |s| ==> Dot(d, q[i]) <= Dot(d, Support(m, s[i], d))
    ensures Dot(d, Sum(q)) <= Dot(d, Support(m, MinkowskiSum(s), d))
  {
    var subs := SubSupports(m, s, d);
    forall i | 0 <= i < |s| ensures Dot(d, q[i]) <= Dot(d, subs[i]) {
      SubSupportsIndex(m, s, d, i);
    }
    SumMaximal(d, subs, q);
  }

  /** A sum of one shape is that shape. */
  lemma SumOfOne(m: Numerics, c: Collider, d: Vector2)
    requires Valid(c)
    ensures Valid(MinkowskiSum([c]))
    ensures Support(m, MinkowskiSum([c]), d) == Support(m, c, d)
    ensures Center(MinkowskiSum([c])) == Center(c)
  {
    assert SubCenters([c]) == [Center(c)];
    assert SubSupports(m, [c], d) == [Support(m, c, d)];
    SumSingleton(Center(c));
    SumSingleton(Support(m, c, d));
  }

  // ---- Properties of the segment ----

  /** The segment's support is an endpoint at least as far along d as both. */
  lemma SegmentSupportMaximal(m: Numerics, a: Vector2, b: Vector2, d: Vector2)
    ensures Dot(d, a) <= Dot(d, Support(m, Segment(a, b), d))
    ensures Dot(d, b) <= Dot(d, Support(m, Segment(a, b), d))
    ensures Support(m, Segment(a, b), d) == b <==> Dot(d, b) > Dot(d, a) || (a == b)
  {
    DotSub(d, b, a);
    DotSymmetric(Sub(b, a), d);
  }

  /** A direction perpendicular to the segment selects a. */
  lemma SegmentPerpendicular(m: Numerics, a: Vector2, b: Vector2, d: Vector2)
    requires Dot(Sub(b, a), d) == 0.0
    ensures Support(m, Segment(a, b), d) == a
  {
  }

  /** The segment's centre is its midpoint: equally far from both ends. */
  lemma SegmentCenterMidpoint(a: Vector2, b: Vector2)
    ensures Sub(Center(Segment(a, b)), a) == Sub(b, Center(Segment(a, b)))
    ensures Add(Center(Segment(a, b)), Center(Segment(a, b))) == Add(a, b)
  {
  }

  // ---- Properties of the sphere ----

  /** dot(d, Support(d)) is radius * |d|: the support lies radius ahead of the centre along d. */
  lemma SphereSupportDot(m: Numerics, radius: real, d: Vector2)
    requires ExactSqrt(m)
    ensures Dot(d, Support(m, Sphere(radius), d)) == radius * Length(m, d)
  {
    var n := Normalize(m, d);
    DotScale(d, radius, n);
    if d != Zero {
      NormalizeUnit(m, d);
    } else {
      LengthProperties(m, d);
      assert Dot(d, n) == 0.0;
    }
  }

  /** With a non-negative radius the support point is never behind the origin along d. */
  lemma SphereSupportAhead(m: Numerics, radius: real, d: Vector2)
    requires ExactSqrt(m) && radius >= 0.0
    ensures Dot(d, Support(m, Sphere(radius), d)) >= 0.0
  {
    SphereSupportDot(m, radius, d);
    LengthProperties(m, d);
    ProductNonNegative(radius, Length(m, d));
  }

  /** The sphere is centred at the origin, and radius 0 is the point collider at the origin. */
  lemma SpherePoint(m: Numerics, radius: real, d: Vector2)
    requires radius == 0.0
    ensures Support(m, Sphere(radius), d) == Zero
    ensures Center(Sphere(radius)) == Zero
  {
  }

  /** Scaling the direction by k > 0 does not move the sphere's support. */
  lemma SphereScaleInvariant(m: Numerics, radius: real, k: real, d: Vector2)
    requires ExactSqrt(m) && k > 0.0
    ensures Support(m, Sphere(radius), Scale(k, d)) == Support(m, Sphere(radius), d)
  {
    NormalizeScale(m, k, d);
  }

  // ---- The centre lies inside the shape ----

  /**
   * Along any direction the centre is no farther than the support point: the
   * centre is inside every supporting half-plane, hence inside the shape.
   */
  lemma {:induction false} CenterWithinSupport(m: Numerics, c: Collider, d: Vector2)
    requires ExactSqrt(m)
    requires Valid(c) && RadiiNonNegative(c)
    ensures Dot(d, Center(c)) <= Dot(d, Support(m, c, d))
    decreases c
  {
    match c {
      case Convex(v) =>
        forall i | 0 <= i < |v| ensures Dot(d, v[i]) <= Dot(d, MaxAlong(d, v)) {
          MaxAlongMaximal(d, v, i);
        }
        MeanBoundedByMax(d, v, Dot(d, MaxAlong(d, v)));
      case ConvexHull(s) =>
        var centers := SubCenters(s);
        var subs := SubSupports(m, s, d);
        var top := Dot(d, MaxAlong(d, subs));
        forall i | 0 <= i < |s| ensures Dot(d, centers[i]) <= top {
          SubCentersIndex(s, i);
          SubSupportsIndex(m, s, d, i);
          CenterWithinSupport(m, s[i], d);
          MaxAlongMaximal(d, subs, i);
        }
        MeanBoundedByMax(d, centers, top);
      case MinkowskiSum(s) =>
        var centers := SubCenters(s);
        var subs := SubSupports(m, s, d);
        forall i | 0 <= i < |s| ensures Dot(d, centers[i]) <= Dot(d, subs[i]) {
          SubCentersIndex(s, i);
          SubSupportsIndex(m, s, d, i);
          CenterWithinSupport(m, s[i], d);
        }
        SumMaximal(d, subs, centers);
      case Segment(a, b) =>
        SegmentSupportMaximal(m, a, b, d);
        assert Dot(d, Midpoint(a, b)) == (Dot(d, a) + Dot(d, b)) / 2.0;
      case Sphere(r) =>
        SphereSupportAhead(m, r, d);
    }
  }

  // ---- Properties of the world lift ----

  /** Shifting the translation by c shifts the world support and centre by exactly c. */
  lemma WorldTranslationShift(m: Numerics, col: Collider, t: ColliderTransform, c: Vector2, d: Vector2)
    requires Valid(col)
    ensures WorldSupport(m, col, t.(translation := Add(t.translation, c)), d) == Add(WorldSupport(m, col, t, d), c)
    ensures WorldCenter(m, col, t.(translation := Add(t.translation, c))) == Add(WorldCenter(m, col, t), c)
  {
    PlaceTranslationShift(m, t.rotation, t.translation, c, Support(m, col, LocalDirection(m, t, d)));
    PlaceTranslationShift(m, t.rotation, t.translation, c, Center(col));
  }

  /** Without rotation the world support is the local support translated. */
  lemma WorldSupportWithoutRotation(m: Numerics, col: Collider, t: ColliderTransform, d: Vector2)
    requires TrigAtZero(m) && Valid(col)
    requires t.rotation == 0.0
    ensures WorldSupport(m, col, t, d) == Add(Support(m, col, d), t.translation)
  {
    UnrotateWithoutRotation(m, t.rotation, d);
    PlaceWithoutRotation(m, t.rotation, t.translation, Support(m, col, d));
  }

  /** Without rotation the world centre is the local centre translated. */
  lemma WorldCenterWithoutRotation(m: Numerics, col: Collider, t: ColliderTransform)
    requires TrigAtZero(m) && Valid(col)
    requires t.rotation == 0.0
    ensures WorldCenter(m, col, t) == Add(Center(col), t.translation)
  {
    PlaceWithoutRotation(m, t.rotation, t.translation, Center(col));
  }

  /**
   * If the local support is farthest among local points q along the local
   * direction, the world support is farthest among the placed points along d.
   */
  lemma WorldSupportMaximal(m: Numerics, col: Collider, t: ColliderTransform, d: Vector2, q: Vector2)
    requires ExactTrig(m) && Valid(col)
    requires Dot(LocalDirection(m, t, d), q) <= Dot(LocalDirection(m, t, d), Support(m, col, LocalDirection(m, t, d)))
    ensures Dot(d, ToWorld(m, t, q)) <= Dot(d, WorldSupport(m, col, t, d))
  {
    PlacedMaximal(m, t.rotation, t.translation, d, q, Support(m, col, LocalDirection(m, t, d)));
  }

  /** In world coordinates too, the centre is inside the shape along every direction. */
  lemma WorldCenterWithinSupport(m: Numerics, col: Collider, t: ColliderTransform, d: Vector2)
    requires Exact(m) && Valid(col) && RadiiNonNegative(col)
    ensures Dot(d, WorldCenter(m, col, t)) <= Dot(d, WorldSupport(m, col, t, d))
  {
    var ln := LocalDirection(m, t, d);
    CenterWithinSupport(m, col, ln);
    WorldSupportMaximal(m, col, t, d, Center(col));
  }
}
