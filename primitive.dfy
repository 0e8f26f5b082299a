// The older primitive shapes: a point, a sphere of radius Rx or a segment of
// half-length Rx along its local X axis, each with its own rotation and
// translation. A primitive is immutable, so it is a datatype.

module Primitives {
  import opened Vectors
  import opened Transforms

  datatype PrimitiveType = Point | Sphere | Segment

  /** Ry is stored but no operation reads it. */
  datatype Primitive = Primitive(kind: PrimitiveType, rx: real, ry: real, rotation: real, translation: Vector2)

  /** The constructor's optional arguments: rotation 0 and the origin. */
  function Create(kind: PrimitiveType, rx: real, ry: real): (p: Primitive)
    ensures p.kind == kind && p.rx == rx && p.ry == ry
    ensures p.rotation == 0.0 && p.translation == Zero
  {
    Primitive(kind, rx, ry, 0.0, Zero)
  }

  /** GetCenterLegacy: a switch on the type; every type is centred at its translation. */
  function GetCenterLegacy(p: Primitive): Vector2 {
    match p.kind
    case Sphere => p.translation
    case Segment => p.translation
    case Point => p.translation
  }

  function Center(p: Primitive): Vector2 {
    p.translation
  }

  /** The support of the shape in its own space, where it is centred at the origin. */
  function SupportLocal(p: Primitive, n: Vector2): Vector2 {
    match p.kind
    case Sphere => Scale(p.rx, n)
    case Segment => Vector2((Sign(n.x) as real) * p.rx, 0.0)
    case Point => Zero
  }

  /** Support: the direction un-rotated, the local support taken, the result placed in the world. */
  function Support(m: Numerics, p: Primitive, n: Vector2): Vector2 {
    Place(m, p.rotation, p.translation, SupportLocal(p, Unrotate(m, p.rotation, n)))
  }

  /** Both centre functions give the translation, for every type. */
  lemma CenterIsTranslation(p: Primitive)
    ensures GetCenterLegacy(p) == Center(p) == p.translation
  {
  }

  /** The local sphere support lies radius * |n|^2 along n. */
  lemma SphereSupportLocal(p: Primitive, n: Vector2)
    requires p.kind == Sphere
    ensures Dot(n, SupportLocal(p, n)) == p.rx * LengthSquared(n)
  {
    DotScaleSelf(p.rx, n);
  }

  /**
   * The local segment support is the end of the segment (-rx, 0)..(rx, 0)
   * on the side n points to, and the origin when n is perpendicular to it.
   */
  lemma SegmentSupportLocal(p: Primitive, n: Vector2)
    requires p.kind == Segment && p.rx >= 0.0
    ensures Dot(n, Vector2(p.rx, 0.0)) <= Dot(n, SupportLocal(p, n))
    ensures Dot(n, Vector2(-p.rx, 0.0)) <= Dot(n, SupportLocal(p, n))
    ensures n.x == 0.0 ==> SupportLocal(p, n) == Zero
    ensures n.x > 0.0 ==> SupportLocal(p, n) == Vector2(p.rx, 0.0)
    ensures n.x < 0.0 ==> SupportLocal(p, n) == Vector2(-p.rx, 0.0)
  {
    var r := p.rx;
    if n.x > 0.0 {
      assert n.x * -r <= n.x * r by { ProductNonNegative(n.x, r); }
    } else if n.x < 0.0 {
      assert n.x * r <= n.x * -r by { ProductNonNegative(-n.x, r); }
    }
  }

  /** With a non-negative Rx the local support is never behind the local centre, the origin. */
  lemma SupportLocalAhead(p: Primitive, n: Vector2)
    requires p.rx >= 0.0
    ensures Dot(n, SupportLocal(p, n)) >= 0.0
  {
    match p.kind {
      case Sphere => SphereAhead(p, n);
      case Segment => SegmentAhead(p, n);
      case Point =>
    }
  }

  lemma SphereAhead(p: Primitive, n: Vector2)
    requires p.kind == Sphere && p.rx >= 0.0
    ensures Dot(n, SupportLocal(p, n)) >= 0.0
  {
    DotScaleSelfNonNegative(p.rx, n);
  }

  lemma SegmentAhead(p: Primitive, n: Vector2)
    requires p.kind == Segment && p.rx >= 0.0
    ensures Dot(n, SupportLocal(p, n)) >= 0.0
  {
    var r := p.rx;
    if n.x > 0.0 {
      assert SupportLocal(p, n) == Vector2(r, 0.0);
      assert Dot(n, Vector2(r, 0.0)) == n.x * r;
      ProductNonNegative(n.x, r);
    } else if n.x < 0.0 {
      assert SupportLocal(p, n) == Vector2(-r, 0.0);
      assert Dot(n, Vector2(-r, 0.0)) == (-n.x) * r;
      ProductNonNegative(-n.x, r);
    } else {
      assert SupportLocal(p, n) == Zero;
    }
  }

  /** The origin of the local space is placed at the translation, whatever the rotation. */
  lemma PlaceOrigin(m: Numerics, p: Primitive)
    ensures Place(m, p.rotation, p.translation, Zero) == p.translation
  {
  }

  /** A point primitive supports at its translation in every direction and under every rotation. */
  lemma PointSupport(m: Numerics, p: Primitive, n: Vector2)
    requires p.kind == Point
    ensures Support(m, p, n) == p.translation
  {
    PlaceOrigin(m, p);
  }

  /** Without rotation the support is the local support translated. */
  lemma SupportWithoutRotation(m: Numerics, p: Primitive, n: Vector2)
    requires TrigAtZero(m) && p.rotation == 0.0
    ensures Support(m, p, n) == Add(SupportLocal(p, n), p.translation)
  {
    UnrotateWithoutRotation(m, p.rotation, n);
    PlaceWithoutRotation(m, p.rotation, p.translation, SupportLocal(p, n));
  }

  /** Along every direction the centre is no farther than the support point. */
  lemma CenterWithinSupport(m: Numerics, p: Primitive, n: Vector2)
    requires ExactTrig(m) && p.rx >= 0.0
    ensures Dot(n, Center(p)) <= Dot(n, Support(m, p, n))
  {
    var ln := Unrotate(m, p.rotation, n);
    SupportLocalAhead(p, ln);
    assert Dot(ln, Zero) == 0.0;
    PlacedMaximal(m, p.rotation, p.translation, n, Zero, SupportLocal(p, ln));
    PlaceOrigin(m, p);
  }

  /** If the local support is farthest along the un-rotated direction among local points q, the support is farthest among the placed q. */
  lemma SupportMaximal(m: Numerics, p: Primitive, n: Vector2, q: Vector2)
    requires ExactTrig(m)
    requires Dot(Unrotate(m, p.rotation, n), q) <= Dot(Unrotate(m, p.rotation, n), SupportLocal(p, Unrotate(m, p.rotation, n)))
    ensures Dot(n, Place(m, p.rotation, p.translation, q)) <= Dot(n, Support(m, p, n))
  {
    PlacedMaximal(m, p.rotation, p.translation, n, q, SupportLocal(p, Unrotate(m, p.rotation, n)));
  }

  // ---- Spans of primitives ----

  /** The primitives' centres, in order. */
  function Centers(ps: seq<Primitive>): (r: seq<Vector2>)
    ensures |r| == |ps| && forall i :: 0 <= i < |ps| ==> r[i] == Center(ps[i])
  {
    seq(|ps|, i requires 0 <= i < |ps| => Center(ps[i]))
  }

  /** The primitives' supports in direction n, in order. */
  function Supports(m: Numerics, ps: seq<Primitive>, n: Vector2): (r: seq<Vector2>)
    ensures |r| == |ps| && forall i :: 0 <= i < |ps| ==> r[i] == Support(m, ps[i], n)
  {
    seq(|ps|, i requires 0 <= i < |ps| => Support(m, ps[i], n))
  }

  /** Every primitive of the span has a non-negative Rx. */
  predicate RadiiNonNegative(ps: seq<Primitive>) {
    forall i :: 0 <= i < |ps| ==> ps[i].rx >= 0.0
  }
}
