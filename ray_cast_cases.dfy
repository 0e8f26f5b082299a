// The exact case of the ray-cast unit tests: a point (a sphere of radius 0)
// at the origin moving by (19, 0) into the still segment (10, -10)..(10, 10),
// which it reaches at t = 10/19. Every support point in it is exact, so the
// four iterations of the loop can be followed step by step.

module RayCastCases {
  import opened Vectors
  import opened Transforms
  import C = Colliders
  import opened Queries
  import opened GjkRayCast
  import SV = SignedVolumes

  /**
   * A shape whose support is the origin, as a sphere of radius 0 has, along
   * the directions the loop asks A for: UnitX and the three values of v.
   */
  predicate AtOrigin(a: Shape) {
    && a.support(UnitX) == Zero && a.support(Vector2(10.0, -10.0)) == Zero
    && a.support(Vector2(10.0, 10.0)) == Zero && a.support(Vector2(10.0, 0.0)) == Zero
  }

  /**
   * The segment (0, -10)..(0, 10) placed at (10, 0), along the directions
   * the loop asks B for: its upper end for the one pointing up, else its
   * lower end.
   */
  predicate Upright(b: Shape) {
    && b.support(Vector2(-1.0, 0.0)) == Vector2(10.0, -10.0) && b.support(Vector2(-10.0, 10.0)) == Vector2(10.0, 10.0)
    && b.support(Vector2(-10.0, -10.0)) == Vector2(10.0, -10.0) && b.support(Vector2(-10.0, 0.0)) == Vector2(10.0, -10.0)
  }

  /** The relative motion translationB - translationA. */
  const Ray: Vector2 := Vector2(-19.0, 0.0)

  /** Before the first iteration: v = -(support of A - B along UnitX) = (10, -10) and no points held. */
  predicate Before(s: State) {
    Shaped(s) && s.t == 0.0 && s.x == Zero && s.normal == Zero && s.v == Vector2(10.0, -10.0) && s.pCount == 0
  }

  /** After the first: the offset (10, 10) of the point (-10, -10) held, and v at it. */
  predicate AfterFirst(s: State) {
    && Shaped(s) && s.t == 0.0 && s.x == Zero && s.normal == Zero && s.v == Vector2(10.0, 10.0)
    && s.pCount == 1 && s.p[0] == Vector2(-10.0, -10.0)
  }

  /** After the second: both ends held and v = (10, 0), the foot of the origin on the segment between their offsets. */
  predicate AfterSecond(s: State) {
    && Shaped(s) && s.t == 0.0 && s.x == Zero && s.normal == Zero && s.v == Vector2(10.0, 0.0)
    && s.pCount == 2 && s.p[0] == Vector2(-10.0, -10.0) && s.p[1] == Vector2(-10.0, 10.0)
  }

  /** After the third: t = 10/19, x = (-10, 0) on the segment, the normal (10, 0), and v at the origin. */
  predicate AfterThird(s: State) {
    Shaped(s) && s.t == 10.0 / 19.0 && s.normal == Vector2(10.0, 0.0) && s.v == Zero
  }

  lemma InitialBefore(a: Shape, b: Shape)
    requires AtOrigin(a) && Upright(b)
    ensures Before(Initial(a, b))
  {
    assert a.support(UnitX) == Zero;
    assert b.support(Neg(UnitX)) == Vector2(10.0, -10.0);
  }

  // ---- The branches of an iteration, for any state ----

  /** The termination test fails and v . w <= 0: the iteration refines at the same t. */
  lemma AdvanceInPlace(a: Shape, b: Shape, ray: Vector2, s: State, p: Vector2)
    requires Shaped(s) && LengthSquared(s.v) > ToleranceGjk * MaxOffset(s.x, s.p, s.pCount)
    requires p == Sub(a.support(s.v), b.support(Neg(s.v))) && Dot(s.v, Sub(s.x, p)) <= 0.0
    ensures Advance(a, b, ray, s, AsWritten) == Refine(s, s.t, s.x, s.normal, p, AsWritten)
  {
  }

  /** The termination test fails, v . w > 0 and v . ray < 0, and t stays within 1: x moves to t ray. */
  lemma AdvanceMoves(a: Shape, b: Shape, ray: Vector2, s: State, p: Vector2, vDotW: real, vDotR: real, t: real)
    requires Shaped(s) && LengthSquared(s.v) > ToleranceGjk * MaxOffset(s.x, s.p, s.pCount)
    requires p == Sub(a.support(s.v), b.support(Neg(s.v)))
    requires Dot(s.v, Sub(s.x, p)) == vDotW > 0.0 && Dot(s.v, ray) == vDotR < 0.0
    requires t == s.t - vDotW / vDotR && t <= 1.0
    ensures Advance(a, b, ray, s, AsWritten) == Refine(s, t, Scale(t, ray), s.v, p, AsWritten)
  {
    assert !(LengthSquared(s.v) <= ToleranceGjk * MaxOffset(s.x, s.p, s.pCount));
    assert !(t > 1.0);
  }

  /** A new support point is appended to the refilled buffers. */
  lemma RefineAppends(s: State, t: real, x: Vector2, normal: Vector2, p: Vector2)
    requires Shaped(s) && s.pCount < 3 && p !in s.p[..s.pCount]
    ensures Refine(s, t, x, normal, p, AsWritten)
         == Reduce(State(t, x, normal, s.v, s.p, Offsets(x, s.p, s.pCount, s.xMinusY)[s.pCount := Sub(x, p)],
                         Entries(x, s.p, s.pCount, s.lookup)[s.pCount := Entry(Sub(x, p), p)], s.pCount + 1, s.lambda), AsWritten)
  {
  }

  /** A support point already held leaves the count as it is. */
  lemma RefineHeld(s: State, t: real, x: Vector2, normal: Vector2, p: Vector2)
    requires Shaped(s) && p in s.p[..s.pCount]
    ensures Refine(s, t, x, normal, p, AsWritten)
         == Reduce(State(t, x, normal, s.v, s.p, Offsets(x, s.p, s.pCount, s.xMinusY),
                         Entries(x, s.p, s.pCount, s.lookup), s.pCount, s.lambda), AsWritten)
  {
  }

  /** A single point is kept with weight 1, and v is that point. */
  lemma ReduceOne(f: State)
    requires Shaped(f) && f.pCount == 1
    ensures var n := Reduce(f, AsWritten).state;
            && n.t == f.t && n.x == f.x && n.normal == f.normal && n.pCount == 1 && n.v == f.xMinusY[0]
            && n.p[0] == Found(f.xMinusY[0], f.lookup, 1, f.p[0])
  {
    var red := SV.ReduceSimplex(SV.Simplex(f.xMinusY, f.lambda, 1));
    var l := f.lambda[0 := 1.0];
    assert red == SV.Simplex(f.xMinusY, l, 1);
    assert SV.Weighted(f.xMinusY, l, 1) == Add(SV.Weighted(f.xMinusY, l, 0), Scale(l[0], f.xMinusY[0]));
  }

  /** S1D keeping both points with weights l0 and l1: v is their weighted sum. */
  lemma ReduceTwo(f: State, l0: real, l1: real)
    requires Shaped(f) && f.pCount == 2 && SV.Reduce1(f.xMinusY[0], f.xMinusY[1]) == SV.Two(l0, l1)
    ensures var n := Reduce(f, AsWritten).state;
            && n.t == f.t && n.x == f.x && n.normal == f.normal && n.pCount == 2
            && n.v == Add(Add(Zero, Scale(l0, f.xMinusY[0])), Scale(l1, f.xMinusY[1]))
            && n.p[0] == Found(f.xMinusY[0], f.lookup, 2, f.p[0]) && n.p[1] == Found(f.xMinusY[1], f.lookup, 2, f.p[1])
  {
    var red := SV.ReduceSimplex(SV.Simplex(f.xMinusY, f.lambda, 2));
    var l := f.lambda[0 := l0][1 := l1];
    assert red == SV.Simplex(f.xMinusY, l, 2);
    assert SV.Weighted(f.xMinusY, l, 1) == Add(Zero, Scale(l0, f.xMinusY[0]));
    assert SV.Witness(red) == Add(SV.Weighted(f.xMinusY, l, 1), Scale(l1, f.xMinusY[1]));
  }

  // ---- The numbers of this case ----

  /** The offsets (10, 10), (10, -10) and (0, 10), (0, -10) both have their foot halfway. */
  lemma Halfway(s1: Vector2, s2: Vector2)
    requires (s1 == Vector2(10.0, 10.0) && s2 == Vector2(10.0, -10.0)) || (s1 == Vector2(0.0, 10.0) && s2 == Vector2(0.0, -10.0))
    ensures SV.Reduce1(s1, s2) == SV.Two(0.5, 0.5)
  {
    assert SV.Mu(s1, s2) == 0.5;
  }

  lemma OffsetOne(x: Vector2, p: seq<Vector2>)
    requires x == Zero && |p| == 3 && p[0] == Vector2(-10.0, -10.0)
    ensures MaxOffset(x, p, 1) == 200.0
  {
    assert MaxOffset(x, p, 0) == 0.0;
    assert LengthSquared(Sub(x, p[0])) == 200.0;
  }

  lemma OffsetTwo(x: Vector2, p: seq<Vector2>)
    requires x == Zero && |p| == 3 && p[0] == Vector2(-10.0, -10.0) && p[1] == Vector2(-10.0, 10.0)
    ensures MaxOffset(x, p, 2) == 200.0
  {
    OffsetOne(x, p);
    assert LengthSquared(Sub(x, p[1])) == 200.0;
  }

  lemma HitTime(v: Vector2, w: Vector2, ray: Vector2, t: real)
    requires v == Vector2(10.0, 0.0) && w == Vector2(10.0, -10.0) && ray == Vector2(-19.0, 0.0) && t == 10.0 / 19.0
    ensures Dot(v, w) == 100.0 && Dot(v, ray) == -190.0 && t == 0.0 - 100.0 / -190.0 && Scale(t, ray) == Vector2(-10.0, 0.0)
  {
  }

  // ---- The four iterations ----

  /** The first iteration: the support (-10, -10) along v is new, and DistanceSv keeps it alone. */
  lemma FirstIteration(a: Shape, b: Shape, s: State)
    requires AtOrigin(a) && Upright(b) && Before(s)
    ensures Advance(a, b, Ray, s, AsWritten).Go? && AfterFirst(Advance(a, b, Ray, s, AsWritten).state)
  {
    assert a.support(s.v) == Zero;
    assert b.support(Neg(s.v)) == Vector2(10.0, 10.0);
    var p := Vector2(-10.0, -10.0);
    AdvanceInPlace(a, b, Ray, s, p);
    RefineAppends(s, s.t, s.x, s.normal, p);
    var lookup := Entries(s.x, s.p, 0, s.lookup)[0 := Entry(Sub(s.x, p), p)];
    var f := State(s.t, s.x, s.normal, s.v, s.p, Offsets(s.x, s.p, 0, s.xMinusY)[0 := Sub(s.x, p)], lookup, 1, s.lambda);
    ReduceOne(f);
    assert Found(f.xMinusY[0], lookup, 1, s.p[0]) == p;
  }

  /** In the second iteration v = (10, 10) is perpendicular to the segment, and the support is its other end. */
  lemma SecondInPlace(a: Shape, b: Shape, s: State)
    requires AtOrigin(a) && Upright(b) && AfterFirst(s)
    ensures Advance(a, b, Ray, s, AsWritten) == Refine(s, s.t, s.x, s.normal, Vector2(-10.0, 10.0), AsWritten)
  {
    assert a.support(s.v) == Zero;
    assert b.support(Neg(s.v)) == Vector2(10.0, -10.0);
    OffsetOne(s.x, s.p);
    AdvanceInPlace(a, b, Ray, s, Vector2(-10.0, 10.0));
  }

  /** The second iteration reduces the held (-10, -10) with the new (-10, 10). */
  lemma SecondAdvance(a: Shape, b: Shape, s: State) returns (f: State)
    requires AtOrigin(a) && Upright(b) && AfterFirst(s)
    ensures Shaped(f) && f.pCount == 2 && f.t == 0.0 && f.x == Zero && f.normal == Zero
    ensures Advance(a, b, Ray, s, AsWritten) == Reduce(f, AsWritten)
    ensures f.xMinusY[0] == Vector2(10.0, 10.0) && f.xMinusY[1] == Vector2(10.0, -10.0)
    ensures f.lookup[0] == Entry(Vector2(10.0, 10.0), Vector2(-10.0, -10.0))
    ensures f.lookup[1] == Entry(Vector2(10.0, -10.0), Vector2(-10.0, 10.0))
  {
    SecondInPlace(a, b, s);
    f := Appended(s, Vector2(-10.0, 10.0));
  }

  /** The point (-10, 10) appended beside the held (-10, -10), with x at the origin. */
  lemma Appended(s: State, p: Vector2) returns (f: State)
    requires AfterFirst(s) && p == Vector2(-10.0, 10.0)
    ensures Shaped(f) && f.pCount == 2 && f.t == 0.0 && f.x == Zero && f.normal == Zero
    ensures Refine(s, s.t, s.x, s.normal, p, AsWritten) == Reduce(f, AsWritten)
    ensures f.xMinusY[0] == Vector2(10.0, 10.0) && f.xMinusY[1] == Vector2(10.0, -10.0)
    ensures f.lookup[0] == Entry(Vector2(10.0, 10.0), Vector2(-10.0, -10.0))
    ensures f.lookup[1] == Entry(Vector2(10.0, -10.0), Vector2(-10.0, 10.0))
  {
    assert s.p[..1] == [s.p[0]];
    RefineAppends(s, s.t, s.x, s.normal, p);
    var lookup := Entries(s.x, s.p, 1, s.lookup)[1 := Entry(Sub(s.x, p), p)];
    var xm := Offsets(s.x, s.p, 1, s.xMinusY)[1 := Sub(s.x, p)];
    f := State(s.t, s.x, s.normal, s.v, s.p, xm, lookup, 2, s.lambda);
  }

  /** S1D keeps both ends with weights 1/2, v = (10, 0), and each slot of setP finds its own point. */
  lemma BothEnds(f: State)
    requires Shaped(f) && f.pCount == 2 && f.t == 0.0 && f.x == Zero && f.normal == Zero
    requires f.xMinusY[0] == Vector2(10.0, 10.0) && f.xMinusY[1] == Vector2(10.0, -10.0)
    requires f.lookup[0] == Entry(Vector2(10.0, 10.0), Vector2(-10.0, -10.0))
    requires f.lookup[1] == Entry(Vector2(10.0, -10.0), Vector2(-10.0, 10.0))
    ensures AfterSecond(Reduce(f, AsWritten).state)
  {
    Halfway(f.xMinusY[0], f.xMinusY[1]);
    ReduceTwo(f, 0.5, 0.5);
    assert Found(f.xMinusY[0], f.lookup, 2, f.p[0]) == Vector2(-10.0, -10.0);
    assert Found(f.xMinusY[1], f.lookup, 2, f.p[1]) == Vector2(-10.0, 10.0);
  }

  /** The second iteration: the other end (-10, 10) is new, and S1D keeps both with weights 1/2. */
  lemma SecondIteration(a: Shape, b: Shape, s: State)
    requires AtOrigin(a) && Upright(b) && AfterFirst(s)
    ensures Advance(a, b, Ray, s, AsWritten).Go? && AfterSecond(Advance(a, b, Ray, s, AsWritten).state)
  {
    var f := SecondAdvance(a, b, s);
    BothEnds(f);
  }

  /**
   * The third iteration moves: the support (-10, 10) along v = (10, 0) is
   * held already, v . w = 100 and v . ray = -190, so t = 10/19 and
   * x = (-10, 0).
   */
  lemma ThirdMoves(a: Shape, b: Shape, s: State, t: real, x: Vector2, p: Vector2)
    requires AtOrigin(a) && Upright(b) && AfterSecond(s)
    requires t == 10.0 / 19.0 && x == Vector2(-10.0, 0.0) && p == Vector2(-10.0, 10.0)
    ensures Advance(a, b, Ray, s, AsWritten) == Refine(s, t, x, s.v, p, AsWritten)
  {
    ThirdSupport(a, b, s, p);
    OffsetTwo(s.x, s.p);
    HitTime(s.v, Sub(s.x, p), Ray, t);
    AdvanceMoves(a, b, Ray, s, p, 100.0, -190.0, t);
  }

  lemma ThirdSupport(a: Shape, b: Shape, s: State, p: Vector2)
    requires AtOrigin(a) && Upright(b) && AfterSecond(s) && p == Vector2(-10.0, 10.0)
    ensures p == Sub(a.support(s.v), b.support(Neg(s.v)))
  {
    assert a.support(s.v) == Zero;
    assert b.support(Neg(s.v)) == Vector2(10.0, -10.0);
  }

  /** From x = (-10, 0) the held points are at the offsets (0, 10) and (0, -10). */
  lemma Held(s: State, t: real, x: Vector2, p: Vector2) returns (f: State)
    requires AfterSecond(s) && t == 10.0 / 19.0 && x == Vector2(-10.0, 0.0) && p == Vector2(-10.0, 10.0)
    ensures Shaped(f) && f.pCount == 2 && f.t == 10.0 / 19.0 && f.normal == Vector2(10.0, 0.0)
    ensures Refine(s, t, x, s.v, p, AsWritten) == Reduce(f, AsWritten)
    ensures f.xMinusY[0] == Vector2(0.0, 10.0) && f.xMinusY[1] == Vector2(0.0, -10.0)
  {
    assert s.p[..2][1] == p;
    RefineHeld(s, t, x, s.v, p);
    f := State(t, x, s.v, s.v, s.p, Offsets(x, s.p, 2, s.xMinusY), Entries(x, s.p, 2, s.lookup), 2, s.lambda);
  }

  lemma ThirdAdvance(a: Shape, b: Shape, s: State) returns (f: State)
    requires AtOrigin(a) && Upright(b) && AfterSecond(s)
    ensures Shaped(f) && f.pCount == 2 && f.t == 10.0 / 19.0 && f.normal == Vector2(10.0, 0.0)
    ensures Advance(a, b, Ray, s, AsWritten) == Reduce(f, AsWritten)
    ensures f.xMinusY[0] == Vector2(0.0, 10.0) && f.xMinusY[1] == Vector2(0.0, -10.0)
  {
    ThirdMoves(a, b, s, 10.0 / 19.0, Vector2(-10.0, 0.0), Vector2(-10.0, 10.0));
    f := Held(s, 10.0 / 19.0, Vector2(-10.0, 0.0), Vector2(-10.0, 10.0));
  }

  /** S1D on (0, 10) and (0, -10) keeps both with weights 1/2, so v is the origin. */
  lemma Straddle(f: State)
    requires Shaped(f) && f.pCount == 2 && f.t == 10.0 / 19.0 && f.normal == Vector2(10.0, 0.0)
    requires f.xMinusY[0] == Vector2(0.0, 10.0) && f.xMinusY[1] == Vector2(0.0, -10.0)
    ensures AfterThird(Reduce(f, AsWritten).state)
  {
    Halfway(f.xMinusY[0], f.xMinusY[1]);
    ReduceTwo(f, 0.5, 0.5);
  }

  /** The third iteration: the ray reaches the segment at t = 10/19, and v falls to the origin. */
  lemma ThirdIteration(a: Shape, b: Shape, s: State)
    requires AtOrigin(a) && Upright(b) && AfterSecond(s)
    ensures Advance(a, b, Ray, s, AsWritten).Go? && AfterThird(Advance(a, b, Ray, s, AsWritten).state)
  {
    var f := ThirdAdvance(a, b, s);
    Straddle(f);
  }

  /** An iteration that goes on hands the loop its state for the next one. */
  lemma RunOn(a: Shape, b: Shape, s: State, k: int, n: State)
    requires Shaped(s) && 0 <= k < MaxIterations && Advance(a, b, Ray, s, AsWritten) == Go(n)
    ensures Shaped(n) && Run(a, b, Ray, s, k, AsWritten) == Run(a, b, Ray, n, k + 1, AsWritten)
  {
  }

  /** From the state before the loop, the four iterations end with a hit at t = 10/19 and the normal (10, 0). */
  lemma FourIterations(a: Shape, b: Shape, s0: State)
    requires AtOrigin(a) && Upright(b) && Before(s0)
    ensures Run(a, b, Ray, s0, 0, AsWritten) == Cast(true, 10.0 / 19.0, Vector2(10.0, 0.0))
  {
    FirstIteration(a, b, s0);
    var s1 := Advance(a, b, Ray, s0, AsWritten).state;
    RunOn(a, b, s0, 0, s1);
    SecondIteration(a, b, s1);
    var s2 := Advance(a, b, Ray, s1, AsWritten).state;
    RunOn(a, b, s1, 1, s2);
    ThirdIteration(a, b, s2);
    var s3 := Advance(a, b, Ray, s2, AsWritten).state;
    RunOn(a, b, s2, 2, s3);
    ZeroStops(a, b, Ray, s3, AsWritten);
  }

  /** The sphere of radius 0 without rotation supports at its translation, here the origin. */
  lemma PointPlacedAlong(m: Numerics, sphere: C.Collider, t: ColliderTransform, d: Vector2)
    requires TrigAtZero(m) && sphere == C.Sphere(0.0) && t.translation == Zero && t.rotation == 0.0
    ensures Placed(m, sphere, t).support(d) == Zero
  {
    C.WorldSupportWithoutRotation(m, sphere, t, d);
    C.SpherePoint(m, 0.0, d);
  }

  lemma PointPlaced(m: Numerics, sphere: C.Collider, t: ColliderTransform)
    requires TrigAtZero(m) && sphere == C.Sphere(0.0) && t.translation == Zero && t.rotation == 0.0
    ensures AtOrigin(Placed(m, sphere, t))
  {
    PointPlacedAlong(m, sphere, t, UnitX);
    PointPlacedAlong(m, sphere, t, Vector2(10.0, -10.0));
    PointPlacedAlong(m, sphere, t, Vector2(10.0, 10.0));
    PointPlacedAlong(m, sphere, t, Vector2(10.0, 0.0));
  }

  /** The segment's local support moved to (10, 0): its upper end for directions pointing up, else its lower end. */
  lemma SegmentSupport(m: Numerics, seg: C.Collider, t: ColliderTransform, d: Vector2)
    requires seg == C.Segment(Vector2(0.0, -10.0), Vector2(0.0, 10.0)) && t.translation == Vector2(10.0, 0.0)
    ensures Add(C.Support(m, seg, d), t.translation) == if d.y > 0.0 then Vector2(10.0, 10.0) else Vector2(10.0, -10.0)
  {
    assert Dot(Vector2(0.0, 20.0), d) == 20.0 * d.y;
  }

  /** The segment (0, -10)..(0, 10) moved to (10, 0) without rotation, along any direction. */
  lemma SegmentPlacedAlong(m: Numerics, seg: C.Collider, t: ColliderTransform, d: Vector2)
    requires TrigAtZero(m) && seg == C.Segment(Vector2(0.0, -10.0), Vector2(0.0, 10.0))
    requires t.translation == Vector2(10.0, 0.0) && t.rotation == 0.0
    ensures Placed(m, seg, t).support(d) == if d.y > 0.0 then Vector2(10.0, 10.0) else Vector2(10.0, -10.0)
  {
    C.WorldSupportWithoutRotation(m, seg, t, d);
    SegmentSupport(m, seg, t, d);
  }

  lemma SegmentPlaced(m: Numerics, seg: C.Collider, t: ColliderTransform)
    requires TrigAtZero(m) && seg == C.Segment(Vector2(0.0, -10.0), Vector2(0.0, 10.0))
    requires t.translation == Vector2(10.0, 0.0) && t.rotation == 0.0
    ensures Upright(Placed(m, seg, t))
  {
    SegmentPlacedAlong(m, seg, t, Vector2(-1.0, 0.0));
    SegmentPlacedAlong(m, seg, t, Vector2(-10.0, 10.0));
    SegmentPlacedAlong(m, seg, t, Vector2(-10.0, -10.0));
    SegmentPlacedAlong(m, seg, t, Vector2(-10.0, 0.0));
  }

  /**
   * PrioriCorrectness: the point moving by (19, 0) reaches the segment at
   * exactly t = 10/19, with the normal (10, 0) pointing from the segment
   * back along the motion.
   */
  lemma PrioriCorrectness(m: Numerics)
    requires TrigAtZero(m)
    ensures Continuous(Placed(m, C.Sphere(0.0), CreateTranslationRotation(Zero, 0.0)), Vector2(19.0, 0.0),
                       Placed(m, C.Segment(Vector2(0.0, -10.0), Vector2(0.0, 10.0)), CreateTranslationRotation(Vector2(10.0, 0.0), 0.0)), Zero)
         == Cast(true, 10.0 / 19.0, Vector2(10.0, 0.0))
  {
    var sphere, seg := C.Sphere(0.0), C.Segment(Vector2(0.0, -10.0), Vector2(0.0, 10.0));
    var ta, tb := CreateTranslationRotation(Zero, 0.0), CreateTranslationRotation(Vector2(10.0, 0.0), 0.0);
    SceneHolds(m, sphere, ta, seg, tb);
    HitsPlaced(m, sphere, ta, Vector2(19.0, 0.0), seg, tb, Zero);
  }

  /** Everything the placed scene provides, each part proved on its own first. */
  lemma SceneHolds(m: Numerics, sphere: C.Collider, ta: ColliderTransform, seg: C.Collider, tb: ColliderTransform)
    requires TrigAtZero(m) && sphere == C.Sphere(0.0) && ta.translation == Zero && ta.rotation == 0.0
    requires seg == C.Segment(Vector2(0.0, -10.0), Vector2(0.0, 10.0)) && tb.translation == Vector2(10.0, 0.0) && tb.rotation == 0.0
    ensures C.Valid(sphere) && C.Valid(seg) && AtOrigin(Placed(m, sphere, ta)) && Upright(Placed(m, seg, tb))
  {
    SceneValid(sphere, seg);
    ScenePlaced(m, sphere, ta, seg, tb);
  }

  /** The point and the segment of the test are well-formed colliders. */
  lemma SceneValid(sphere: C.Collider, seg: C.Collider)
    requires sphere == C.Sphere(0.0) && seg == C.Segment(Vector2(0.0, -10.0), Vector2(0.0, 10.0))
    ensures C.Valid(sphere) && C.Valid(seg)
  {
  }

  /** The sphere and the segment of the test, placed, support as the iterations need. */
  lemma ScenePlaced(m: Numerics, sphere: C.Collider, ta: ColliderTransform, seg: C.Collider, tb: ColliderTransform)
    requires TrigAtZero(m) && sphere == C.Sphere(0.0) && ta.translation == Zero && ta.rotation == 0.0
    requires seg == C.Segment(Vector2(0.0, -10.0), Vector2(0.0, 10.0)) && tb.translation == Vector2(10.0, 0.0) && tb.rotation == 0.0
    ensures AtOrigin(Placed(m, sphere, ta)) && Upright(Placed(m, seg, tb))
  {
    PointPlaced(m, sphere, ta);
    SegmentPlaced(m, seg, tb);
  }

  lemma HitsPlaced(m: Numerics, sphere: C.Collider, ta: ColliderTransform, translationA: Vector2,
                   seg: C.Collider, tb: ColliderTransform, translationB: Vector2)
    requires C.Valid(sphere) && C.Valid(seg)
    requires AtOrigin(Placed(m, sphere, ta)) && Upright(Placed(m, seg, tb))
    requires translationA == Vector2(19.0, 0.0) && translationB == Zero
    ensures Continuous(Placed(m, sphere, ta), translationA, Placed(m, seg, tb), translationB) == Cast(true, 10.0 / 19.0, Vector2(10.0, 0.0))
  {
    Hits(Placed(m, sphere, ta), translationA, Placed(m, seg, tb), translationB);
  }

  /** Any shape supporting at the origin, moved by (19, 0), against any shape supporting like the segment. */
  lemma Hits(a: Shape, translationA: Vector2, b: Shape, translationB: Vector2)
    requires AtOrigin(a) && Upright(b) && translationA == Vector2(19.0, 0.0) && translationB == Zero
    ensures Continuous(a, translationA, b, translationB) == Cast(true, 10.0 / 19.0, Vector2(10.0, 0.0))
  {
    assert Sub(translationB, translationA) == Ray;
    InitialBefore(a, b);
    FourIterations(a, b, Initial(a, b));
  }
}
