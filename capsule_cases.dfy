// The cases of the broad-phase unit test (Test/BroadPhase.cs) for the swept
// capsule routine, over exact reals. Each case names its end points through
// parameters fixed by its requires, and each scalar fact of a case is a
// lemma of its own, so that the routine is unfolded symbolically and only
// the scalar products are evaluated.

module CapsuleCases {
  import opened Vectors
  import opened SweptCapsule

  /** When the branches land on the parameters s and t, the routine returns the squared gap between the two points there. */
  lemma DistanceAtParameters(p1: Vector2, q1: Vector2, p2: Vector2, q2: Vector2, s: real, t: real, u: Vector2, w: Vector2)
    requires Solve(TermsOf(p1, q1, p2, q2)) == Parameters(s, t)
    requires u == At(p1, Sub(q1, p1), s) && w == At(p2, Sub(q2, p2), t)
    ensures DistanceSquaredSegmentSegment(p1, q1, p2, q2) == LengthSquared(Sub(u, w))
  {
  }

  /** When the branches land on both starts in both orders, the routine returns the squared distance of the starts in both. */
  lemma DistanceAtStarts(p1: Vector2, q1: Vector2, p2: Vector2, q2: Vector2)
    requires Solve(TermsOf(p1, q1, p2, q2)) == Parameters(0.0, 0.0)
    requires Solve(TermsOf(p2, q2, p1, q1)) == Parameters(0.0, 0.0)
    ensures DistanceSquaredSegmentSegment(p1, q1, p2, q2) == LengthSquared(Sub(p1, p2))
    ensures DistanceSquaredSegmentSegment(p2, q2, p1, q1) == LengthSquared(Sub(p1, p2))
  {
    DistanceAtParameters(p1, q1, p2, q2, 0.0, 0.0, p1, p2);
    DistanceAtParameters(p2, q2, p1, q1, 0.0, 0.0, p2, p1);
    assert Sub(p2, p1) == Neg(Sub(p1, p2));
    LengthSquaredNeg(Sub(p1, p2));
  }

  lemma NearTerms(p1: Vector2, q1: Vector2, p2: Vector2, q2: Vector2)
    requires p1 == Vector2(3.0, 4.0) && q1 == Vector2(6.0, 8.0) && p2 == Vector2(2.0, 3.9) && q2 == Vector2(-2.0, -4.0)
    ensures TermsOf(p1, q1, p2, q2) == Terms(25.0, -43.6, 3.4, 78.41, -4.79)
  {
    assert Sub(q1, p1) == Vector2(3.0, 4.0);
    assert Sub(q2, p2) == Vector2(-4.0, -7.9);
    assert Sub(p1, p2) == Vector2(1.0, 0.1);
  }

  lemma NearTermsSwapped(p1: Vector2, q1: Vector2, p2: Vector2, q2: Vector2)
    requires p1 == Vector2(3.0, 4.0) && q1 == Vector2(6.0, 8.0) && p2 == Vector2(2.0, 3.9) && q2 == Vector2(-2.0, -4.0)
    ensures TermsOf(p2, q2, p1, q1) == Terms(78.41, -43.6, 4.79, 25.0, -3.4)
  {
    assert Sub(q2, p2) == Vector2(-4.0, -7.9);
    assert Sub(q1, p1) == Vector2(3.0, 4.0);
    assert Sub(p2, p1) == Vector2(-1.0, -0.1);
  }

  lemma NearStarts(p1: Vector2, p2: Vector2)
    requires p1 == Vector2(3.0, 4.0) && p2 == Vector2(2.0, 3.9)
    ensures LengthSquared(Sub(p1, p2)) == 1.01
  {
  }

  /** In both orders the branches clamp s and then t to 0: the starts are closest. */
  lemma StartsSolveNear(k: Terms)
    requires k == Terms(25.0, -43.6, 3.4, 78.41, -4.79) || k == Terms(78.41, -43.6, 4.79, 25.0, -3.4)
    ensures Solve(k) == Parameters(0.0, 0.0)
  {
  }

  lemma NearDistance(p1: Vector2, q1: Vector2, p2: Vector2, q2: Vector2)
    requires p1 == Vector2(3.0, 4.0) && q1 == Vector2(6.0, 8.0) && p2 == Vector2(2.0, 3.9) && q2 == Vector2(-2.0, -4.0)
    ensures Solve(TermsOf(p1, q1, p2, q2)) == Parameters(0.0, 0.0)
    ensures Solve(TermsOf(p2, q2, p1, q1)) == Parameters(0.0, 0.0)
    ensures DistanceSquaredSegmentSegment(p1, q1, p2, q2) == 1.01
    ensures DistanceSquaredSegmentSegment(p2, q2, p1, q1) == 1.01
  {
    NearTerms(p1, q1, p2, q2);
    NearTermsSwapped(p1, q1, p2, q2);
    StartsSolveNear(TermsOf(p1, q1, p2, q2));
    StartsSolveNear(TermsOf(p2, q2, p1, q1));
    NearStarts(p1, p2);
    DistanceAtStarts(p1, q1, p2, q2);
  }

  /**
   * The capsule from (3, 4) to (6, 8) of radius 1.3 meets the one from
   * (2, 3.9) to (-2, -4) of radius 0.2, in both orders: the closest points
   * are the two starts, 1.01 squared apart, within (1.3 + 0.2)^2.
   */
  lemma NearCase(p1: Vector2, q1: Vector2, p2: Vector2, q2: Vector2)
    requires p1 == Vector2(3.0, 4.0) && q1 == Vector2(6.0, 8.0) && p2 == Vector2(2.0, 3.9) && q2 == Vector2(-2.0, -4.0)
    ensures Intersection(Capsule(p1, q1, 1.3), Capsule(p2, q2, 0.2))
    ensures Intersection(Capsule(p2, q2, 0.2), Capsule(p1, q1, 1.3))
  {
    NearDistance(p1, q1, p2, q2);
  }

  lemma FarTerms(p1: Vector2, q1: Vector2, p2: Vector2, q2: Vector2)
    requires p1 == Vector2(3.0, 4.0) && q1 == Vector2(6.0, 8.0) && p2 == Vector2(1.0, 2.0) && q2 == Vector2(-2.0, -4.0)
    ensures TermsOf(p1, q1, p2, q2) == Terms(25.0, -33.0, 14.0, 45.0, -18.0)
  {
    assert Sub(q1, p1) == Vector2(3.0, 4.0);
    assert Sub(q2, p2) == Vector2(-3.0, -6.0);
    assert Sub(p1, p2) == Vector2(2.0, 2.0);
  }

  lemma FarTermsSwapped(p1: Vector2, q1: Vector2, p2: Vector2, q2: Vector2)
    requires p1 == Vector2(3.0, 4.0) && q1 == Vector2(6.0, 8.0) && p2 == Vector2(1.0, 2.0) && q2 == Vector2(-2.0, -4.0)
    ensures TermsOf(p2, q2, p1, q1) == Terms(45.0, -33.0, 18.0, 25.0, -14.0)
  {
    assert Sub(q2, p2) == Vector2(-3.0, -6.0);
    assert Sub(q1, p1) == Vector2(3.0, 4.0);
    assert Sub(p2, p1) == Vector2(-2.0, -2.0);
  }

  lemma FarStarts(p1: Vector2, p2: Vector2)
    requires p1 == Vector2(3.0, 4.0) && p2 == Vector2(1.0, 2.0)
    ensures LengthSquared(Sub(p1, p2)) == 8.0
  {
  }

  /** In both orders the branches clamp s and then t to 0: the starts are closest. */
  lemma StartsSolveFar(k: Terms)
    requires k == Terms(25.0, -33.0, 14.0, 45.0, -18.0) || k == Terms(45.0, -33.0, 18.0, 25.0, -14.0)
    ensures Solve(k) == Parameters(0.0, 0.0)
  {
  }

  lemma FarDistance(p1: Vector2, q1: Vector2, p2: Vector2, q2: Vector2)
    requires p1 == Vector2(3.0, 4.0) && q1 == Vector2(6.0, 8.0) && p2 == Vector2(1.0, 2.0) && q2 == Vector2(-2.0, -4.0)
    ensures Solve(TermsOf(p1, q1, p2, q2)) == Parameters(0.0, 0.0)
    ensures Solve(TermsOf(p2, q2, p1, q1)) == Parameters(0.0, 0.0)
    ensures DistanceSquaredSegmentSegment(p1, q1, p2, q2) == 8.0
    ensures DistanceSquaredSegmentSegment(p2, q2, p1, q1) == 8.0
  {
    FarTerms(p1, q1, p2, q2);
    FarTermsSwapped(p1, q1, p2, q2);
    StartsSolveFar(TermsOf(p1, q1, p2, q2));
    StartsSolveFar(TermsOf(p2, q2, p1, q1));
    FarStarts(p1, p2);
    DistanceAtStarts(p1, q1, p2, q2);
  }

  /**
   * The same capsule misses the one from (1, 2) to (-2, -4) of radius 0.2,
   * in both orders: the starts are again closest, 8 squared apart, more than
   * (1.3 + 0.2)^2.
   */
  lemma FarCase(p1: Vector2, q1: Vector2, p2: Vector2, q2: Vector2)
    requires p1 == Vector2(3.0, 4.0) && q1 == Vector2(6.0, 8.0) && p2 == Vector2(1.0, 2.0) && q2 == Vector2(-2.0, -4.0)
    ensures !Intersection(Capsule(p1, q1, 1.3), Capsule(p2, q2, 0.2))
  {
    FarDistance(p1, q1, p2, q2);
  }

  lemma FarCaseSwapped(p1: Vector2, q1: Vector2, p2: Vector2, q2: Vector2)
    requires p1 == Vector2(3.0, 4.0) && q1 == Vector2(6.0, 8.0) && p2 == Vector2(1.0, 2.0) && q2 == Vector2(-2.0, -4.0)
    ensures !Intersection(Capsule(p2, q2, 0.2), Capsule(p1, q1, 1.3))
  {
    FarDistance(p1, q1, p2, q2);
  }

  lemma WideTerms(p1: Vector2, q1: Vector2, p2: Vector2, q2: Vector2)
    requires p1 == Vector2(3.0, 4.0) && q1 == Vector2(6.0, 8.0) && p2 == Vector2(2.0, 1.0) && q2 == Vector2(-3.0, -10.0)
    ensures TermsOf(p1, q1, p2, q2) == Terms(25.0, -59.0, 15.0, 146.0, -38.0)
  {
    assert Sub(q1, p1) == Vector2(3.0, 4.0);
    assert Sub(q2, p2) == Vector2(-5.0, -11.0);
    assert Sub(p1, p2) == Vector2(1.0, 3.0);
  }

  lemma WideTermsSwapped(p1: Vector2, q1: Vector2, p2: Vector2, q2: Vector2)
    requires p1 == Vector2(3.0, 4.0) && q1 == Vector2(6.0, 8.0) && p2 == Vector2(2.0, 1.0) && q2 == Vector2(-3.0, -10.0)
    ensures TermsOf(p2, q2, p1, q1) == Terms(146.0, -59.0, 38.0, 25.0, -15.0)
  {
    assert Sub(q2, p2) == Vector2(-5.0, -11.0);
    assert Sub(q1, p1) == Vector2(3.0, 4.0);
    assert Sub(p2, p1) == Vector2(-1.0, -3.0);
  }

  lemma WideStarts(p1: Vector2, p2: Vector2)
    requires p1 == Vector2(3.0, 4.0) && p2 == Vector2(2.0, 1.0)
    ensures LengthSquared(Sub(p1, p2)) == 10.0
  {
  }

  /** In both orders the branches clamp s and then t to 0: the starts are closest. */
  lemma StartsSolveWide(k: Terms)
    requires k == Terms(25.0, -59.0, 15.0, 146.0, -38.0) || k == Terms(146.0, -59.0, 38.0, 25.0, -15.0)
    ensures Solve(k) == Parameters(0.0, 0.0)
  {
  }

  lemma WideDistance(p1: Vector2, q1: Vector2, p2: Vector2, q2: Vector2)
    requires p1 == Vector2(3.0, 4.0) && q1 == Vector2(6.0, 8.0) && p2 == Vector2(2.0, 1.0) && q2 == Vector2(-3.0, -10.0)
    ensures Solve(TermsOf(p1, q1, p2, q2)) == Parameters(0.0, 0.0)
    ensures Solve(TermsOf(p2, q2, p1, q1)) == Parameters(0.0, 0.0)
    ensures DistanceSquaredSegmentSegment(p1, q1, p2, q2) == 10.0
    ensures DistanceSquaredSegmentSegment(p2, q2, p1, q1) == 10.0
  {
    WideTerms(p1, q1, p2, q2);
    WideTermsSwapped(p1, q1, p2, q2);
    StartsSolveWide(TermsOf(p1, q1, p2, q2));
    StartsSolveWide(TermsOf(p2, q2, p1, q1));
    WideStarts(p1, p2);
    DistanceAtStarts(p1, q1, p2, q2);
  }

  /**
   * A capsule of radius 1e-8 from (3, 4) to (6, 8) meets the one from (2, 1)
   * to (-3, -10) of radius 4, in both orders: the starts are 10 squared
   * apart, within 4^2.
   */
  lemma WideCase(p1: Vector2, q1: Vector2, p2: Vector2, q2: Vector2)
    requires p1 == Vector2(3.0, 4.0) && q1 == Vector2(6.0, 8.0) && p2 == Vector2(2.0, 1.0) && q2 == Vector2(-3.0, -10.0)
    ensures Intersection(Capsule(p1, q1, 0.00000001), Capsule(p2, q2, 4.0))
    ensures Intersection(Capsule(p2, q2, 4.0), Capsule(p1, q1, 0.00000001))
  {
    WideDistance(p1, q1, p2, q2);
  }

  lemma DisjointTerms(p1: Vector2, q1: Vector2, p2: Vector2, q2: Vector2)
    requires p1 == Vector2(-8.0, -8.0) && q1 == Vector2(23.0, -10.0) && p2 == Vector2(-10.0, 11.0) && q2 == Vector2(1.0, 30.0)
    ensures TermsOf(p1, q1, p2, q2) == Terms(965.0, 303.0, 100.0, 482.0, -339.0)
  {
    assert Sub(q1, p1) == Vector2(31.0, -2.0);
    assert Sub(q2, p2) == Vector2(11.0, 19.0);
    assert Sub(p1, p2) == Vector2(2.0, -19.0);
  }

  lemma DisjointTermsSwapped(p1: Vector2, q1: Vector2, p2: Vector2, q2: Vector2)
    requires p1 == Vector2(-8.0, -8.0) && q1 == Vector2(23.0, -10.0) && p2 == Vector2(-10.0, 11.0) && q2 == Vector2(1.0, 30.0)
    ensures TermsOf(p2, q2, p1, q1) == Terms(482.0, 303.0, 339.0, 965.0, -100.0)
  {
    assert Sub(q2, p2) == Vector2(11.0, 19.0);
    assert Sub(q1, p1) == Vector2(31.0, -2.0);
    assert Sub(p2, p1) == Vector2(-2.0, 19.0);
  }

  lemma DisjointStarts(p1: Vector2, p2: Vector2)
    requires p1 == Vector2(-8.0, -8.0) && p2 == Vector2(-10.0, 11.0)
    ensures LengthSquared(Sub(p1, p2)) == 365.0
  {
  }

  /** In both orders the branches clamp s and then t to 0: the starts are closest. */
  lemma StartsSolveDisjoint(k: Terms)
    requires k == Terms(965.0, 303.0, 100.0, 482.0, -339.0) || k == Terms(482.0, 303.0, 339.0, 965.0, -100.0)
    ensures Solve(k) == Parameters(0.0, 0.0)
  {
  }

  lemma DisjointDistance(p1: Vector2, q1: Vector2, p2: Vector2, q2: Vector2)
    requires p1 == Vector2(-8.0, -8.0) && q1 == Vector2(23.0, -10.0) && p2 == Vector2(-10.0, 11.0) && q2 == Vector2(1.0, 30.0)
    ensures Solve(TermsOf(p1, q1, p2, q2)) == Parameters(0.0, 0.0)
    ensures Solve(TermsOf(p2, q2, p1, q1)) == Parameters(0.0, 0.0)
    ensures DistanceSquaredSegmentSegment(p1, q1, p2, q2) == 365.0
    ensures DistanceSquaredSegmentSegment(p2, q2, p1, q1) == 365.0
  {
    DisjointTerms(p1, q1, p2, q2);
    DisjointTermsSwapped(p1, q1, p2, q2);
    StartsSolveDisjoint(TermsOf(p1, q1, p2, q2));
    StartsSolveDisjoint(TermsOf(p2, q2, p1, q1));
    DisjointStarts(p1, p2);
    DistanceAtStarts(p1, q1, p2, q2);
  }

  /** Two segments whose squared distance is 365 do not meet with radius 0. */
  lemma ApartAt(p1: Vector2, q1: Vector2, p2: Vector2, q2: Vector2)
    requires DistanceSquaredSegmentSegment(p1, q1, p2, q2) == 365.0
    ensures !Intersection(Capsule(p1, q1, 0.0), Capsule(p2, q2, 0.0))
  {
  }

  /**
   * The ends of the crossing case paired the other way give two segments
   * that do not cross: with radius 0 they miss, in both orders, the starts
   * being closest, 365 squared apart.
   */
  lemma DisjointCase(p1: Vector2, q1: Vector2, p2: Vector2, q2: Vector2)
    requires p1 == Vector2(-8.0, -8.0) && q1 == Vector2(23.0, -10.0) && p2 == Vector2(-10.0, 11.0) && q2 == Vector2(1.0, 30.0)
    ensures !Intersection(Capsule(p1, q1, 0.0), Capsule(p2, q2, 0.0))
  {
    DisjointDistance(p1, q1, p2, q2);
    ApartAt(p1, q1, p2, q2);
  }

  lemma DisjointCaseSwapped(p1: Vector2, q1: Vector2, p2: Vector2, q2: Vector2)
    requires p1 == Vector2(-8.0, -8.0) && q1 == Vector2(23.0, -10.0) && p2 == Vector2(-10.0, 11.0) && q2 == Vector2(1.0, 30.0)
    ensures !Intersection(Capsule(p2, q2, 0.0), Capsule(p1, q1, 0.0))
  {
    DisjointDistance(p1, q1, p2, q2);
    ApartAt(p2, q2, p1, q1);
  }

  lemma CrossingTerms(p1: Vector2, q1: Vector2, p2: Vector2, q2: Vector2)
    requires p1 == Vector2(-8.0, -8.0) && q1 == Vector2(1.0, 30.0) && p2 == Vector2(-10.0, 11.0) && q2 == Vector2(23.0, -10.0)
    ensures TermsOf(p1, q1, p2, q2) == Terms(1525.0, -501.0, -704.0, 1530.0, 465.0)
  {
    assert Sub(q1, p1) == Vector2(9.0, 38.0);
    assert Sub(q2, p2) == Vector2(33.0, -21.0);
    assert Sub(p1, p2) == Vector2(2.0, -19.0);
  }

  lemma CrossingTermsSwapped(p1: Vector2, q1: Vector2, p2: Vector2, q2: Vector2)
    requires p1 == Vector2(-8.0, -8.0) && q1 == Vector2(1.0, 30.0) && p2 == Vector2(-10.0, 11.0) && q2 == Vector2(23.0, -10.0)
    ensures TermsOf(p2, q2, p1, q1) == Terms(1530.0, -501.0, -465.0, 1525.0, 704.0)
  {
    assert Sub(q2, p2) == Vector2(33.0, -21.0);
    assert Sub(q1, p1) == Vector2(9.0, 38.0);
    assert Sub(p2, p1) == Vector2(-2.0, 19.0);
  }

  /** The crossing point of the two segments, (-161/37, 274/37): at 15/37 along the first and 19/111 along the second. */
  lemma CrossingPoint(p1: Vector2, q1: Vector2, p2: Vector2, q2: Vector2) returns (x: Vector2)
    requires p1 == Vector2(-8.0, -8.0) && q1 == Vector2(1.0, 30.0) && p2 == Vector2(-10.0, 11.0) && q2 == Vector2(23.0, -10.0)
    ensures x == Vector2(-161.0 / 37.0, 274.0 / 37.0)
    ensures At(p1, Sub(q1, p1), 15.0 / 37.0) == x && At(p2, Sub(q2, p2), 19.0 / 111.0) == x
  {
    x := Vector2(-161.0 / 37.0, 274.0 / 37.0);
    assert Sub(q1, p1) == Vector2(9.0, 38.0);
    assert Sub(q2, p2) == Vector2(33.0, -21.0);
  }

  /** When the parameters the branches land on give the same point on both segments, the routine returns 0. */
  lemma MeetAtParameters(p1: Vector2, q1: Vector2, p2: Vector2, q2: Vector2, s: real, t: real, x: Vector2)
    requires Solve(TermsOf(p1, q1, p2, q2)) == Parameters(s, t)
    requires At(p1, Sub(q1, p1), s) == x && At(p2, Sub(q2, p2), t) == x
    ensures DistanceSquaredSegmentSegment(p1, q1, p2, q2) == 0.0
  {
    DistanceAtParameters(p1, q1, p2, q2, s, t, x, x);
    LengthSquaredZero(Sub(x, x));
  }

  /** The unconstrained solution lies inside both segments: s = 15/37 and t = 19/111. */
  lemma CrossingSolve(k: Terms)
    requires k == Terms(1525.0, -501.0, -704.0, 1530.0, 465.0)
    ensures Solve(k) == Parameters(15.0 / 37.0, 19.0 / 111.0)
  {
    assert First(k) == 15.0 / 37.0;
    assert Follow(k, 15.0 / 37.0) == 19.0 / 111.0;
  }

  lemma CrossingSolveSwapped(k: Terms)
    requires k == Terms(1530.0, -501.0, -465.0, 1525.0, 704.0)
    ensures Solve(k) == Parameters(19.0 / 111.0, 15.0 / 37.0)
  {
    assert First(k) == 19.0 / 111.0;
    assert Follow(k, 19.0 / 111.0) == 15.0 / 37.0;
  }

  /** In both orders the branches land on the unconstrained solution. */
  lemma CrossingParameters(p1: Vector2, q1: Vector2, p2: Vector2, q2: Vector2)
    requires p1 == Vector2(-8.0, -8.0) && q1 == Vector2(1.0, 30.0) && p2 == Vector2(-10.0, 11.0) && q2 == Vector2(23.0, -10.0)
    ensures Solve(TermsOf(p1, q1, p2, q2)) == Parameters(15.0 / 37.0, 19.0 / 111.0)
    ensures Solve(TermsOf(p2, q2, p1, q1)) == Parameters(19.0 / 111.0, 15.0 / 37.0)
  {
    CrossingTerms(p1, q1, p2, q2);
    CrossingTermsSwapped(p1, q1, p2, q2);
    CrossingSolve(TermsOf(p1, q1, p2, q2));
    CrossingSolveSwapped(TermsOf(p2, q2, p1, q1));
  }

  lemma CrossingDistance(p1: Vector2, q1: Vector2, p2: Vector2, q2: Vector2)
    requires p1 == Vector2(-8.0, -8.0) && q1 == Vector2(1.0, 30.0) && p2 == Vector2(-10.0, 11.0) && q2 == Vector2(23.0, -10.0)
    ensures Solve(TermsOf(p1, q1, p2, q2)) == Parameters(15.0 / 37.0, 19.0 / 111.0)
    ensures DistanceSquaredSegmentSegment(p1, q1, p2, q2) == 0.0
    ensures Solve(TermsOf(p2, q2, p1, q1)) == Parameters(19.0 / 111.0, 15.0 / 37.0)
    ensures DistanceSquaredSegmentSegment(p2, q2, p1, q1) == 0.0
  {
    CrossingParameters(p1, q1, p2, q2);
    var x := CrossingPoint(p1, q1, p2, q2);
    MeetAtParameters(p1, q1, p2, q2, 15.0 / 37.0, 19.0 / 111.0, x);
    MeetAtParameters(p2, q2, p1, q1, 19.0 / 111.0, 15.0 / 37.0, x);
  }

  /** Two segments at squared distance 0 meet with radius 0. */
  lemma TouchingAt(p1: Vector2, q1: Vector2, p2: Vector2, q2: Vector2)
    requires DistanceSquaredSegmentSegment(p1, q1, p2, q2) == 0.0
    ensures Intersection(Capsule(p1, q1, 0.0), Capsule(p2, q2, 0.0))
  {
  }

  /**
   * The segment from (-8, -8) to (1, 30) crosses the one from (-10, 11) to
   * (23, -10): the routine finds the crossing point on both, at s = 15/37 and
   * t = 19/111, so with radius 0 they meet, in both orders.
   */
  lemma CrossingCase(p1: Vector2, q1: Vector2, p2: Vector2, q2: Vector2)
    requires p1 == Vector2(-8.0, -8.0) && q1 == Vector2(1.0, 30.0) && p2 == Vector2(-10.0, 11.0) && q2 == Vector2(23.0, -10.0)
    ensures Intersection(Capsule(p1, q1, 0.0), Capsule(p2, q2, 0.0))
    ensures Intersection(Capsule(p2, q2, 0.0), Capsule(p1, q1, 0.0))
  {
    CrossingDistance(p1, q1, p2, q2);
    TouchingAt(p1, q1, p2, q2);
    TouchingAt(p2, q2, p1, q1);
  }

  lemma PointsApart(p: Vector2, q: Vector2)
    requires p == Vector2(-8.0, -8.0) && q == Vector2(-10.0, 11.0)
    ensures LengthSquared(Sub(p, q)) == 365.0 && LengthSquared(Sub(q, p)) == 365.0
  {
  }

  /** Two segments whose squared distance is 365 meet with radius 10 each (365 <= 400) and miss with radius 9 each (365 > 324). */
  lemma RadiiAt(p1: Vector2, q1: Vector2, p2: Vector2, q2: Vector2)
    requires DistanceSquaredSegmentSegment(p1, q1, p2, q2) == 365.0
    ensures Intersection(Capsule(p1, q1, 10.0), Capsule(p2, q2, 10.0))
    ensures !Intersection(Capsule(p1, q1, 9.0), Capsule(p2, q2, 9.0))
  {
  }

  /** The point capsules at (-8, -8) and (-10, 11) meet with radius 10 each, in both orders. */
  lemma PointsMeet(p: Vector2, q: Vector2)
    requires p == Vector2(-8.0, -8.0) && q == Vector2(-10.0, 11.0)
    ensures Intersection(Capsule(p, p, 10.0), Capsule(q, q, 10.0))
    ensures Intersection(Capsule(q, q, 10.0), Capsule(p, p, 10.0))
  {
    PointsApart(p, q);
    PointsDistance(p, q);
    PointsDistance(q, p);
    RadiiAt(p, p, q, q);
    RadiiAt(q, q, p, p);
  }

  /** With radius 9 each they miss, in both orders. */
  lemma PointsMiss(p: Vector2, q: Vector2)
    requires p == Vector2(-8.0, -8.0) && q == Vector2(-10.0, 11.0)
    ensures !Intersection(Capsule(p, p, 9.0), Capsule(q, q, 9.0))
  {
    PointsApart(p, q);
    PointsDistance(p, q);
    RadiiAt(p, p, q, q);
  }

  lemma PointsMissSwapped(p: Vector2, q: Vector2)
    requires p == Vector2(-8.0, -8.0) && q == Vector2(-10.0, 11.0)
    ensures !Intersection(Capsule(q, q, 9.0), Capsule(p, p, 9.0))
  {
    PointsApart(p, q);
    PointsDistance(q, p);
    RadiiAt(q, q, p, p);
  }
}
