// The broad-phase swept capsule (Echollision/BroadPhase/SweptCapsule.cs): a
// segment swept by a disc, and the overlap test of two of them through the
// squared distance between their segments, computed by the clamped
// closest-points routine of Ericson, Real-Time Collision Detection, section
// 5.1.9.
//
// Besides the facts about each path (parameters in [0, 1], the point and
// parallel cases), the module proves what the routine is for: the value it
// returns is the squared distance of one pair of points of the two segments,
// and no pair is closer, so Intersection holds exactly when the two swept
// discs meet. The one exception is a segment whose squared length is positive
// but at most float.Epsilon, which the routine treats as a point.

module SweptCapsule {
  import opened Vectors
  import Transforms

  /** An internal SweptCapsule: the segment from a to b swept by a disc of radius r. */
  datatype Capsule = Capsule(a: Vector2, b: Vector2, r: real)

  /** The point at parameter s of the segment that starts at p with direction d. */
  function At(p: Vector2, d: Vector2, s: real): Vector2 {
    Add(p, Scale(s, d))
  }

  /** The squared distance between the point at s on p1..q1 and the point at t on p2..q2. */
  function Gap(p1: Vector2, q1: Vector2, p2: Vector2, q2: Vector2, s: real, t: real): real {
    LengthSquared(Sub(At(p1, Sub(q1, p1), s), At(p2, Sub(q2, p2), t)))
  }

  /**
   * The scalar products the routine works with, for d1 = q1 - p1,
   * d2 = q2 - p2 and r = p1 - p2: a = |d1|^2, b = d1.d2, c = d1.r,
   * e = |d2|^2 and f = d2.r.
   */
  datatype Terms = Terms(a: real, b: real, c: real, e: real, f: real)

  function TermsOf(p1: Vector2, q1: Vector2, p2: Vector2, q2: Vector2): Terms {
    var d1 := Sub(q1, p1);
    var d2 := Sub(q2, p2);
    var r := Sub(p1, p2);
    Terms(LengthSquared(d1), Dot(d1, d2), Dot(d1, r), LengthSquared(d2), Dot(d2, r))
  }

  /** Math.Clamp(x, 0f, 1f) of the .NET library: 0 below the range, 1 above it, x inside it. */
  function Clamp01(x: real): real {
    if x < 0.0 then 0.0 else if x > 1.0 then 1.0 else x
  }

  /** The outcome of the branches: both segments are points, or the parameters s and t of the closest points. */
  datatype Closest = BothPoints | Parameters(s: real, t: real)

  /** a e - b^2, the denominator of the unconstrained solution. */
  function Denominator(k: Terms): real {
    k.a * k.e - k.b * k.b
  }

  /** b f - c e, the numerator of the unconstrained s. */
  function Numerator(k: Terms): real {
    k.b * k.f - k.c * k.e
  }

  /** The first s of the general case: the clamped unconstrained solution, or 0 for parallel segments. */
  function First(k: Terms): real {
    var denom := Denominator(k);
    if denom != 0.0 then Clamp01(Numerator(k) / denom) else 0.0
  }

  /**
   * The branches of DistanceSquaredSegmentSegment: a squared length of at
   * most float.Epsilon makes a segment a point; in the general case t is
   * computed from the first s and, when it leaves [0, 1], clamped, and s is
   * recomputed for the clamped t.
   */
  function Solve(k: Terms): (r: Closest)
    ensures r.Parameters? ==> 0.0 <= r.s <= 1.0 && 0.0 <= r.t <= 1.0
    ensures r.BothPoints? <==> k.a <= Transforms.FloatEpsilon && k.e <= Transforms.FloatEpsilon
  {
    var aIsZero := k.a <= Transforms.FloatEpsilon;
    var eIsZero := k.e <= Transforms.FloatEpsilon;
    if aIsZero && eIsZero then BothPoints
    else if aIsZero then Parameters(0.0, TAt0(k))
    else if eIsZero then Parameters(SAt0(k), 0.0)
    else General(k)
  }

  /** The general case: the first s, then the rest of the computation from it. */
  function General(k: Terms): (r: Closest)
    requires k.a > 0.0 && k.e > 0.0
    ensures r.Parameters? && 0.0 <= r.s <= 1.0 && 0.0 <= r.t <= 1.0
  {
    Refine(k, First(k))
  }

  /** The s closest to the start of the second segment (t = 0): -c / a, clamped. */
  function SAt0(k: Terms): real
    requires k.a > 0.0
  {
    Clamp01(-k.c / k.a)
  }

  /** The s closest to the end of the second segment (t = 1): (b - c) / a, clamped. */
  function SAt1(k: Terms): real
    requires k.a > 0.0
  {
    Clamp01((k.b - k.c) / k.a)
  }

  /** The t closest to the start of the first segment (s = 0): f / e, clamped. */
  function TAt0(k: Terms): real
    requires k.e > 0.0
  {
    Clamp01(k.f / k.e)
  }

  /** The t that minimises the gap for a given s on the second segment's line: (b s + f) / e. */
  function Follow(k: Terms, s: real): real
    requires k.e > 0.0
  {
    (k.b * s + k.f) / k.e
  }

  /** The general case once s is fixed: t from s, clamped with s recomputed when it leaves [0, 1]. */
  function Refine(k: Terms, s: real): (r: Closest)
    requires k.a > 0.0 && k.e > 0.0 && 0.0 <= s <= 1.0
    ensures r.Parameters? && 0.0 <= r.s <= 1.0 && 0.0 <= r.t <= 1.0
  {
    var t := Follow(k, s);
    if t < 0.0 then Parameters(SAt0(k), 0.0)
    else if t > 1.0 then Parameters(SAt1(k), 1.0)
    else Parameters(s, t)
  }

  /** DistanceSquaredSegmentSegment: |p1 - p2|^2 for two points, otherwise the squared gap at the parameters found. */
  function DistanceSquaredSegmentSegment(p1: Vector2, q1: Vector2, p2: Vector2, q2: Vector2): (r: real)
    ensures r >= 0.0
  {
    match Solve(TermsOf(p1, q1, p2, q2))
    case BothPoints => LengthSquaredZero(Sub(p1, p2)); LengthSquared(Sub(p1, p2))
    case Parameters(s, t) =>
      LengthSquaredZero(Sub(At(p1, Sub(q1, p1), s), At(p2, Sub(q2, p2), t)));
      Gap(p1, q1, p2, q2, s, t)
  }

  /** SweptCapsule.Intersection: the squared segment distance is at most (a.R + b.R)^2. */
  function Intersection(a: Capsule, b: Capsule): bool {
    var distanceSquared := DistanceSquaredSegmentSegment(a.a, a.b, b.a, b.b);
    var r := a.r + b.r;
    distanceSquared <= r * r
  }

  // ---- What the scalar products of two real segments satisfy ----

  /** The relations between a, b, c, e and f that hold for every two segments of the plane. */
  predicate Realizable(k: Terms) {
    k.a >= 0.0 && k.e >= 0.0 && Denominator(k) >= 0.0 &&
    (Denominator(k) == 0.0 ==> k.b * k.f - k.c * k.e == 0.0) &&
    (k.a == 0.0 ==> k.b == 0.0 && k.c == 0.0) &&
    (k.e == 0.0 ==> k.b == 0.0 && k.f == 0.0)
  }

  /** Lagrange's identity in the plane: |u|^2 |w|^2 - (u.w)^2 is the square of the cross product. */
  lemma Lagrange(ux: real, uy: real, wx: real, wy: real, cross: real)
    requires cross == ux * wy - uy * wx
    ensures (ux * ux + uy * uy) * (wx * wx + wy * wy) - (ux * wx + uy * wy) * (ux * wx + uy * wy) == cross * cross
  {
  }

  /** The Binet-Cauchy identity (u.r)(w.w) - (u.w)(w.r) = (u x w)(r x w). */
  lemma BinetCauchy(ux: real, uy: real, wx: real, wy: real, rx: real, ry: real, cross: real)
    requires cross == ux * wy - uy * wx
    ensures (ux * rx + uy * ry) * (wx * wx + wy * wy) - (ux * wx + uy * wy) * (wx * rx + wy * ry) ==
            cross * (rx * wy - ry * wx)
  {
  }

  lemma SquareNonNegative(u: real, w: real)
    requires u == w
    ensures u * w >= 0.0
  {
  }

  /** Squared lengths are not negative, and a segment of length zero has zero products with everything. */
  lemma TermsLengths(p1: Vector2, q1: Vector2, p2: Vector2, q2: Vector2)
    ensures var k := TermsOf(p1, q1, p2, q2);
            k.a >= 0.0 && k.e >= 0.0 &&
            (k.a == 0.0 ==> k.b == 0.0 && k.c == 0.0) &&
            (k.e == 0.0 ==> k.b == 0.0 && k.f == 0.0)
  {
    var d1, d2, r := Sub(q1, p1), Sub(q2, p2), Sub(p1, p2);
    SegmentLength(d1, d2, r);
    SegmentLength(d2, d1, r);
  }

  /** A direction's squared length is not negative, and when it is zero so are its products with u and w. */
  lemma SegmentLength(d: Vector2, u: Vector2, w: Vector2)
    ensures LengthSquared(d) >= 0.0
    ensures LengthSquared(d) == 0.0 ==> Dot(d, u) == 0.0 && Dot(u, d) == 0.0 && Dot(d, w) == 0.0
  {
    SumOfEqualProductsNonNegative(d.x, d.y, d.x, d.y);
    if LengthSquared(d) == 0.0 {
      NullProducts(d, u);
      NullProducts(d, w);
    }
  }

  /** A vector of squared length zero has zero products. */
  lemma NullProducts(u: Vector2, w: Vector2)
    requires LengthSquared(u) == 0.0
    ensures Dot(u, w) == 0.0 && Dot(w, u) == 0.0
  {
    NullComponents(u.x, u.y, u.x, u.y, w.x, w.y);
  }

  lemma NullComponents(ux: real, uy: real, px: real, py: real, wx: real, wy: real)
    requires ux == px && uy == py && ux * px + uy * py == 0.0
    ensures ux * wx + uy * wy == 0.0
  {
    if ux != 0.0 || uy != 0.0 {
      SumOfEqualProductsPositive(ux, uy, px, py);
    }
  }


  /** a e - b^2 is the square of d1 x d2, and b f - c e a multiple of it. */
  lemma TermsDenominator(p1: Vector2, q1: Vector2, p2: Vector2, q2: Vector2)
    ensures var k := TermsOf(p1, q1, p2, q2);
            Denominator(k) >= 0.0 && (Denominator(k) == 0.0 ==> k.b * k.f - k.c * k.e == 0.0)
  {
    var d1, d2, r := Sub(q1, p1), Sub(q2, p2), Sub(p1, p2);
    var k := TermsOf(p1, q1, p2, q2);
    var cross := d1.x * d2.y - d1.y * d2.x;
    Lagrange(d1.x, d1.y, d2.x, d2.y, cross);
    assert Denominator(k) == cross * cross;
    SquareNonNegative(cross, cross);
    BinetCauchy(d1.x, d1.y, d2.x, d2.y, r.x, r.y, cross);
    assert k.c * k.e - k.b * k.f == cross * (r.x * d2.y - r.y * d2.x);
    if Denominator(k) == 0.0 {
      ProductZero(cross, cross);
    }
  }

  /** The scalar products of any two segments are realizable. */
  lemma TermsRealizable(p1: Vector2, q1: Vector2, p2: Vector2, q2: Vector2)
    ensures Realizable(TermsOf(p1, q1, p2, q2))
  {
    TermsLengths(p1, q1, p2, q2);
    TermsDenominator(p1, q1, p2, q2);
  }

  // ---- Constrained minima along one parameter ----

  /**
   * s in [0, 1] is where a convex function of one parameter, whose
   * derivative at s has the sign of g, is smallest over [0, 1]: the
   * derivative vanishes, or s is an end and the function rises into the
   * interval from it.
   */
  predicate Stationary(s: real, g: real) {
    0.0 <= s <= 1.0 && (g == 0.0 || (s == 0.0 && g > 0.0) || (s == 1.0 && g < 0.0))
  }

  /** Moving from a stationary s to any u in [0, 1] goes uphill. */
  lemma StationaryProduct(s: real, g: real, u: real)
    requires Stationary(s, g) && 0.0 <= u <= 1.0
    ensures (u - s) * g >= 0.0
  {
    if g == 0.0 {
    } else if s == 0.0 {
      ProductNonNegative(u, g);
    } else {
      ProductNonNegative(s - u, -g);
      assert (u - s) * g == (s - u) * (-g);
    }
  }

  /** The clamped root m / k of k x - m is stationary for it. */
  lemma ClampStationary(k: real, m: real)
    requires k > 0.0
    ensures Stationary(Clamp01(m / k), k * Clamp01(m / k) - m)
  {
    var q := m / k;
    assert m == q * k;
    if q < 0.0 {
      assert q * k < 0.0;
    } else if q > 1.0 {
      assert (q - 1.0) * k > 0.0;
    }
  }

  /** A positive factor does not change stationarity. */
  lemma StationaryScale(s: real, g: real, k: real)
    requires k > 0.0 && Stationary(s, k * g)
    ensures Stationary(s, g)
  {
    if g > 0.0 {
      assert k * g > 0.0;
    } else if g < 0.0 {
      assert k * (-g) > 0.0;
    }
  }

  // ---- The general case's second step ----

  /**
   * b x + f stays at or below zero from the first s to the clamp of any
   * point where it is at or below zero, because it is linear.
   */
  lemma LinearBetween(b: real, f: real, s0: real, star: real)
    requires 0.0 <= s0 <= 1.0 && b * s0 + f < 0.0 && b * star + f <= 0.0
    ensures b * Clamp01(star) + f <= 0.0
  {
    if star < 0.0 {
      if b >= 0.0 {
        ProductNonNegative(b, s0);
      } else {
        ProductNonNegative(-b, -star);
      }
    } else if star > 1.0 {
      if b <= 0.0 {
        ProductNonNegative(-b, 1.0 - s0);
      } else {
        ProductNonNegative(b, star - 1.0);
      }
    }
  }

  /** e (a f - b c) = f (a e - b^2) + b (b f - c e). */
  lemma DescentIdentity(a: real, b: real, c: real, e: real, f: real, denom: real, num: real)
    requires denom == a * e - b * b && num == b * f - c * e
    ensures e * (a * f - b * c) == f * denom + b * num
  {
  }

  /**
   * When the t computed from the first s0 falls below 0 (b s0 + f < 0), the s
   * recomputed for t = 0 keeps b s + f at or below zero, so t = 0 is
   * stationary for it. This is the step that makes the routine exact. Of s0
   * only what the clamped unconstrained solution satisfies is needed: it is
   * stationary for denom s - num.
   */
  lemma Descent(k: Terms, s0: real)
    requires k.a > 0.0 && k.e > 0.0 && Denominator(k) >= 0.0
    requires Denominator(k) == 0.0 ==> Numerator(k) == 0.0
    requires Stationary(s0, Denominator(k) * s0 - Numerator(k))
    requires k.b * s0 + k.f < 0.0
    ensures k.b * SAt0(k) + k.f <= 0.0
  {
    DescentCases(k.a, k.b, k.c, k.e, k.f, s0, Denominator(k), Numerator(k), -k.c / k.a);
  }

  /** The first s is stationary for denom s - num, the first-order change of the unconstrained problem. */
  lemma FirstClamped(k: Terms)
    requires Denominator(k) >= 0.0 && (Denominator(k) == 0.0 ==> Numerator(k) == 0.0)
    ensures Stationary(First(k), Denominator(k) * First(k) - Numerator(k))
  {
    if Denominator(k) != 0.0 {
      ClampStationary(Denominator(k), Numerator(k));
    }
  }

  /** Descent for the products as plain numbers: s0 the first s, star the unclamped s for t = 0. */
  lemma DescentCases(a: real, b: real, c: real, e: real, f: real, s0: real, denom: real, num: real, star: real)
    requires a > 0.0 && e > 0.0 && denom == a * e - b * b && num == b * f - c * e && star == -c / a
    requires denom >= 0.0 && (denom == 0.0 ==> num == 0.0) && Stationary(s0, denom * s0 - num)
    requires b * s0 + f < 0.0
    ensures b * Clamp01(star) + f <= 0.0
  {
    DescentIdentity(a, b, c, e, f, denom, num);
    assert a * (b * star + f) == a * f - b * c by {
      assert a * star == -c;
    }
    var g := denom * s0 - num;
    if denom == 0.0 {
      StarBelow(a, b, c, e, f, s0, star, denom, num);
    } else if g == 0.0 {
      DescentInterior(a, b, c, e, f, s0, star, denom, num);
    } else if s0 == 0.0 {
      DescentLow(a, b, c, e, f, star, denom, num);
    } else {
      DescentHigh(a, b, c, e, f, star, denom, num);
    }
  }

  /** Once f denom + b num <= 0, b x + f is at or below zero at the unclamped s for t = 0, and so at its clamp. */
  lemma StarBelow(a: real, b: real, c: real, e: real, f: real, s0: real, star: real, denom: real, num: real)
    requires a > 0.0 && e > 0.0 && 0.0 <= s0 <= 1.0 && b * s0 + f < 0.0
    requires a * (b * star + f) == a * f - b * c && e * (a * f - b * c) == f * denom + b * num
    requires f * denom + b * num <= 0.0
    ensures b * Clamp01(star) + f <= 0.0
  {
    NonPositiveQuotient(a * f - b * c, e);
    NonPositiveQuotient(b * star + f, a);
    LinearBetween(b, f, s0, star);
  }

  /** The first s inside [0, 1]: num = denom s0. */
  lemma DescentInterior(a: real, b: real, c: real, e: real, f: real, s0: real, star: real, denom: real, num: real)
    requires a > 0.0 && e > 0.0 && denom > 0.0 && 0.0 <= s0 <= 1.0 && b * s0 + f < 0.0 && num == s0 * denom
    requires a * (b * star + f) == a * f - b * c && e * (a * f - b * c) == f * denom + b * num
    ensures b * Clamp01(star) + f <= 0.0
  {
    assert f * denom + b * num == denom * (b * s0 + f);
    ProductNonNegative(denom, -(b * s0 + f));
    assert denom * (b * s0 + f) == -(denom * -(b * s0 + f));
    StarBelow(a, b, c, e, f, s0, star, denom, num);
  }

  /** The first s clamped to 0: num < 0 and f < 0. */
  lemma DescentLow(a: real, b: real, c: real, e: real, f: real, star: real, denom: real, num: real)
    requires a > 0.0 && e > 0.0 && denom > 0.0 && f < 0.0 && num < 0.0
    requires a * (b * star + f) == a * f - b * c && e * (a * f - b * c) == f * denom + b * num
    ensures b * Clamp01(star) + f <= 0.0
  {
    if b >= 0.0 {
      ProductNonNegative(b, -num);
      ProductNonNegative(denom, -f);
      StarBelow(a, b, c, e, f, 0.0, star, denom, num);
    } else {
      ProductNonNegative(-b, Clamp01(star));
    }
  }

  /** The first s clamped to 1: num > denom and b + f < 0. */
  lemma DescentHigh(a: real, b: real, c: real, e: real, f: real, star: real, denom: real, num: real)
    requires a > 0.0 && e > 0.0 && denom > 0.0 && b + f < 0.0 && num - denom > 0.0
    requires a * (b * star + f) == a * f - b * c && e * (a * f - b * c) == f * denom + b * num
    ensures b * Clamp01(star) + f <= 0.0
  {
    if b <= 0.0 {
      assert f * denom + b * num == (b + f) * denom + b * (num - denom);
      ProductNonNegative(-b, num - denom);
      ProductNonNegative(denom, -(b + f));
      StarBelow(a, b, c, e, f, 1.0, star, denom, num);
    } else {
      ProductNonNegative(b, 1.0 - Clamp01(star));
    }
  }


  /** From p * k <= 0 with k > 0 follows p <= 0. */
  lemma NonPositiveQuotient(p: real, k: real)
    requires k > 0.0 && k * p <= 0.0
    ensures p <= 0.0
  {
  }

  // ---- Every path ends at a constrained minimum ----

  /** The segments the routine measures exactly: each is a point or longer than float.Epsilon squared. */
  predicate Measured(k: Terms) {
    (k.a == 0.0 || k.a > Transforms.FloatEpsilon) && (k.e == 0.0 || k.e > Transforms.FloatEpsilon)
  }

  /**
   * The parameters found are stationary in s for the found t and in t for
   * the found s: the derivative of the squared gap along s is 2 (c + a s - b t)
   * and along t is 2 (e t - b s - f).
   */
  lemma SolveStationary(k: Terms)
    requires Realizable(k) && Measured(k)
    ensures Solve(k).Parameters? ==> Critical(k, Solve(k).s, Solve(k).t)
  {
    var eps := Transforms.FloatEpsilon;
    SolveOutcome(k);
    if k.a <= eps && k.e <= eps {
    } else if k.a <= eps {
      CriticalFirstPoint(k);
      SolveCriticalAt(k, 0.0, TAt0(k));
    } else if k.e <= eps {
      CriticalSecondPoint(k);
      SolveCriticalAt(k, SAt0(k), 0.0);
    } else {
      GeneralCritical(k);
      SolveCriticalAt(k, General(k).s, General(k).t);
    }
  }

  /** The four outcomes of the routine's branches. */
  lemma SolveOutcome(k: Terms)
    ensures var eps := Transforms.FloatEpsilon;
            Solve(k) == (if k.a <= eps && k.e <= eps then BothPoints
                         else if k.a <= eps then Parameters(0.0, TAt0(k))
                         else if k.e <= eps then Parameters(SAt0(k), 0.0)
                         else General(k))
  {
  }

  lemma SolveCriticalAt(k: Terms, s: real, t: real)
    requires Solve(k) == Parameters(s, t) && Critical(k, s, t)
    ensures Solve(k).Parameters? ==> Critical(k, Solve(k).s, Solve(k).t)
  {
  }

  /** A first segment that is a point: s = 0 and t the clamped projection of p1. */
  lemma CriticalFirstPoint(k: Terms)
    requires Realizable(k) && k.a == 0.0 && k.e > 0.0
    ensures Critical(k, 0.0, TAt0(k))
  {
    ClampStationary(k.e, k.f);
  }

  /** A second segment that is a point: t = 0 and s the clamped projection of p2. */
  lemma CriticalSecondPoint(k: Terms)
    requires Realizable(k) && k.e == 0.0 && k.a > 0.0
    ensures Critical(k, SAt0(k), 0.0)
  {
    ClampStationary(k.a, -k.c);
  }


  /** Every outcome of the general case is critical. */
  lemma GeneralCritical(k: Terms)
    requires Realizable(k) && k.a > 0.0 && k.e > 0.0
    ensures Critical(k, General(k).s, General(k).t)
  {
    FirstClamped(k);
    RefineCritical(k, First(k));
  }

  /** From any s0 stationary for denom s - num, the rest of the general case ends at critical parameters. */
  lemma RefineCritical(k: Terms, s0: real)
    requires Realizable(k) && k.a > 0.0 && k.e > 0.0
    requires Stationary(s0, Denominator(k) * s0 - Numerator(k))
    ensures Critical(k, Refine(k, s0).s, Refine(k, s0).t)
  {
    var t0 := Follow(k, s0);
    if t0 < 0.0 {
      RefineBelow(k, s0);
    } else if t0 > 1.0 {
      RefineAbove(k, s0);
    } else {
      RefineInside(k, s0);
    }
  }

  lemma RefineBelow(k: Terms, s0: real)
    requires Realizable(k) && k.a > 0.0 && k.e > 0.0
    requires Stationary(s0, Denominator(k) * s0 - Numerator(k)) && Follow(k, s0) < 0.0
    ensures Critical(k, Refine(k, s0).s, Refine(k, s0).t)
  {
    FollowBounds(k, s0);
    CriticalBelow(k, s0);
    BelowOutcome(k, s0);
    CriticalOutcome(k, Refine(k, s0), SAt0(k), 0.0);
  }

  lemma RefineAbove(k: Terms, s0: real)
    requires Realizable(k) && k.a > 0.0 && k.e > 0.0
    requires Stationary(s0, Denominator(k) * s0 - Numerator(k)) && Follow(k, s0) > 1.0
    ensures Critical(k, Refine(k, s0).s, Refine(k, s0).t)
  {
    FollowBounds(k, s0);
    CriticalAbove(k, s0);
    AboveOutcome(k, s0);
    CriticalOutcome(k, Refine(k, s0), SAt1(k), 1.0);
  }

  lemma RefineInside(k: Terms, s0: real)
    requires Realizable(k) && k.a > 0.0 && k.e > 0.0
    requires Stationary(s0, Denominator(k) * s0 - Numerator(k)) && 0.0 <= Follow(k, s0) <= 1.0
    ensures Critical(k, Refine(k, s0).s, Refine(k, s0).t)
  {
    var t0 := Follow(k, s0);
    FollowBounds(k, s0);
    CriticalInside(k, s0, t0);
    InsideOutcome(k, s0);
    CriticalOutcome(k, Refine(k, s0), s0, t0);
  }

  /** The outcome for a first t below 0. */
  lemma BelowOutcome(k: Terms, s0: real)
    requires k.a > 0.0 && k.e > 0.0 && 0.0 <= s0 <= 1.0 && Follow(k, s0) < 0.0
    ensures Refine(k, s0) == Parameters(SAt0(k), 0.0)
  {
  }

  /** The outcome for a first t above 1. */
  lemma AboveOutcome(k: Terms, s0: real)
    requires k.a > 0.0 && k.e > 0.0 && 0.0 <= s0 <= 1.0 && Follow(k, s0) > 1.0
    ensures Refine(k, s0) == Parameters(SAt1(k), 1.0)
  {
  }

  /** The outcome for a first t in [0, 1]. */
  lemma InsideOutcome(k: Terms, s0: real)
    requires k.a > 0.0 && k.e > 0.0 && 0.0 <= s0 <= 1.0 && 0.0 <= Follow(k, s0) <= 1.0
    ensures Refine(k, s0) == Parameters(s0, Follow(k, s0))
  {
  }

  /** Critical parameters stay critical when read back from the outcome that holds them. */
  lemma CriticalOutcome(k: Terms, r: Closest, s: real, t: real)
    requires r == Parameters(s, t) && Critical(k, s, t)
    ensures Critical(k, r.s, r.t)
  {
  }

  /** Where the t computed from s0 lies against 0 and 1, in terms of b s0 + f and e. */
  lemma FollowBounds(k: Terms, s0: real)
    requires k.e > 0.0
    ensures Follow(k, s0) < 0.0 ==> k.b * s0 + k.f < 0.0
    ensures Follow(k, s0) > 1.0 ==> k.b * s0 + k.f > k.e
    ensures k.e * Follow(k, s0) == k.b * s0 + k.f
  {
    var n, q := k.b * s0 + k.f, Follow(k, s0);
    assert q == n / k.e;
    QuotientBounds(n, k.e);
  }

  /** Where n / d lies against 0 and 1, for d > 0. */
  lemma QuotientBounds(n: real, d: real)
    requires d > 0.0
    ensures n / d < 0.0 ==> n < 0.0
    ensures n / d > 1.0 ==> n > d
    ensures d * (n / d) == n
  {
    var q := n / d;
    assert n == q * d;
    if q < 0.0 {
      assert q * d < 0.0;
    } else if q > 1.0 {
      assert (q - 1.0) * d > 0.0;
    }
  }



  /** Parameters stationary in s for the t and in t for the s. */
  predicate Critical(k: Terms, s: real, t: real) {
    Stationary(s, k.c + k.a * s - k.b * t) && Stationary(t, k.e * t - k.b * s - k.f)
  }

  /** The general case with the first t below 0: t = 0 and s recomputed. */
  lemma CriticalBelow(k: Terms, s0: real)
    requires Realizable(k) && k.a > 0.0 && k.e > 0.0
    requires Stationary(s0, Denominator(k) * s0 - Numerator(k)) && k.b * s0 + k.f < 0.0
    ensures Critical(k, SAt0(k), 0.0)
  {
    ClampStationary(k.a, -k.c);
    Descent(k, s0);
  }

  /** The general case with the first t above 1: t = 1 and s recomputed, which is the case below 0 from the other end. */
  lemma CriticalAbove(k: Terms, s0: real)
    requires Realizable(k) && k.a > 0.0 && k.e > 0.0
    requires Stationary(s0, Denominator(k) * s0 - Numerator(k)) && k.b * s0 + k.f > k.e
    ensures Critical(k, SAt1(k), 1.0)
  {
    var s1 := SAt1(k);
    ClampStationary(k.a, k.b - k.c);
    assert k.c + k.a * s1 - k.b * 1.0 == k.a * s1 - (k.b - k.c);
    AboveDescent(k, s0);
  }

  /**
   * The s recomputed for t = 1 keeps e - b s - f at or below zero. Seen from
   * the other end of the second segment (t' = 1 - t) the products are a, -b,
   * c - b, e and e - f, with the same denominator and numerator, and the
   * case t > 1 becomes the case t < 0 of Descent.
   */
  lemma AboveDescent(k: Terms, s0: real)
    requires k.a > 0.0 && k.e > 0.0 && Denominator(k) >= 0.0 && (Denominator(k) == 0.0 ==> Numerator(k) == 0.0)
    requires Stationary(s0, Denominator(k) * s0 - Numerator(k)) && k.b * s0 + k.f > k.e
    ensures k.e - k.b * SAt1(k) - k.f <= 0.0
  {
    AboveCases(k.a, k.b, k.c, k.e, k.f, s0, Denominator(k), Numerator(k));
  }

  /** AboveDescent for the products as plain numbers. */
  lemma AboveCases(a: real, b: real, c: real, e: real, f: real, s0: real, denom: real, num: real)
    requires a > 0.0 && e > 0.0 && denom == a * e - b * b && num == b * f - c * e
    requires denom >= 0.0 && (denom == 0.0 ==> num == 0.0) && Stationary(s0, denom * s0 - num)
    requires b * s0 + f > e
    ensures e - b * Clamp01((b - c) / a) - f <= 0.0
  {
    assert (b - c) / a == -(c - b) / a;
    DescentCases(a, -b, c - b, e, e - f, s0, denom, num, (b - c) / a);
  }

  /** The general case with the first t in [0, 1]: both first values are kept. */
  lemma CriticalInside(k: Terms, s0: real, t0: real)
    requires k.a > 0.0 && k.e > 0.0 && k.e * t0 == k.b * s0 + k.f && 0.0 <= t0 <= 1.0
    requires Stationary(s0, Denominator(k) * s0 - Numerator(k))
    ensures Critical(k, s0, t0)
  {
    FirstStationary(k.a, k.b, k.c, k.e, k.f, s0, t0, Denominator(k), Numerator(k));
  }

  /** The kept first s is stationary for the t it gave, since e (c + a s0 - b t0) = denom s0 - num. */
  lemma FirstStationary(a: real, b: real, c: real, e: real, f: real, s0: real, t0: real, denom: real, num: real)
    requires e > 0.0 && e * t0 == b * s0 + f && denom == a * e - b * b && num == b * f - c * e
    requires Stationary(s0, denom * s0 - num)
    ensures Stationary(s0, c + a * s0 - b * t0)
  {
    assert e * (c + a * s0 - b * t0) == denom * s0 - num;
    StationaryScale(s0, c + a * s0 - b * t0, e);
  }

  // ---- Stationary parameters give the closest points ----

  lemma LengthSquaredAdd(u: Vector2, w: Vector2)
    ensures LengthSquared(Add(u, w)) == LengthSquared(u) + 2.0 * Dot(u, w) + LengthSquared(w)
  {
  }

  /**
   * The squared gap at (u, v) is the squared gap at (s, t), plus the
   * first-order change along both parameters, whose slopes at (s, t) are
   * gs = c + a s - b t and gt = e t - b s - f, plus a square.
   */
  lemma GapExpansion(p1: Vector2, q1: Vector2, p2: Vector2, q2: Vector2, k: Terms, s: real, t: real, u: real, v: real, gs: real, gt: real)
    requires k == TermsOf(p1, q1, p2, q2) && gs == k.c + k.a * s - k.b * t && gt == k.e * t - k.b * s - k.f
    ensures Gap(p1, q1, p2, q2, u, v) ==
              Gap(p1, q1, p2, q2, s, t) + 2.0 * ((u - s) * gs) + 2.0 * ((v - t) * gt) +
              LengthSquared(Sub(Scale(u - s, Sub(q1, p1)), Scale(v - t, Sub(q2, p2))))
  {
    var d1, d2, r := Sub(q1, p1), Sub(q2, p2), Sub(p1, p2);
    var g0 := Sub(At(p1, d1, s), At(p2, d2, t));
    var w := Sub(Scale(u - s, d1), Scale(v - t, d2));
    assert Sub(At(p1, d1, u), At(p2, d2, v)) == Add(g0, w);
    LengthSquaredAdd(g0, w);
    DotSub(g0, Scale(u - s, d1), Scale(v - t, d2));
    DotScale(g0, u - s, d1);
    DotScale(g0, v - t, d2);
    assert g0 == Add(r, Sub(Scale(s, d1), Scale(t, d2)));
    DotCombination(g0, r, d1, d2, d1, s, t);
    DotCombination(g0, r, d1, d2, d2, s, t);
    DotSymmetric(d2, d1);
  }

  /** The product of r + s d1 - t d2 with d. */
  lemma DotCombination(g: Vector2, r: Vector2, d1: Vector2, d2: Vector2, d: Vector2, s: real, t: real)
    requires g == Add(r, Sub(Scale(s, d1), Scale(t, d2)))
    ensures Dot(g, d) == Dot(d, r) + s * Dot(d, d1) - t * Dot(d, d2)
  {
  }

  /** Parameters stationary in both s and t give the smallest squared gap of the two segments. */
  lemma StationaryMinimal(p1: Vector2, q1: Vector2, p2: Vector2, q2: Vector2, s: real, t: real, u: real, v: real)
    requires Critical(TermsOf(p1, q1, p2, q2), s, t)
    requires 0.0 <= u <= 1.0 && 0.0 <= v <= 1.0
    ensures Gap(p1, q1, p2, q2, s, t) <= Gap(p1, q1, p2, q2, u, v)
  {
    var k := TermsOf(p1, q1, p2, q2);
    var gs, gt := k.c + k.a * s - k.b * t, k.e * t - k.b * s - k.f;
    CriticalSlopes(k, s, t, u, v, gs, gt);
    GapBelow(p1, q1, p2, q2, k, s, t, u, v, gs, gt);
  }

  /** At critical parameters, moving to any (u, v) of the unit square changes the gap by a non-negative first-order amount. */
  lemma CriticalSlopes(k: Terms, s: real, t: real, u: real, v: real, gs: real, gt: real)
    requires Critical(k, s, t) && 0.0 <= u <= 1.0 && 0.0 <= v <= 1.0
    requires gs == k.c + k.a * s - k.b * t && gt == k.e * t - k.b * s - k.f
    ensures (u - s) * gs >= 0.0 && (v - t) * gt >= 0.0
  {
    StationaryProduct(s, gs, u);
    StationaryProduct(t, gt, v);
  }

  /** The squared gap at (u, v) is at least that at (s, t) when both first-order changes are not negative. */
  lemma GapBelow(p1: Vector2, q1: Vector2, p2: Vector2, q2: Vector2, k: Terms, s: real, t: real, u: real, v: real, gs: real, gt: real)
    requires k == TermsOf(p1, q1, p2, q2) && gs == k.c + k.a * s - k.b * t && gt == k.e * t - k.b * s - k.f
    requires (u - s) * gs >= 0.0 && (v - t) * gt >= 0.0
    ensures Gap(p1, q1, p2, q2, s, t) <= Gap(p1, q1, p2, q2, u, v)
  {
    var w := Sub(Scale(u - s, Sub(q1, p1)), Scale(v - t, Sub(q2, p2)));
    GapExpansion(p1, q1, p2, q2, k, s, t, u, v, gs, gt);
    LengthSquaredZero(w);
    IncreaseBelow(Gap(p1, q1, p2, q2, u, v), Gap(p1, q1, p2, q2, s, t), (u - s) * gs, (v - t) * gt, LengthSquared(w));
  }

  /** A value plus non-negative terms is at least the value. */
  lemma IncreaseBelow(total: real, base: real, x: real, y: real, z: real)
    requires total == base + 2.0 * x + 2.0 * y + z && x >= 0.0 && y >= 0.0 && z >= 0.0
    ensures base <= total
  {
  }

  lemma SquaredLength(u: Vector2, w: Vector2)
    requires u == w
    ensures Dot(u, w) >= 0.0
  {
    SumOfEqualProductsNonNegative(u.x, u.y, w.x, w.y);
  }

  // ---- What DistanceSquaredSegmentSegment computes ----

  /** The result is the squared distance of one point of each segment. */
  lemma DistanceAttained(p1: Vector2, q1: Vector2, p2: Vector2, q2: Vector2) returns (s: real, t: real)
    ensures 0.0 <= s <= 1.0 && 0.0 <= t <= 1.0
    ensures DistanceSquaredSegmentSegment(p1, q1, p2, q2) == Gap(p1, q1, p2, q2, s, t)
  {
    match Solve(TermsOf(p1, q1, p2, q2))
    case BothPoints =>
      s, t := 0.0, 0.0;
      assert Sub(At(p1, Sub(q1, p1), 0.0), At(p2, Sub(q2, p2), 0.0)) == Sub(p1, p2);
    case Parameters(s0, t0) =>
      s, t := s0, t0;
  }

  /** With both segments of length zero, every pair of parameters gives the gap between the start points. */
  lemma PointGap(p1: Vector2, q1: Vector2, p2: Vector2, q2: Vector2, u: real, v: real)
    requires LengthSquared(Sub(q1, p1)) == 0.0 && LengthSquared(Sub(q2, p2)) == 0.0
    ensures Gap(p1, q1, p2, q2, u, v) == LengthSquared(Sub(p1, p2))
  {
    assert At(p1, Sub(q1, p1), u) == p1 by { NullVector(Sub(q1, p1)); AtNull(p1, Sub(q1, p1), u); }
    assert At(p2, Sub(q2, p2), v) == p2 by { NullVector(Sub(q2, p2)); AtNull(p2, Sub(q2, p2), v); }
  }

  lemma AtNull(p: Vector2, d: Vector2, s: real)
    requires d.x == 0.0 && d.y == 0.0
    ensures At(p, d, s) == p
  {
  }

  /** A vector of squared length zero has zero components. */
  lemma NullVector(d: Vector2)
    requires LengthSquared(d) == 0.0
    ensures d.x == 0.0 && d.y == 0.0
  {
    if d.x != 0.0 || d.y != 0.0 {
      SumOfEqualProductsPositive(d.x, d.y, d.x, d.y);
    }
  }

  /** Unless a segment is shorter than float.Epsilon without being a point, no two points of the segments are closer. */
  lemma DistanceMinimal(p1: Vector2, q1: Vector2, p2: Vector2, q2: Vector2, u: real, v: real)
    requires Measured(TermsOf(p1, q1, p2, q2))
    requires 0.0 <= u <= 1.0 && 0.0 <= v <= 1.0
    ensures DistanceSquaredSegmentSegment(p1, q1, p2, q2) <= Gap(p1, q1, p2, q2, u, v)
  {
    var k := TermsOf(p1, q1, p2, q2);
    TermsRealizable(p1, q1, p2, q2);
    match Solve(k)
    case BothPoints =>
      PointGap(p1, q1, p2, q2, u, v);
    case Parameters(s, t) =>
      SolveStationary(k);
      StationaryMinimal(p1, q1, p2, q2, s, t, u, v);
  }

  /** When both segments have zero length the result is |p1 - p2|^2. */
  lemma PointsDistance(p1: Vector2, p2: Vector2)
    ensures DistanceSquaredSegmentSegment(p1, p1, p2, p2) == LengthSquared(Sub(p1, p2))
  {
    var k := TermsOf(p1, p1, p2, p2);
    SelfLength(p1);
    SelfLength(p2);
    SolvePoints(k);
  }

  lemma SolvePoints(k: Terms)
    requires k.a == 0.0 && k.e == 0.0
    ensures Solve(k) == BothPoints
  {
  }

  /** The segment from a point to itself has squared length zero. */
  lemma SelfLength(p: Vector2)
    ensures LengthSquared(Sub(p, p)) == 0.0
  {
    assert Sub(p, p) == Vector2(0.0, 0.0);
  }

  /**
   * Parallel segments of positive length (a e = b^2) start from s = 0, so
   * when p1 projects inside the second segment the closest points are p1
   * and its projection at t = f / e.
   */
  lemma ParallelStart(k: Terms)
    requires k.a > Transforms.FloatEpsilon && k.e > Transforms.FloatEpsilon && Denominator(k) == 0.0
    ensures First(k) == 0.0
    ensures 0.0 <= k.f / k.e <= 1.0 ==> Solve(k) == Parameters(0.0, k.f / k.e)
  {
  }

  // ---- Intersection ----

  /** The point at s of a's segment lies within a.r + b.r of the point at t of b's segment. */
  predicate Touching(a: Capsule, b: Capsule, s: real, t: real) {
    0.0 <= s <= 1.0 && 0.0 <= t <= 1.0 && Gap(a.a, a.b, b.a, b.b, s, t) <= (a.r + b.r) * (a.r + b.r)
  }

  /** Some point of one segment lies within a.r + b.r of some point of the other: the swept discs meet. */
  ghost predicate Overlap(a: Capsule, b: Capsule) {
    exists s, t :: Touching(a, b, s, t)
  }

  /** Intersection never reports capsules whose segments stay farther apart than a.r + b.r. */
  lemma IntersectionSound(a: Capsule, b: Capsule)
    ensures Intersection(a, b) ==> Overlap(a, b)
  {
    var s, t := DistanceAttained(a.a, a.b, b.a, b.b);
    IntersectionBound(a, b);
    if Intersection(a, b) {
      assert Touching(a, b, s, t);
    }
  }

  /** For measured segments, Intersection holds exactly when the swept discs meet. */
  lemma IntersectionExact(a: Capsule, b: Capsule)
    requires Measured(TermsOf(a.a, a.b, b.a, b.b))
    ensures Intersection(a, b) <==> Overlap(a, b)
  {
    IntersectionSound(a, b);
    if Overlap(a, b) {
      var s, t :| Touching(a, b, s, t);
      DistanceMinimal(a.a, a.b, b.a, b.b, s, t);
      IntersectionBound(a, b);
    }
  }

  /** Intersection compares the squared segment distance with the squared sum of the radii. */
  lemma IntersectionBound(a: Capsule, b: Capsule)
    ensures Intersection(a, b) <==> DistanceSquaredSegmentSegment(a.a, a.b, b.a, b.b) <= (a.r + b.r) * (a.r + b.r)
  {
  }

  /** The gap does not depend on which segment comes first. */
  lemma GapSwap(p1: Vector2, q1: Vector2, p2: Vector2, q2: Vector2, s: real, t: real)
    ensures Gap(p2, q2, p1, q1, t, s) == Gap(p1, q1, p2, q2, s, t)
  {
    var g := Sub(At(p1, Sub(q1, p1), s), At(p2, Sub(q2, p2), t));
    assert Sub(At(p2, Sub(q2, p2), t), At(p1, Sub(q1, p1), s)) == Neg(g);
    LengthSquaredNeg(g);
  }

  /** Overlap does not depend on which capsule comes first. */
  lemma OverlapSwap(a: Capsule, b: Capsule)
    requires Overlap(a, b)
    ensures Overlap(b, a)
  {
    var s, t :| Touching(a, b, s, t);
    GapSwap(a.a, a.b, b.a, b.b, s, t);
    assert (b.r + a.r) * (b.r + a.r) == (a.r + b.r) * (a.r + b.r);
    assert Touching(b, a, t, s);
  }

  /** Swapping the segments swaps a and e, so being measured does not depend on the order. */
  lemma MeasuredSwap(p1: Vector2, q1: Vector2, p2: Vector2, q2: Vector2)
    requires Measured(TermsOf(p1, q1, p2, q2))
    ensures Measured(TermsOf(p2, q2, p1, q1))
  {
    assert TermsOf(p2, q2, p1, q1).a == TermsOf(p1, q1, p2, q2).e;
    assert TermsOf(p2, q2, p1, q1).e == TermsOf(p1, q1, p2, q2).a;
  }

  /** For measured segments the argument order does not matter. */
  lemma IntersectionSymmetric(a: Capsule, b: Capsule)
    requires Measured(TermsOf(a.a, a.b, b.a, b.b))
    ensures Intersection(a, b) == Intersection(b, a)
  {
    IntersectionExact(a, b);
    MeasuredSwap(a.a, a.b, b.a, b.b);
    IntersectionExact(b, a);
    if Overlap(a, b) {
      OverlapSwap(a, b);
    }
    if Overlap(b, a) {
      OverlapSwap(b, a);
    }
  }
}
