// The signed-volumes distance sub-algorithm of GJK (van den Bergen, 2003):
// given a simplex of one to three points of the Minkowski difference, find the
// smallest sub-simplex that holds the point closest to the origin, and that
// point's barycentric weights. S1D handles a segment, S2D a triangle, and
// DistanceSv dispatches on the vertex count. The routines write the point and
// weight spans and the vertex count in place, so they are methods over arrays,
// each proved against a function on sequences.

module SignedVolumes {
  import opened Vectors
  import MathHelper

  /** float.MaxValue, (2 - 2^-23) * 2^127, written out. */
  const FloatMax: real := 340282346638528859811704183484516925440.0

  /** IsSameSign: both strictly positive or both strictly negative. */
  function IsSameSign(a: real, b: real): bool {
    (a > 0.0 && b > 0.0) || (a < 0.0 && b < 0.0)
  }

  /** Two numbers have the same sign exactly when their product is positive; zero has no sign. */
  lemma IsSameSignProduct(a: real, b: real)
    ensures IsSameSign(a, b) <==> a * b > 0.0
    ensures IsSameSign(a, b) == IsSameSign(b, a)
    ensures a == 0.0 || b == 0.0 ==> !IsSameSign(a, b)
  {
    if a > 0.0 && b > 0.0 {
      MulPositive(a, b);
    } else if a < 0.0 && b < 0.0 {
      MulPositive(-a, -b);
    } else if a > 0.0 && b < 0.0 {
      MulPositive(a, -b);
    } else if a < 0.0 && b > 0.0 {
      MulPositive(-a, b);
    }
  }

  lemma MulPositive(a: real, b: real)
    requires a > 0.0 && b > 0.0
    ensures a * b > 0.0 && (-a) * b < 0.0 && a * (-b) < 0.0 && (-a) * (-b) > 0.0
  {
  }

  /** x or y, as the source's two-element component spans are indexed. */
  function Component(v: Vector2, i: int): real {
    if i == 0 then v.x else v.y
  }

  // ---- S1D: a segment ----

  /**
   * The parameter of the foot of the perpendicular from the origin to the line
   * through s1 and s2, s1 + mu (s2 - s1). The source divides by |s2 - s1|^2;
   * for coincident points, where that gives NaN, the model takes 0.
   */
  function Mu(s1: Vector2, s2: Vector2): real {
    var tx, ty := s2.x - s1.x, s2.y - s1.y;
    var lt := tx * tx + ty * ty;
    if lt == 0.0 then 0.0 else (-s1.x * tx + -s1.y * ty) / lt
  }

  /** Mu in the source's vector terms: Dot(-s1, t) / |t|^2 with t = s2 - s1. */
  lemma MuDot(s1: Vector2, s2: Vector2)
    ensures var t := Sub(s2, s1);
            Mu(s1, s2) == if LengthSquared(t) == 0.0 then 0.0 else Dot(Neg(s1), t) / LengthSquared(t)
  {
  }

  /** The foot of the perpendicular, po in the source. */
  function Projection(s1: Vector2, s2: Vector2): Vector2 {
    Add(Scale(Mu(s1, s2), Sub(s2, s1)), s1)
  }

  /** What S1D decides: keep one point, or keep both with these weights. */
  datatype Reduced1 = One(point: Vector2) | Two(l0: real, l1: real)

  /**
   * The reference definition of S1D: the end s2 when the foot lies at or
   * beyond it (or the points coincide), the end s1 when the foot lies at or
   * before it, and otherwise both ends weighted so that they give the foot.
   */
  function Reduce1(s1: Vector2, s2: Vector2): Reduced1 {
    var mu := Mu(s1, s2);
    if s1 == s2 || mu >= 1.0 then One(s2)
    else if mu <= 0.0 then One(s1)
    else Two(1.0 - mu, mu)
  }

  /** The point a reduction stands for: the kept point, or the weighted sum of both. */
  function Witness1(r: Reduced1, s1: Vector2, s2: Vector2): Vector2 {
    match r
    case One(p) => p
    case Two(l0, l1) => Add(Scale(l0, s1), Scale(l1, s2))
  }

  /** The closest point of the segment s1..s2 to the origin: the foot, clamped to the segment. */
  function Closest(s1: Vector2, s2: Vector2): Vector2 {
    Add(s1, Scale(MathHelper.Clamp(Mu(s1, s2), 0.0, 1.0), Sub(s2, s1)))
  }

  /** A point with weights, the simplex state the routines update: w, lambda and vertexCount. */
  datatype Simplex = Simplex(w: seq<Vector2>, lambda: seq<real>, count: int)

  /** The state after S1D on the first two points of st. */
  function Apply1(st: Simplex, r: Reduced1): Simplex
    requires |st.w| >= 1 && |st.lambda| >= 2
  {
    match r
    case One(p) => Simplex(st.w[0 := p], st.lambda[0 := 1.0], 1)
    case Two(l0, l1) => Simplex(st.w, st.lambda[0 := l0][1 := l1], 2)
  }

  /**
   * S1D. The larger component of s1 - s2 is the reference axis; the signs of
   * the two cofactors along it say on which side of each end the foot lies.
   */
  method S1D(w: array<Vector2>, lambda: array<real>) returns (vertexCount: int)
    requires w.Length >= 2 && lambda.Length >= 2
    modifies w, lambda
    ensures Simplex(w[..], lambda[..], vertexCount) == Apply1(Simplex(old(w[..]), old(lambda[..]), 2), Reduce1(old(w[0]), old(w[1])))
  {
    var s1 := w[0];
    var s2 := w[1];
    // The source divides by |s2 - s1|^2 here; Projection takes the coincident case apart.
    var po := Projection(s1, s2);
    var s2S1 := Sub(s1, s2);
    var componentIndex := 0;
    var miuMax := s2S1.x;
    if Abs(s2S1.y) > Abs(s2S1.x) {
      componentIndex := 1;
      miuMax := s2S1.y;
    }
    var cofactor1 := Component(po, componentIndex) - Component(s2, componentIndex);
    var cofactor2 := Component(s1, componentIndex) - Component(po, componentIndex);
    Decision(s1, s2, componentIndex, miuMax, cofactor1, cofactor2);

    if !IsSameSign(miuMax, cofactor1) {
      w[0] := s2;
      lambda[0] := 1.0;
      vertexCount := 1;
      return;
    }

    if !IsSameSign(miuMax, cofactor2) {
      lambda[0] := 1.0;
      vertexCount := 1;
      return;
    }

    lambda[0] := cofactor1 / miuMax;
    lambda[1] := cofactor2 / miuMax;
    vertexCount := 2;
  }

  /** The sign tests of S1D decide exactly as Reduce1 does. */
  lemma Decision(s1: Vector2, s2: Vector2, i: int, m: real, c1: real, c2: real)
    requires i == (if Abs(Sub(s1, s2).y) > Abs(Sub(s1, s2).x) then 1 else 0)
    requires m == Component(Sub(s1, s2), i)
    requires c1 == Component(Projection(s1, s2), i) - Component(s2, i)
    requires c2 == Component(s1, i) - Component(Projection(s1, s2), i)
    ensures !IsSameSign(m, c1) ==> Reduce1(s1, s2) == One(s2)
    ensures IsSameSign(m, c1) && !IsSameSign(m, c2) ==> Reduce1(s1, s2) == One(s1)
    ensures IsSameSign(m, c1) && IsSameSign(m, c2) ==> m != 0.0 && Reduce1(s1, s2) == Two(c1 / m, c2 / m)
  {
    var mu := Mu(s1, s2);
    CofactorMeaning(s1, s2, i, m, c1, c2);
    ReferenceAxisZero(s1, s2, i, m);
    SignTests(m, mu, c1, c2);
  }

  /** The sign tests on plain numbers: c1 = (1 - mu) m and c2 = mu m. */
  lemma SignTests(m: real, mu: real, c1: real, c2: real)
    requires c1 == (1.0 - mu) * m && c2 == mu * m
    ensures !IsSameSign(m, c1) <==> m == 0.0 || mu >= 1.0
    ensures IsSameSign(m, c1) && !IsSameSign(m, c2) <==> m != 0.0 && mu < 1.0 && mu <= 0.0
    ensures IsSameSign(m, c1) && IsSameSign(m, c2) ==> c1 / m == 1.0 - mu && c2 / m == mu
  {
    SameSignScaled(m, 1.0 - mu, c1);
    SameSignScaled(m, mu, c2);
    if m != 0.0 {
      DivScaled(c1, 1.0 - mu, m);
      DivScaled(c2, mu, m);
    }
  }

  /** The cofactors measure the distances from the foot to each end along the reference axis. */
  lemma CofactorMeaning(s1: Vector2, s2: Vector2, i: int, m: real, c1: real, c2: real)
    requires i == 0 || i == 1
    requires m == Component(Sub(s1, s2), i)
    requires c1 == Component(Projection(s1, s2), i) - Component(s2, i)
    requires c2 == Component(s1, i) - Component(Projection(s1, s2), i)
    ensures c1 == (1.0 - Mu(s1, s2)) * m && c2 == Mu(s1, s2) * m
  {
    var mu := Mu(s1, s2);
    var a := Component(s1, i);
    var b := Component(s2, i);
    var p := Component(Projection(s1, s2), i);
    assert p == mu * (b - a) + a;
    assert m == a - b;
    FootOnAxis(mu, a, b, p, c1, c2);
  }

  lemma FootOnAxis(mu: real, a: real, b: real, p: real, c1: real, c2: real)
    requires p == mu * (b - a) + a && c1 == p - b && c2 == a - p
    ensures c1 == (1.0 - mu) * (a - b) && c2 == mu * (a - b)
  {
  }

  /** The reference axis component is zero exactly when the points coincide. */
  lemma ReferenceAxisZero(s1: Vector2, s2: Vector2, i: int, m: real)
    requires i == (if Abs(Sub(s1, s2).y) > Abs(Sub(s1, s2).x) then 1 else 0)
    requires m == Component(Sub(s1, s2), i)
    ensures m == 0.0 <==> s1 == s2
  {
  }

  /** m and k m share a sign exactly when m is non-zero and k positive. */
  lemma SameSignScaled(m: real, k: real, c: real)
    requires c == k * m
    ensures IsSameSign(m, c) <==> m != 0.0 && k > 0.0
  {
    IsSameSignProduct(m, c);
    if m != 0.0 && k > 0.0 {
      if m > 0.0 { MulPositive(k, m); } else { MulPositive(k, -m); }
    } else if m != 0.0 && k < 0.0 {
      if m > 0.0 { MulPositive(-k, m); } else { MulPositive(-k, -m); }
    }
  }

  lemma DivScaled(c: real, k: real, m: real)
    requires m != 0.0 && c == k * m
    ensures c / m == k
  {
  }

  // ---- Properties of S1D ----

  /** The point S1D stands for is the closest point of the segment to the origin. */
  lemma Reduce1Witness(s1: Vector2, s2: Vector2)
    ensures Witness1(Reduce1(s1, s2), s1, s2) == Closest(s1, s2)
  {
    var mu := Mu(s1, s2);
    var t := Sub(s2, s1);
    if s1 == s2 {
      assert t == Zero;
    } else if mu >= 1.0 {
      assert MathHelper.Clamp(mu, 0.0, 1.0) == 1.0;
    } else if mu <= 0.0 {
      assert MathHelper.Clamp(mu, 0.0, 1.0) == 0.0;
    } else {
      assert MathHelper.Clamp(mu, 0.0, 1.0) == mu;
      Interpolate(mu, s1.x, s2.x);
      Interpolate(mu, s1.y, s2.y);
    }
  }

  lemma Interpolate(mu: real, a: real, b: real)
    ensures (1.0 - mu) * a + mu * b == a + mu * (b - a)
  {
  }

  /** When both points are kept, the weights are positive and sum to 1, and their point is the foot. */
  lemma Reduce1Weights(s1: Vector2, s2: Vector2)
    ensures Reduce1(s1, s2).Two? ==>
              && Reduce1(s1, s2).l0 > 0.0 && Reduce1(s1, s2).l1 > 0.0
              && Reduce1(s1, s2).l0 + Reduce1(s1, s2).l1 == 1.0
              && Witness1(Reduce1(s1, s2), s1, s2) == Projection(s1, s2)
    ensures Reduce1(s1, s2).One? ==> Reduce1(s1, s2).point == s1 || Reduce1(s1, s2).point == s2
  {
    if Reduce1(s1, s2).Two? {
      Reduce1Witness(s1, s2);
      assert MathHelper.Clamp(Mu(s1, s2), 0.0, 1.0) == Mu(s1, s2);
    }
  }

  /** The foot of the perpendicular is perpendicular: the segment's direction is orthogonal to it. */
  lemma ProjectionOrthogonal(s1: Vector2, s2: Vector2)
    requires s1 != s2
    ensures Dot(Projection(s1, s2), Sub(s2, s1)) == 0.0
  {
    var t := Sub(s2, s1);
    var mu := Mu(s1, s2);
    LengthSquaredZero(t);
    assert t != Zero;
    DotAdd(t, Scale(mu, t), s1);
    DotScale(t, mu, t);
    DotNeg(t, s1);
    DotSymmetric(t, s1);
    DotSymmetric(t, Projection(s1, s2));
    assert LengthSquared(t) == Dot(t, t);
    CancelQuotient(Dot(s1, t), LengthSquared(t), mu);
  }

  lemma CancelQuotient(a: real, l: real, mu: real)
    requires l != 0.0 && mu == -a / l
    ensures mu * l + a == 0.0
  {
  }

  /** A point s1 + sigma (s2 - s1) of the segment. */
  function OnSegment(s1: Vector2, s2: Vector2, sigma: real): Vector2 {
    Add(s1, Scale(sigma, Sub(s2, s1)))
  }

  /** No point of the segment is closer to the origin than Closest. */
  lemma ClosestMinimal(s1: Vector2, s2: Vector2, sigma: real)
    requires 0.0 <= sigma <= 1.0
    ensures LengthSquared(Closest(s1, s2)) <= LengthSquared(OnSegment(s1, s2, sigma))
  {
    var t := Sub(s2, s1);
    if t == Zero {
      assert OnSegment(s1, s2, sigma) == s1;
      assert Closest(s1, s2) == s1;
    } else {
      var mu := Mu(s1, s2);
      var c := MathHelper.Clamp(mu, 0.0, 1.0);
      var a := Dot(s1, t);
      var l := LengthSquared(t);
      LengthSquaredZero(t);
      DotNeg(s1, t);
      assert Dot(Neg(s1), t) == -a;
      CancelQuotient(a, l, mu);
      var q := OnSegment(s1, s2, sigma);
      var p := OnSegment(s1, s2, c);
      assert Closest(s1, s2) == p;
      LengthAlong(s1, t, sigma, q, a, l);
      LengthAlong(s1, t, c, p, a, l);
      QuadraticCompare(LengthSquared(q), LengthSquared(p), LengthSquared(s1), a, l, mu, c, sigma);
    }
  }

  /** |s1 + k t|^2 expanded. */
  lemma LengthAlong(s1: Vector2, t: Vector2, k: real, q: Vector2, a: real, l: real)
    requires q == Add(s1, Scale(k, t)) && a == Dot(s1, t) && l == LengthSquared(t)
    ensures LengthSquared(q) == LengthSquared(s1) + 2.0 * k * a + k * k * l
  {
    assert q.x == s1.x + k * t.x && q.y == s1.y + k * t.y;
  }

  /** The quadratic |s1 + k t|^2 in k, on plain numbers, is no smaller at sigma than at the clamped minimiser c. */
  lemma QuadraticCompare(lq: real, lp: real, l1: real, a: real, l: real, mu: real, c: real, sigma: real)
    requires lq == l1 + 2.0 * sigma * a + sigma * sigma * l && lp == l1 + 2.0 * c * a + c * c * l
    requires l > 0.0 && mu * l + a == 0.0
    requires c == MathHelper.Clamp(mu, 0.0, 1.0)
    requires 0.0 <= sigma <= 1.0
    ensures lp <= lq
  {
    QuadraticDifference(lq, lp, l1, a, l, sigma, c);
    QuadraticMinimum(a, l, mu, c, sigma);
  }

  /** The difference of two values of the quadratic, factored, on plain numbers. */
  lemma QuadraticDifference(lq: real, lp: real, l1: real, a: real, l: real, sigma: real, c: real)
    requires lq == l1 + 2.0 * sigma * a + sigma * sigma * l && lp == l1 + 2.0 * c * a + c * c * l
    ensures lq - lp == (sigma - c) * (2.0 * a + l * (sigma + c))
  {
  }

  /** The quadratic a 2 sigma + l sigma^2 over [0, 1] is smallest at the clamped vertex c. */
  lemma QuadraticMinimum(a: real, l: real, mu: real, c: real, sigma: real)
    requires l > 0.0 && mu * l + a == 0.0
    requires c == MathHelper.Clamp(mu, 0.0, 1.0)
    requires 0.0 <= sigma <= 1.0
    ensures (sigma - c) * (2.0 * a + l * (sigma + c)) >= 0.0
  {
    assert 2.0 * a + l * (sigma + c) == l * (sigma + c - 2.0 * mu);
    var u := sigma - c;
    var v := l * (sigma + c - 2.0 * mu);
    if mu >= 1.0 {
      assert c == 1.0;
      NonPositiveProduct(u, v, l, sigma + c - 2.0 * mu);
    } else if mu <= 0.0 {
      assert c == 0.0;
      NonNegativeProduct(u, v, l, sigma + c - 2.0 * mu);
    } else if sigma >= mu {
      assert c == mu;
      NonNegativeProduct(u, v, l, sigma + c - 2.0 * mu);
    } else {
      assert c == mu;
      NonPositiveProduct(u, v, l, sigma + c - 2.0 * mu);
    }
  }

  lemma NonNegativeProduct(u: real, v: real, l: real, z: real)
    requires u >= 0.0 && l > 0.0 && z >= 0.0 && v == l * z
    ensures u * v >= 0.0
  {
    ProductNonNegative(l, z);
    ProductNonNegative(u, v);
  }

  lemma NonPositiveProduct(u: real, v: real, l: real, z: real)
    requires u <= 0.0 && l > 0.0 && z <= 0.0 && v == l * z
    ensures u * v >= 0.0
  {
    ProductNonNegative(l, -z);
    ProductNonNegative(-u, -v);
  }

  // ---- S2D: a triangle ----

  /** The 2D cross product a.x b.y - b.x a.y, the signed double area of the triangle O, a, b. */
  function Cross(a: Vector2, b: Vector2): real {
    a.x * b.y - b.x * a.y
  }

  /** The origin lies strictly inside the triangle: each cofactor has the sign of their sum. */
  predicate Interior(s1: Vector2, s2: Vector2, s3: Vector2) {
    var det := Cross(s2, s3) + Cross(s3, s1) + Cross(s1, s2);
    IsSameSign(det, Cross(s2, s3)) && IsSameSign(det, Cross(s3, s1)) && IsSameSign(det, Cross(s1, s2))
  }

  /** lambda[0] w[0] + ... + lambda[n-1] w[n-1], summed from Zero in index order. */
  function Weighted(p: seq<Vector2>, l: seq<real>, n: nat): Vector2
    requires n <= |p| && n <= |l|
  {
    if n == 0 then Zero else Add(Weighted(p, l, n - 1), Scale(l[n - 1], p[n - 1]))
  }

  /** The point a simplex state stands for. */
  function Witness(st: Simplex): Vector2
    requires 0 <= st.count <= |st.w| && st.count <= |st.lambda|
  {
    Weighted(st.w, st.lambda, st.count)
  }

  /** The points S1D keeps of the edge a..b. */
  function EdgePoints(a: Vector2, b: Vector2, r: Reduced1): seq<Vector2> {
    match r
    case One(p) => [p]
    case Two(_, _) => [a, b]
  }

  /** The weights S1D gives them. */
  function EdgeWeights(r: Reduced1): seq<real> {
    match r
    case One(_) => [1.0]
    case Two(l0, l1) => [l0, l1]
  }

  /** The squared distance from the origin of the point S1D finds on the edge a..b. */
  function EdgeDistance(a: Vector2, b: Vector2): real {
    LengthSquared(Witness1(Reduce1(a, b), a, b))
  }

  /** The state of S2D between edges: the simplex so far and the smallest squared distance met. */
  datatype Attempt = Attempt(st: Simplex, best: real)

  /**
   * One edge of S2D: run S1D on a..b and, when its point is strictly closer
   * than the best so far, copy its points and weights over the front of the
   * spans and take its vertex count.
   */
  function Offer(at: Attempt, a: Vector2, b: Vector2): (r: Attempt)
    requires |at.st.w| >= 2 && |at.st.lambda| >= 2
    ensures |r.st.w| == |at.st.w| && |r.st.lambda| == |at.st.lambda|
  {
    var red := Reduce1(a, b);
    var pts := EdgePoints(a, b, red);
    var d := EdgeDistance(a, b);
    if d < at.best then
      Attempt(Simplex(pts + at.st.w[|pts|..], EdgeWeights(red) + at.st.lambda[|pts|..], |pts|), d)
    else at
  }

  /**
   * The reference definition of S2D, with the three corners read once, before
   * any edge writes the spans. Inside the triangle the weights are the
   * cofactors over their sum; otherwise each edge whose opposite cofactor
   * disagrees in sign is offered, (s2, s3), (s1, s3), (s1, s2) in that order,
   * starting from float.MaxValue. S2D is entered with vertexCount 3, which
   * stays when no edge is taken.
   */
  function Reduce2(w: seq<Vector2>, lambda: seq<real>): Simplex
    requires |w| >= 3 && |lambda| >= 3
  {
    var s1, s2, s3 := w[0], w[1], w[2];
    var c1, c2, c3 := Cross(s2, s3), Cross(s3, s1), Cross(s1, s2);
    var det := c1 + c2 + c3;
    if Interior(s1, s2, s3) then
      Simplex(w, lambda[0 := c1 / det][1 := c2 / det][2 := c3 / det], 3)
    else
      var a0 := Attempt(Simplex(w, lambda, 3), FloatMax);
      var a1 := if !IsSameSign(det, c1) then Offer(a0, s2, s3) else a0;
      var a2 := if !IsSameSign(det, c2) then Offer(a1, s1, s3) else a1;
      var a3 := if !IsSameSign(det, c3) then Offer(a2, s1, s2) else a2;
      a3.st
  }

  /**
   * S2D as the source writes it: s1, s2 and s3 are references into the span,
   * so the second and third edges read the corners the earlier edges may
   * already have overwritten.
   */
  function Reduce2AsWritten(w: seq<Vector2>, lambda: seq<real>): Simplex
    requires |w| >= 3 && |lambda| >= 3
  {
    var s1, s2, s3 := w[0], w[1], w[2];
    var c1, c2, c3 := Cross(s2, s3), Cross(s3, s1), Cross(s1, s2);
    var det := c1 + c2 + c3;
    if Interior(s1, s2, s3) then
      Simplex(w, lambda[0 := c1 / det][1 := c2 / det][2 := c3 / det], 3)
    else
      var a0 := Attempt(Simplex(w, lambda, 3), FloatMax);
      var a1 := if !IsSameSign(det, c1) then Offer(a0, s2, s3) else a0;
      var a2 := if !IsSameSign(det, c2) then Offer(a1, a1.st.w[0], a1.st.w[2]) else a1;
      var a3 := if !IsSameSign(det, c3) then Offer(a2, a2.st.w[0], a2.st.w[1]) else a2;
      a3.st
  }

  /** Only the first n points and weights enter a weighted sum of n terms. */
  lemma {:induction false} WeightedPrefix(p: seq<Vector2>, l: seq<real>, n: nat, p': seq<Vector2>, l': seq<real>)
    requires n <= |p| && n <= |l| && n <= |p'| && n <= |l'|
    requires p[..n] == p'[..n] && l[..n] == l'[..n]
    ensures Weighted(p, l, n) == Weighted(p', l', n)
  {
    if n > 0 {
      assert p[..n - 1] == p'[..n - 1] && l[..n - 1] == l'[..n - 1] by {
        assert p[..n - 1] == p[..n][..n - 1] && p'[..n - 1] == p'[..n][..n - 1];
        assert l[..n - 1] == l[..n][..n - 1] && l'[..n - 1] == l'[..n][..n - 1];
      }
      assert p[n - 1] == p[..n][n - 1] == p'[n - 1];
      assert l[n - 1] == l[..n][n - 1] == l'[n - 1];
      WeightedPrefix(p, l, n - 1, p', l');
    }
  }

  /** S1D on the two-point span [a, b] leaves the edge's points and weights at its front. */
  lemma Apply1Edge(a: Vector2, b: Vector2, l: seq<real>, r: Reduced1, st: Simplex)
    requires |l| == 2 && st == Apply1(Simplex([a, b], l, 2), r)
    ensures st.count == |EdgePoints(a, b, r)| <= |st.w| == 2 && |st.lambda| == 2
    ensures st.w[..st.count] == EdgePoints(a, b, r) && st.lambda[..st.count] == EdgeWeights(r)
  {
  }

  /** The edge helper of S2D: S1D on a..b, the weighted sum, and the copy when it is closer. */
  method TryEdge(w: array<Vector2>, lambda: array<real>, tempW: array<Vector2>, tempLambda: array<real>,
                 a: Vector2, b: Vector2, vertexCount: int, minDistanceSquared: real)
      returns (newCount: int, newMin: real)
    requires w.Length >= 2 && lambda.Length >= 2 && tempW.Length == 2 && tempLambda.Length == 2
    requires tempW != w && tempLambda != lambda
    modifies w, lambda, tempW, tempLambda
    ensures Attempt(Simplex(w[..], lambda[..], newCount), newMin)
         == Offer(Attempt(Simplex(old(w[..]), old(lambda[..]), vertexCount), minDistanceSquared), a, b)
  {
    tempW[0] := a;
    tempW[1] := b;
    assert tempW[..] == [a, b];
    ghost var l0 := tempLambda[..];
    var tempCount := S1D(tempW, tempLambda);
    ghost var red := Reduce1(a, b);
    ghost var pts := EdgePoints(a, b, red);
    assert tempW[..tempCount] == pts && tempLambda[..tempCount] == EdgeWeights(red) by {
      Apply1Edge(a, b, l0, red, Simplex(tempW[..], tempLambda[..], tempCount));
    }
    var tempV := Zero;
    var i := 0;
    while i < tempCount
      invariant 0 <= i <= tempCount <= 2
      invariant tempV == Weighted(tempW[..], tempLambda[..], i)
    {
      tempV := Add(tempV, Scale(tempLambda[i], tempW[i]));
      i := i + 1;
    }
    WeightedPrefix(tempW[..], tempLambda[..], tempCount, pts, EdgeWeights(red));
    WeightedEdge(a, b, red);
    assert LengthSquared(tempV) == EdgeDistance(a, b);

    newCount, newMin := vertexCount, minDistanceSquared;
    var tempLengthSquared := LengthSquared(tempV);
    if tempLengthSquared < minDistanceSquared {
      newMin := tempLengthSquared;
      newCount := tempCount;
      CopyFront(w, lambda, tempW, tempLambda, tempCount);
    }
  }

  /** The copy loop of S2D: the first n temporary points and weights over the front of the spans. */
  method CopyFront(w: array<Vector2>, lambda: array<real>, tempW: array<Vector2>, tempLambda: array<real>, n: int)
    requires 0 <= n <= tempW.Length && n <= tempLambda.Length && n <= w.Length && n <= lambda.Length
    requires tempW != w && tempLambda != lambda
    modifies w, lambda
    ensures w[..] == tempW[..n] + old(w[..])[n..]
    ensures lambda[..] == tempLambda[..n] + old(lambda[..])[n..]
  {
    var i := 0;
    while i < n
      invariant 0 <= i <= n
      invariant forall k :: 0 <= k < i ==> w[k] == tempW[k] && lambda[k] == tempLambda[k]
      invariant forall k :: i <= k < w.Length ==> w[k] == old(w[k])
      invariant forall k :: i <= k < lambda.Length ==> lambda[k] == old(lambda[k])
    {
      w[i] := tempW[i];
      lambda[i] := tempLambda[i];
      i := i + 1;
    }
    assert w[..] == tempW[..n] + old(w[..])[n..];
    assert lambda[..] == tempLambda[..n] + old(lambda[..])[n..];
  }

  /** S2D with the corners read by value, specified by Reduce2. */
  method S2D(w: array<Vector2>, lambda: array<real>) returns (vertexCount: int)
    requires w.Length >= 3 && lambda.Length >= 3
    modifies w, lambda
    ensures Simplex(w[..], lambda[..], vertexCount) == Reduce2(old(w[..]), old(lambda[..]))
  {
    var s1, s2, s3 := w[0], w[1], w[2];
    var cofactor31 := Cross(s2, s3);
    var cofactor32 := Cross(s3, s1);
    var cofactor33 := Cross(s1, s2);
    var detM := cofactor31 + cofactor32 + cofactor33;
    var isSame1 := IsSameSign(detM, cofactor31);
    var isSame2 := IsSameSign(detM, cofactor32);
    var isSame3 := IsSameSign(detM, cofactor33);

    if isSame1 && isSame2 && isSame3 {
      lambda[0] := cofactor31 / detM;
      lambda[1] := cofactor32 / detM;
      lambda[2] := cofactor33 / detM;
      vertexCount := 3;
      return;
    }

    var tempW := new Vector2[2];
    var tempLambda := new real[2];
    var minDistanceSquared := FloatMax;
    vertexCount := 3;
    ghost var w0, l0 := w[..], lambda[..];
    ghost var at := Attempt(Simplex(w0, l0, 3), FloatMax);
    if !isSame1 {
      vertexCount, minDistanceSquared := TryEdge(w, lambda, tempW, tempLambda, s2, s3, vertexCount, minDistanceSquared);
      at := Offer(at, s2, s3);
    }
    assert at == Attempt(Simplex(w[..], lambda[..], vertexCount), minDistanceSquared);
    if !isSame2 {
      vertexCount, minDistanceSquared := TryEdge(w, lambda, tempW, tempLambda, s1, s3, vertexCount, minDistanceSquared);
      at := Offer(at, s1, s3);
    }
    assert at == Attempt(Simplex(w[..], lambda[..], vertexCount), minDistanceSquared);
    if !isSame3 {
      vertexCount, minDistanceSquared := TryEdge(w, lambda, tempW, tempLambda, s1, s2, vertexCount, minDistanceSquared);
      at := Offer(at, s1, s2);
    }
    assert at.st == Reduce2(w0, l0);
  }

  /** S2D as written, the corners re-read from the span for the second and third edges. */
  method S2DAsWritten(w: array<Vector2>, lambda: array<real>) returns (vertexCount: int)
    requires w.Length >= 3 && lambda.Length >= 3
    modifies w, lambda
    ensures Simplex(w[..], lambda[..], vertexCount) == Reduce2AsWritten(old(w[..]), old(lambda[..]))
  {
    var cofactor31 := Cross(w[1], w[2]);
    var cofactor32 := Cross(w[2], w[0]);
    var cofactor33 := Cross(w[0], w[1]);
    var detM := cofactor31 + cofactor32 + cofactor33;
    var isSame1 := IsSameSign(detM, cofactor31);
    var isSame2 := IsSameSign(detM, cofactor32);
    var isSame3 := IsSameSign(detM, cofactor33);

    if isSame1 && isSame2 && isSame3 {
      lambda[0] := cofactor31 / detM;
      lambda[1] := cofactor32 / detM;
      lambda[2] := cofactor33 / detM;
      vertexCount := 3;
      return;
    }

    var tempW := new Vector2[2];
    var tempLambda := new real[2];
    var minDistanceSquared := FloatMax;
    vertexCount := 3;
    ghost var w0, l0 := w[..], lambda[..];
    ghost var at := Attempt(Simplex(w0, l0, 3), FloatMax);
    if !isSame1 {
      vertexCount, minDistanceSquared := TryEdge(w, lambda, tempW, tempLambda, w[1], w[2], vertexCount, minDistanceSquared);
      at := Offer(at, w0[1], w0[2]);
    }
    assert at == Attempt(Simplex(w[..], lambda[..], vertexCount), minDistanceSquared);
    if !isSame2 {
      ghost var before := at;
      vertexCount, minDistanceSquared := TryEdge(w, lambda, tempW, tempLambda, w[0], w[2], vertexCount, minDistanceSquared);
      at := Offer(at, before.st.w[0], before.st.w[2]);
    }
    assert at == Attempt(Simplex(w[..], lambda[..], vertexCount), minDistanceSquared);
    if !isSame3 {
      ghost var before := at;
      vertexCount, minDistanceSquared := TryEdge(w, lambda, tempW, tempLambda, w[0], w[1], vertexCount, minDistanceSquared);
      at := Offer(at, before.st.w[0], before.st.w[1]);
    }
    assert at.st == Reduce2AsWritten(w0, l0);
  }

  // ---- Properties of S2D ----

  /** Inside the triangle the weights are positive, sum to 1, and weight the corners to the origin. */
  lemma Reduce2Interior(w: seq<Vector2>, lambda: seq<real>)
    requires |w| >= 3 && |lambda| >= 3 && Interior(w[0], w[1], w[2])
    ensures Reduce2(w, lambda).count == 3 && Reduce2(w, lambda).w == w
    ensures |Reduce2(w, lambda).lambda| == |lambda|
    ensures Reduce2(w, lambda).lambda[0] > 0.0 && Reduce2(w, lambda).lambda[1] > 0.0 && Reduce2(w, lambda).lambda[2] > 0.0
    ensures Reduce2(w, lambda).lambda[0] + Reduce2(w, lambda).lambda[1] + Reduce2(w, lambda).lambda[2] == 1.0
    ensures Witness(Reduce2(w, lambda)) == Zero
  {
    var s1, s2, s3 := w[0], w[1], w[2];
    var c1, c2, c3 := Cross(s2, s3), Cross(s3, s1), Cross(s1, s2);
    var det := c1 + c2 + c3;
    var l1, l2, l3 := c1 / det, c2 / det, c3 / det;
    var r := Reduce2(w, lambda);
    assert r == Simplex(w, lambda[0 := l1][1 := l2][2 := l3], 3);
    InteriorBarycentric(s1, s2, s3);
    ThreeAtOrigin(r, l1, l2, l3);
  }

  /** Three corners whose weights cancel in both coordinates are weighted to the origin. */
  lemma ThreeAtOrigin(r: Simplex, l1: real, l2: real, l3: real)
    requires r.count == 3 && |r.w| >= 3 && |r.lambda| >= 3
    requires r.lambda[0] == l1 && r.lambda[1] == l2 && r.lambda[2] == l3
    requires l1 * r.w[0].x + l2 * r.w[1].x + l3 * r.w[2].x == 0.0
    requires l1 * r.w[0].y + l2 * r.w[1].y + l3 * r.w[2].y == 0.0
    ensures Witness(r) == Zero
  {
    WeightedThree(r.w, r.lambda);
  }

  /** Inside the triangle the cofactor weights are positive, sum to 1 and weight the corners to the origin. */
  lemma InteriorBarycentric(s1: Vector2, s2: Vector2, s3: Vector2)
    requires Interior(s1, s2, s3)
    ensures var c1, c2, c3 := Cross(s2, s3), Cross(s3, s1), Cross(s1, s2);
            var det := c1 + c2 + c3;
            var l1, l2, l3 := c1 / det, c2 / det, c3 / det;
            l1 > 0.0 && l2 > 0.0 && l3 > 0.0 && l1 + l2 + l3 == 1.0 &&
            l1 * s1.x + l2 * s2.x + l3 * s3.x == 0.0 && l1 * s1.y + l2 * s2.y + l3 * s3.y == 0.0
  {
    var c1, c2, c3 := Cross(s2, s3), Cross(s3, s1), Cross(s1, s2);
    var det := c1 + c2 + c3;
    IsSameSignProduct(det, c1);
    QuotientPositive(c1, det);
    QuotientPositive(c2, det);
    QuotientPositive(c3, det);
    var l1, l2, l3 := c1 / det, c2 / det, c3 / det;
    QuotientSum(c1, c2, c3, det, l1, l2, l3, 1.0, 1.0, 1.0);
    CofactorIdentity(s1.x, s1.y, s2.x, s2.y, s3.x, s3.y);
    QuotientSum(c1, c2, c3, det, l1, l2, l3, s1.x, s2.x, s3.x);
    QuotientSum(c1, c2, c3, det, l1, l2, l3, s1.y, s2.y, s3.y);
  }

  /** The weighted point of three corners, coordinate by coordinate. */
  lemma WeightedThree(p: seq<Vector2>, l: seq<real>)
    requires |p| >= 3 && |l| >= 3
    ensures Weighted(p, l, 3) ==
            Vector2(l[0] * p[0].x + l[1] * p[1].x + l[2] * p[2].x, l[0] * p[0].y + l[1] * p[1].y + l[2] * p[2].y)
  {
    assert Weighted(p, l, 1) == Add(Zero, Scale(l[0], p[0]));
  }

  lemma QuotientPositive(c: real, det: real)
    requires IsSameSign(det, c)
    ensures det != 0.0 && c / det > 0.0
  {
  }

  /** Dividing a weighted sum by det divides each weight. */
  lemma QuotientSum(c1: real, c2: real, c3: real, det: real, l1: real, l2: real, l3: real, a: real, b: real, c: real)
    requires det != 0.0 && det == c1 + c2 + c3
    requires l1 == c1 / det && l2 == c2 / det && l3 == c3 / det
    ensures l1 * a + l2 * b + l3 * c == (c1 * a + c2 * b + c3 * c) / det
    ensures l1 + l2 + l3 == 1.0
  {
  }

  /** The cofactors weight the corners to the origin, whatever the corners are. */
  lemma CofactorIdentity(x1: real, y1: real, x2: real, y2: real, x3: real, y3: real)
    ensures (x2 * y3 - x3 * y2) * x1 + (x3 * y1 - x1 * y3) * x2 + (x1 * y2 - x2 * y1) * x3 == 0.0
    ensures (x2 * y3 - x3 * y2) * y1 + (x3 * y1 - x1 * y3) * y2 + (x1 * y2 - x2 * y1) * y3 == 0.0
  {
  }

  /** The point of an edge is the closest point of that edge. */
  lemma EdgeDistanceClosest(a: Vector2, b: Vector2)
    ensures EdgeDistance(a, b) == LengthSquared(Closest(a, b))
  {
    Reduce1Witness(a, b);
  }

  /** The weighted sum of an edge's points and weights is the point the reduction stands for. */
  lemma WeightedEdge(a: Vector2, b: Vector2, r: Reduced1)
    ensures Weighted(EdgePoints(a, b, r), EdgeWeights(r), |EdgePoints(a, b, r)|) == Witness1(r, a, b)
  {
    match r {
      case One(p) =>
        assert Weighted([p], [1.0], 1) == Add(Zero, Scale(1.0, p));
      case Two(l0, l1) =>
        assert Weighted([a, b], [l0, l1], 1) == Add(Zero, Scale(l0, a));
    }
  }

  /** An attempt whose best distance was met is a one- or two-point simplex at that distance. */
  predicate Settled(at: Attempt) {
    && |at.st.w| >= 2 && |at.st.lambda| >= 2
    && (at.best < FloatMax ==> 1 <= at.st.count <= 2 && LengthSquared(Witness(at.st)) == at.best)
  }

  /** Offering an edge keeps an attempt settled and brings its best down to at most the edge's distance. */
  lemma OfferSettled(at: Attempt, a: Vector2, b: Vector2)
    requires Settled(at) && at.best <= FloatMax
    ensures Settled(Offer(at, a, b))
    ensures Offer(at, a, b).best <= at.best && Offer(at, a, b).best <= EdgeDistance(a, b)
  {
    var red := Reduce1(a, b);
    var pts := EdgePoints(a, b, red);
    var r := Offer(at, a, b);
    if EdgeDistance(a, b) < at.best {
      assert r.st.w[..|pts|] == pts && r.st.lambda[..|pts|] == EdgeWeights(red);
      WeightedPrefix(r.st.w, r.st.lambda, |pts|, pts, EdgeWeights(red));
      WeightedEdge(a, b, red);
    }
  }

  /** A kept point is one of the edge's ends. */
  lemma EdgePointsFrom(a: Vector2, b: Vector2)
    ensures forall p :: p in EdgePoints(a, b, Reduce1(a, b)) ==> p == a || p == b
  {
    Reduce1Weights(a, b);
  }

  /** The edges S2D tries: those whose opposite cofactor disagrees in sign with the sum. */
  predicate Tried(w: seq<Vector2>, a: Vector2, b: Vector2)
    requires |w| >= 3
  {
    var det := Cross(w[1], w[2]) + Cross(w[2], w[0]) + Cross(w[0], w[1]);
    || (a == w[1] && b == w[2] && !IsSameSign(det, Cross(w[1], w[2])))
    || (a == w[0] && b == w[2] && !IsSameSign(det, Cross(w[2], w[0])))
    || (a == w[0] && b == w[1] && !IsSameSign(det, Cross(w[0], w[1])))
  }

  /**
   * Outside the triangle, once some tried edge's point is nearer than
   * float.MaxValue, S2D returns a one- or two-point simplex whose point is
   * at least as near the origin as every point of every tried edge.
   */
  lemma Reduce2Closest(w: seq<Vector2>, lambda: seq<real>, a: Vector2, b: Vector2, sigma: real)
    requires |w| >= 3 && |lambda| >= 3 && !Interior(w[0], w[1], w[2])
    requires Tried(w, a, b) && EdgeDistance(a, b) < FloatMax
    requires 0.0 <= sigma <= 1.0
    ensures 1 <= Reduce2(w, lambda).count <= 2
    ensures LengthSquared(Witness(Reduce2(w, lambda))) <= LengthSquared(OnSegment(a, b, sigma))
  {
    var s1, s2, s3 := w[0], w[1], w[2];
    var c1, c2, c3 := Cross(s2, s3), Cross(s3, s1), Cross(s1, s2);
    var det := c1 + c2 + c3;
    var a0 := Attempt(Simplex(w, lambda, 3), FloatMax);
    var a1 := if !IsSameSign(det, c1) then Offer(a0, s2, s3) else a0;
    var a2 := if !IsSameSign(det, c2) then Offer(a1, s1, s3) else a1;
    var a3 := if !IsSameSign(det, c3) then Offer(a2, s1, s2) else a2;
    assert Reduce2(w, lambda) == a3.st;
    if !IsSameSign(det, c1) { OfferSettled(a0, s2, s3); }
    if !IsSameSign(det, c2) { OfferSettled(a1, s1, s3); }
    if !IsSameSign(det, c3) { OfferSettled(a2, s1, s2); }
    assert a3.best <= EdgeDistance(a, b);
    EdgeDistanceClosest(a, b);
    ClosestMinimal(a, b, sigma);
  }

  /** Every point S2D keeps is a corner of the triangle, and it keeps one to three. */
  lemma Reduce2Points(w: seq<Vector2>, lambda: seq<real>)
    requires |w| >= 3 && |lambda| >= 3
    ensures 1 <= Reduce2(w, lambda).count <= 3
    ensures |Reduce2(w, lambda).w| == |w| && |Reduce2(w, lambda).lambda| == |lambda|
    ensures forall i :: 0 <= i < Reduce2(w, lambda).count ==> Reduce2(w, lambda).w[i] in w[..3]
  {
    var s1, s2, s3 := w[0], w[1], w[2];
    var c1, c2, c3 := Cross(s2, s3), Cross(s3, s1), Cross(s1, s2);
    var det := c1 + c2 + c3;
    if !Interior(s1, s2, s3) {
      var a0 := Attempt(Simplex(w, lambda, 3), FloatMax);
      var a1 := if !IsSameSign(det, c1) then Offer(a0, s2, s3) else a0;
      var a2 := if !IsSameSign(det, c2) then Offer(a1, s1, s3) else a1;
      var a3 := if !IsSameSign(det, c3) then Offer(a2, s1, s2) else a2;
      assert Reduce2(w, lambda) == a3.st;
      assert PointsFrom(a0.st, w[..3]);
      if !IsSameSign(det, c1) { OfferPointsFrom(a0, s2, s3, w[..3]); }
      if !IsSameSign(det, c2) { OfferPointsFrom(a1, s1, s3, w[..3]); }
      if !IsSameSign(det, c3) { OfferPointsFrom(a2, s1, s2, w[..3]); }
    }
  }

  /** The first count points of a state lie in src, and there are one to three. */
  predicate PointsFrom(st: Simplex, src: seq<Vector2>) {
    1 <= st.count <= 3 && st.count <= |st.w| && forall i :: 0 <= i < st.count ==> st.w[i] in src
  }

  lemma OfferPointsFrom(at: Attempt, a: Vector2, b: Vector2, src: seq<Vector2>)
    requires |at.st.w| >= 2 && |at.st.lambda| >= 2
    requires PointsFrom(at.st, src) && a in src && b in src
    ensures PointsFrom(Offer(at, a, b).st, src)
  {
    EdgePointsFrom(a, b);
    var pts := EdgePoints(a, b, Reduce1(a, b));
    if EdgeDistance(a, b) < at.best {
      var st := Offer(at, a, b).st;
      forall i | 0 <= i < st.count
        ensures st.w[i] in src
      {
        assert st.w[i] == pts[i];
      }
    }
  }

  /**
   * Outside the triangle, when its corners lie nearer the origin than
   * float.MaxValue, S2D always takes an edge: the first edge it tries beats
   * the starting distance.
   */
  lemma Reduce2BoundedCorners(w: seq<Vector2>, lambda: seq<real>)
    requires |w| >= 3 && |lambda| >= 3 && !Interior(w[0], w[1], w[2])
    requires LengthSquared(w[0]) < FloatMax && LengthSquared(w[1]) < FloatMax && LengthSquared(w[2]) < FloatMax
    ensures 1 <= Reduce2(w, lambda).count <= 2
  {
    var s1, s2, s3 := w[0], w[1], w[2];
    var det := Cross(s2, s3) + Cross(s3, s1) + Cross(s1, s2);
    var a, b := if !IsSameSign(det, Cross(s2, s3)) then s2 else s1,
                if !IsSameSign(det, Cross(s2, s3)) || !IsSameSign(det, Cross(s3, s1)) then s3 else s2;
    assert Tried(w, a, b);
    assert OnSegment(a, b, 0.0) == a;
    ClosestMinimal(a, b, 0.0);
    EdgeDistanceClosest(a, b);
    Reduce2Closest(w, lambda, a, b, 0.0);
  }

  /** S2D keeps all three points only by leaving the spans' points where they were. */
  lemma Reduce2Triangle(w: seq<Vector2>, lambda: seq<real>)
    requires |w| >= 3 && |lambda| >= 3 && Reduce2(w, lambda).count == 3
    ensures Reduce2(w, lambda).w == w
  {
    var s1, s2, s3 := w[0], w[1], w[2];
    var c1, c2, c3 := Cross(s2, s3), Cross(s3, s1), Cross(s1, s2);
    var det := c1 + c2 + c3;
    if !Interior(s1, s2, s3) {
      var a0 := Attempt(Simplex(w, lambda, 3), FloatMax);
      var a1 := if !IsSameSign(det, c1) then Offer(a0, s2, s3) else a0;
      var a2 := if !IsSameSign(det, c2) then Offer(a1, s1, s3) else a1;
      var a3 := if !IsSameSign(det, c3) then Offer(a2, s1, s2) else a2;
      assert Reduce2(w, lambda) == a3.st;
      EdgePointsFrom(s2, s3);
      EdgePointsFrom(s1, s3);
      EdgePointsFrom(s1, s2);
      assert a3.st.count == 3 ==> a2 == a3;
      assert a2.st.count == 3 ==> a1 == a2;
      assert a1.st.count == 3 ==> a0 == a1;
    }
  }

  /** A state whose two points, if it has two, are different. */
  predicate PairDistinct(st: Simplex) {
    |st.w| >= 2 && (st.count == 2 ==> st.w[0] != st.w[1])
  }

  lemma OfferPairDistinct(at: Attempt, a: Vector2, b: Vector2)
    requires |at.st.w| >= 2 && |at.st.lambda| >= 2 && PairDistinct(at.st)
    ensures PairDistinct(Offer(at, a, b).st)
  {
    var r := Offer(at, a, b);
    if EdgeDistance(a, b) < at.best && Reduce1(a, b).Two? {
      assert r.st.w[0] == a && r.st.w[1] == b;
    }
  }

  /** S2D never returns two copies of one point: it keeps both ends of an edge only when they differ. */
  lemma Reduce2PairDistinct(w: seq<Vector2>, lambda: seq<real>)
    requires |w| >= 3 && |lambda| >= 3
    ensures PairDistinct(Reduce2(w, lambda))
  {
    var s1, s2, s3 := w[0], w[1], w[2];
    var c1, c2, c3 := Cross(s2, s3), Cross(s3, s1), Cross(s1, s2);
    var det := c1 + c2 + c3;
    if !Interior(s1, s2, s3) {
      var a0 := Attempt(Simplex(w, lambda, 3), FloatMax);
      var a1 := if !IsSameSign(det, c1) then Offer(a0, s2, s3) else a0;
      var a2 := if !IsSameSign(det, c2) then Offer(a1, s1, s3) else a1;
      var a3 := if !IsSameSign(det, c3) then Offer(a2, s1, s2) else a2;
      assert Reduce2(w, lambda) == a3.st;
      if !IsSameSign(det, c1) { OfferPairDistinct(a0, s2, s3); }
      if !IsSameSign(det, c2) { OfferPairDistinct(a1, s1, s3); }
      if !IsSameSign(det, c3) { OfferPairDistinct(a2, s1, s2); }
    }
  }

  // ---- The corners S2D reads by reference ----

  /**
   * The triangle (-2, 0.5), (3, 2), (0, 1), with the origin outside it, on
   * which reading the corners by reference loses the nearest edge.
   */
  predicate AliasingTriangle(w: seq<Vector2>) {
    && |w| == 3
    && w[0].x == -2.0 && w[0].y == 0.5
    && w[1].x == 3.0 && w[1].y == 2.0
    && w[2].x == 0.0 && w[2].y == 1.0
  }

  /**
   * When the first edge (s2, s3) keeps s3 alone, the source writes s3 over
   * w[0] and then offers (w[0], w[2]) = (s3, s3) instead of (s1, s3). If the
   * edge (s1, s3), which it means to try, is nearer, the source ends with s3
   * while a point of that tried edge is strictly nearer the origin: the
   * property Reduce2Closest proves of the by-value reading fails.
   */
  lemma AliasingLosesNearestEdge(w: seq<Vector2>, l: seq<real>)
    requires |w| >= 3 && |l| >= 3 && FirstTwoTried(w)
    requires Reduce1(w[1], w[2]) == One(w[2]) && LengthSquared(w[2]) < FloatMax
    requires EdgeDistance(w[0], w[2]) < LengthSquared(w[2])
    ensures Reduce2AsWritten(w, l) == Simplex([w[2]] + w[1..], [1.0] + l[1..], 1)
    ensures LengthSquared(Witness(Reduce2AsWritten(w, l))) == LengthSquared(w[2])
    ensures Tried(w, w[0], w[2])
    ensures var sigma := MathHelper.Clamp(Mu(w[0], w[2]), 0.0, 1.0);
            && 0.0 <= sigma <= 1.0
            && LengthSquared(OnSegment(w[0], w[2], sigma)) < LengthSquared(Witness(Reduce2AsWritten(w, l)))
  {
    assert EdgeDistance(w[1], w[2]) == LengthSquared(w[2]);
    AsWrittenKeepsFirst(w, l, LengthSquared(w[2]));
    var r := Reduce2AsWritten(w, l);
    assert Weighted(r.w, r.lambda, 1) == Add(Zero, Scale(1.0, w[2]));
    EdgeDistanceClosest(w[0], w[2]);
  }

  /** AliasingTriangle meets the conditions of AliasingLosesNearestEdge: distance 1 as written against 16/17. */
  lemma AliasingTriangleShows(w: seq<Vector2>)
    requires AliasingTriangle(w)
    ensures FirstTwoTried(w)
    ensures Reduce1(w[1], w[2]) == One(w[2]) && LengthSquared(w[2]) == 1.0
    ensures EdgeDistance(w[0], w[2]) == 16.0 / 17.0
  {
    AliasingSigns(w);
    FirstEdge(w[1], w[2]);
    SecondEdge(w[0], w[2]);
  }

  /** The sign pattern of AliasingTriangle: the edges (s2, s3) and (s1, s3) are tried, (s1, s2) is not. */
  predicate FirstTwoTried(w: seq<Vector2>)
    requires |w| >= 3
  {
    var det := Cross(w[1], w[2]) + Cross(w[2], w[0]) + Cross(w[0], w[1]);
    && !Interior(w[0], w[1], w[2])
    && !IsSameSign(det, Cross(w[1], w[2]))
    && !IsSameSign(det, Cross(w[2], w[0]))
    && IsSameSign(det, Cross(w[0], w[1]))
  }

  /**
   * When the first edge keeps its end s3 and the degenerate edge (s3, s3) is
   * no nearer, the source's S2D ends with s3 alone.
   */
  lemma AsWrittenKeepsFirst(w: seq<Vector2>, l: seq<real>, d: real)
    requires |w| >= 3 && |l| >= 3 && FirstTwoTried(w)
    requires Reduce1(w[1], w[2]) == One(w[2]) && EdgeDistance(w[1], w[2]) == d && d < FloatMax
    requires EdgeDistance(w[2], w[2]) >= d
    ensures Reduce2AsWritten(w, l) == Simplex([w[2]] + w[1..], [1.0] + l[1..], 1)
  {
    TwoEdgesTriedAsWritten(w, l);
    var a0 := Attempt(Simplex(w, l, 3), FloatMax);
    OfferOne(a0, w[1], w[2], d);
    var a1 := Offer(a0, w[1], w[2]);
    assert a1.st.w[0] == w[2] && a1.st.w[2] == w[2];
    CoincidentRefused(a1, w[2]);
  }

  /** The same for the source's S2D, whose second offer reads the corners from the updated span. */
  lemma TwoEdgesTriedAsWritten(w: seq<Vector2>, l: seq<real>)
    requires |w| >= 3 && |l| >= 3 && FirstTwoTried(w)
    ensures var a1 := Offer(Attempt(Simplex(w, l, 3), FloatMax), w[1], w[2]);
            Reduce2AsWritten(w, l) == Offer(a1, a1.st.w[0], a1.st.w[2]).st
  {
  }

  /** The signs of the cofactors of AliasingTriangle: only the edge (s1, s2) is not tried. */
  lemma AliasingSigns(w: seq<Vector2>)
    requires AliasingTriangle(w)
    ensures FirstTwoTried(w)
  {
    assert Cross(w[1], w[2]) == 3.0 && Cross(w[2], w[0]) == 2.0 && Cross(w[0], w[1]) == -5.5;
  }

  /** An edge that keeps its end b, nearer than the best so far, puts b first with weight 1. */
  lemma OfferOne(at: Attempt, a: Vector2, b: Vector2, d: real)
    requires |at.st.w| >= 2 && |at.st.lambda| >= 2
    requires Reduce1(a, b) == One(b) && EdgeDistance(a, b) == d && d < at.best
    ensures Offer(at, a, b).st.w == [b] + at.st.w[1..] && Offer(at, a, b).st.lambda == [1.0] + at.st.lambda[1..]
    ensures Offer(at, a, b).st.count == 1 && Offer(at, a, b).best == d
  {
  }


  /** A degenerate edge at p no nearer than the best so far changes nothing. */
  lemma CoincidentRefused(at: Attempt, p: Vector2)
    requires |at.st.w| >= 2 && |at.st.lambda| >= 2 && EdgeDistance(p, p) >= at.best
    ensures Offer(at, p, p) == at
  {
  }


  /** The edge (s2, s3) of AliasingTriangle: the foot lies beyond s3, which is kept. */
  lemma FirstEdge(s2: Vector2, s3: Vector2)
    requires s2.x == 3.0 && s2.y == 2.0 && s3.x == 0.0 && s3.y == 1.0
    ensures Reduce1(s2, s3) == One(s3)
    ensures EdgeDistance(s2, s3) == 1.0
  {
    var t := Sub(s3, s2);
    assert t == Vector2(-3.0, -1.0);
    assert LengthSquared(t) == 10.0;
    assert Dot(Neg(s2), t) == 11.0;
    assert Mu(s2, s3) == 11.0 / 10.0;
    assert Reduce1(s2, s3) == One(s3);
  }

  /** The edge (s1, s3) of AliasingTriangle: the foot (-4/17, 16/17) lies inside it. */
  lemma SecondEdge(s1: Vector2, s3: Vector2)
    requires s1.x == -2.0 && s1.y == 0.5 && s3.x == 0.0 && s3.y == 1.0
    ensures Reduce1(s1, s3) == Two(2.0 / 17.0, 15.0 / 17.0)
    ensures Witness1(Two(2.0 / 17.0, 15.0 / 17.0), s1, s3) == Vector2(-4.0 / 17.0, 16.0 / 17.0)
    ensures EdgeDistance(s1, s3) == 16.0 / 17.0
    ensures OnSegment(s1, s3, 15.0 / 17.0) == Vector2(-4.0 / 17.0, 16.0 / 17.0)
  {
    var t := Sub(s3, s1);
    assert t == Vector2(2.0, 0.5);
    assert LengthSquared(t) == 4.25;
    assert Dot(Neg(s1), t) == 3.75;
    assert Mu(s1, s3) == 15.0 / 17.0;
    assert Reduce1(s1, s3) == Two(2.0 / 17.0, 15.0 / 17.0);
  }


  // ---- Properties of S2D as written ----

  /** Inside the triangle no edge is offered, so the aliases make no difference. */
  lemma AsWrittenInterior(w: seq<Vector2>, lambda: seq<real>)
    requires |w| >= 3 && |lambda| >= 3 && Interior(w[0], w[1], w[2])
    ensures Reduce2AsWritten(w, lambda) == Reduce2(w, lambda)
  {
  }

  /** All three slots of a state hold points of src, and it counts one to three of them. */
  predicate SlotsFrom(st: Simplex, src: seq<Vector2>) {
    1 <= st.count <= 3 && |st.w| >= 3 && forall i :: 0 <= i < 3 ==> st.w[i] in src
  }

  lemma OfferSlotsFrom(at: Attempt, a: Vector2, b: Vector2, src: seq<Vector2>)
    requires |at.st.w| >= 3 && |at.st.lambda| >= 2
    requires SlotsFrom(at.st, src) && a in src && b in src
    ensures SlotsFrom(Offer(at, a, b).st, src)
  {
    EdgePointsFrom(a, b);
    var pts := EdgePoints(a, b, Reduce1(a, b));
    if EdgeDistance(a, b) < at.best {
      var st := Offer(at, a, b).st;
      forall i | 0 <= i < 3
        ensures st.w[i] in src
      {
        if i < |pts| {
          assert st.w[i] == pts[i];
        } else {
          assert st.w[i] == at.st.w[i];
        }
      }
    }
  }

  /**
   * S2D as written keeps one to three points, each a corner of the
   * triangle: whatever an edge writes over the span is a corner, so the
   * corners the later edges re-read are corners too.
   */
  lemma AsWrittenPoints(w: seq<Vector2>, lambda: seq<real>)
    requires |w| >= 3 && |lambda| >= 3
    ensures 1 <= Reduce2AsWritten(w, lambda).count <= 3
    ensures |Reduce2AsWritten(w, lambda).w| == |w| && |Reduce2AsWritten(w, lambda).lambda| == |lambda|
    ensures forall i :: 0 <= i < Reduce2AsWritten(w, lambda).count ==> Reduce2AsWritten(w, lambda).w[i] in w[..3]
  {
    var s1, s2, s3 := w[0], w[1], w[2];
    var c1, c2, c3 := Cross(s2, s3), Cross(s3, s1), Cross(s1, s2);
    var det := c1 + c2 + c3;
    var src := w[..3];
    if !Interior(s1, s2, s3) {
      var a0 := Attempt(Simplex(w, lambda, 3), FloatMax);
      var a1 := if !IsSameSign(det, c1) then Offer(a0, s2, s3) else a0;
      var a2 := if !IsSameSign(det, c2) then Offer(a1, a1.st.w[0], a1.st.w[2]) else a1;
      var a3 := if !IsSameSign(det, c3) then Offer(a2, a2.st.w[0], a2.st.w[1]) else a2;
      assert Reduce2AsWritten(w, lambda) == a3.st;
      assert SlotsFrom(a0.st, src);
      if !IsSameSign(det, c1) { OfferSlotsFrom(a0, s2, s3, src); }
      if !IsSameSign(det, c2) { OfferSlotsFrom(a1, a1.st.w[0], a1.st.w[2], src); }
      if !IsSameSign(det, c3) { OfferSlotsFrom(a2, a2.st.w[0], a2.st.w[1], src); }
      assert SlotsFrom(a3.st, src);
    }
  }

  /** S2D as written keeps all three points only by leaving the span's points where they were. */
  lemma AsWrittenTriangle(w: seq<Vector2>, lambda: seq<real>)
    requires |w| >= 3 && |lambda| >= 3 && Reduce2AsWritten(w, lambda).count == 3
    ensures Reduce2AsWritten(w, lambda).w == w
  {
    var s1, s2, s3 := w[0], w[1], w[2];
    var c1, c2, c3 := Cross(s2, s3), Cross(s3, s1), Cross(s1, s2);
    var det := c1 + c2 + c3;
    if !Interior(s1, s2, s3) {
      var a0 := Attempt(Simplex(w, lambda, 3), FloatMax);
      var a1 := if !IsSameSign(det, c1) then Offer(a0, s2, s3) else a0;
      var a2 := if !IsSameSign(det, c2) then Offer(a1, a1.st.w[0], a1.st.w[2]) else a1;
      var a3 := if !IsSameSign(det, c3) then Offer(a2, a2.st.w[0], a2.st.w[1]) else a2;
      assert Reduce2AsWritten(w, lambda) == a3.st;
      EdgePointsFrom(s2, s3);
      EdgePointsFrom(a1.st.w[0], a1.st.w[2]);
      EdgePointsFrom(a2.st.w[0], a2.st.w[1]);
      assert a3.st.count == 3 ==> a2 == a3;
      assert a2.st.count == 3 ==> a1 == a2;
      assert a1.st.count == 3 ==> a0 == a1;
    }
  }

  /** S2D as written never keeps two copies of one point either. */
  lemma AsWrittenPairDistinct(w: seq<Vector2>, lambda: seq<real>)
    requires |w| >= 3 && |lambda| >= 3
    ensures PairDistinct(Reduce2AsWritten(w, lambda))
  {
    var s1, s2, s3 := w[0], w[1], w[2];
    var c1, c2, c3 := Cross(s2, s3), Cross(s3, s1), Cross(s1, s2);
    var det := c1 + c2 + c3;
    if !Interior(s1, s2, s3) {
      var a0 := Attempt(Simplex(w, lambda, 3), FloatMax);
      var a1 := if !IsSameSign(det, c1) then Offer(a0, s2, s3) else a0;
      var a2 := if !IsSameSign(det, c2) then Offer(a1, a1.st.w[0], a1.st.w[2]) else a1;
      var a3 := if !IsSameSign(det, c3) then Offer(a2, a2.st.w[0], a2.st.w[1]) else a2;
      assert Reduce2AsWritten(w, lambda) == a3.st;
      if !IsSameSign(det, c1) { OfferPairDistinct(a0, s2, s3); }
      if !IsSameSign(det, c2) { OfferPairDistinct(a1, a1.st.w[0], a1.st.w[2]); }
      if !IsSameSign(det, c3) { OfferPairDistinct(a2, a2.st.w[0], a2.st.w[1]); }
    }
  }

  /** The point S1D finds on an edge is no farther than the edge's first end. */
  lemma EdgeBelowStart(a: Vector2, b: Vector2)
    ensures EdgeDistance(a, b) <= LengthSquared(a)
  {
    assert OnSegment(a, b, 0.0) == a;
    ClosestMinimal(a, b, 0.0);
    EdgeDistanceClosest(a, b);
  }

  /**
   * Outside the triangle, with corners nearer than float.MaxValue, S2D as
   * written takes an edge too: the first edge it offers reads the corners
   * before anything is written over them.
   */
  lemma AsWrittenBoundedCorners(w: seq<Vector2>, lambda: seq<real>)
    requires |w| >= 3 && |lambda| >= 3 && !Interior(w[0], w[1], w[2])
    requires LengthSquared(w[0]) < FloatMax && LengthSquared(w[1]) < FloatMax && LengthSquared(w[2]) < FloatMax
    ensures 1 <= Reduce2AsWritten(w, lambda).count <= 2
  {
    var s1, s2, s3 := w[0], w[1], w[2];
    var c1, c2, c3 := Cross(s2, s3), Cross(s3, s1), Cross(s1, s2);
    var det := c1 + c2 + c3;
    var a0 := Attempt(Simplex(w, lambda, 3), FloatMax);
    var a1 := if !IsSameSign(det, c1) then Offer(a0, s2, s3) else a0;
    var a2 := if !IsSameSign(det, c2) then Offer(a1, a1.st.w[0], a1.st.w[2]) else a1;
    var a3 := if !IsSameSign(det, c3) then Offer(a2, a2.st.w[0], a2.st.w[1]) else a2;
    assert Reduce2AsWritten(w, lambda) == a3.st;
    var a, b := if !IsSameSign(det, c1) then s2 else s1,
                if !IsSameSign(det, c1) || !IsSameSign(det, c2) then s3 else s2;
    EdgeBelowStart(a, b);
    if !IsSameSign(det, c1) { OfferSettled(a0, s2, s3); }
    if !IsSameSign(det, c2) { OfferSettled(a1, a1.st.w[0], a1.st.w[2]); }
    if !IsSameSign(det, c3) { OfferSettled(a2, a2.st.w[0], a2.st.w[1]); }
    assert a3.best <= EdgeDistance(a, b);
  }

  // ---- DistanceSv ----

  /**
   * The reference definition of DistanceSv: S2D as written for a triangle,
   * S1D for a segment, weight 1 for a point.
   */
  function ReduceSimplex(st: Simplex): Simplex
    requires 1 <= st.count <= 3 && |st.w| >= 3 && |st.lambda| >= 3
  {
    if st.count == 3 then Reduce2AsWritten(st.w, st.lambda)
    else if st.count == 2 then Apply1(st, Reduce1(st.w[0], st.w[1]))
    else Simplex(st.w, st.lambda[0 := 1.0], 1)
  }

  /**
   * DistanceSv. Any other vertex count is an assertion error in the source,
   * so it is a precondition here.
   */
  method DistanceSv(tau: array<Vector2>, lambda: array<real>, vertexCount: int) returns (newCount: int)
    requires tau.Length >= 3 && lambda.Length >= 3 && 1 <= vertexCount <= 3
    modifies tau, lambda
    ensures Simplex(tau[..], lambda[..], newCount) == ReduceSimplex(Simplex(old(tau[..]), old(lambda[..]), vertexCount))
  {
    if vertexCount == 3 {
      newCount := S2DAsWritten(tau, lambda);
    } else if vertexCount == 2 {
      newCount := S1D(tau, lambda);
    } else {
      lambda[0] := 1.0;
      newCount := 1;
    }
  }

  /**
   * The reduced simplex is a non-empty sub-simplex of the input: no more
   * vertices, each of them one of the input's, the spans the same length.
   */
  lemma ReduceSimplexSubset(st: Simplex)
    requires 1 <= st.count <= 3 && |st.w| >= 3 && |st.lambda| >= 3
    ensures 1 <= ReduceSimplex(st).count <= st.count
    ensures |ReduceSimplex(st).w| == |st.w| && |ReduceSimplex(st).lambda| == |st.lambda|
    ensures forall i :: 0 <= i < ReduceSimplex(st).count ==> ReduceSimplex(st).w[i] in st.w[..st.count]
  {
    if st.count == 3 {
      AsWrittenPoints(st.w, st.lambda);
    } else if st.count == 2 {
      Reduce1Weights(st.w[0], st.w[1]);
      assert st.w[0] in st.w[..2] && st.w[1] in st.w[..2];
    } else {
      assert st.w[0] in st.w[..1];
    }
  }

  /**
   * The point of a reduced segment is the closest point of the segment, and
   * that of a reduced point is the point.
   */
  lemma ReduceSimplexWitness(st: Simplex)
    requires 1 <= st.count <= 2 && |st.w| >= 3 && |st.lambda| >= 3
    ensures ReduceSimplex(st).count <= |ReduceSimplex(st).w| && ReduceSimplex(st).count <= |ReduceSimplex(st).lambda|
    ensures st.count == 2 ==> Witness(ReduceSimplex(st)) == Closest(st.w[0], st.w[1])
    ensures st.count == 1 ==> Witness(ReduceSimplex(st)) == st.w[0]
  {
    var r := ReduceSimplex(st);
    ReduceSimplexSubset(st);
    if st.count == 2 {
      var red := Reduce1(st.w[0], st.w[1]);
      WeightedEdge(st.w[0], st.w[1], red);
      Apply1Edge(st.w[0], st.w[1], st.lambda[..2], red, Apply1(Simplex([st.w[0], st.w[1]], st.lambda[..2], 2), red));
      WeightedPrefix(r.w, r.lambda, r.count, EdgePoints(st.w[0], st.w[1], red), EdgeWeights(red));
      Reduce1Witness(st.w[0], st.w[1]);
    } else {
      assert Weighted(r.w, r.lambda, 1) == Add(Zero, Scale(1.0, st.w[0]));
    }
  }
  /** DistanceSv never leaves two copies of one point. */
  lemma ReduceSimplexPairDistinct(st: Simplex)
    requires 1 <= st.count <= 3 && |st.w| >= 3 && |st.lambda| >= 3
    ensures PairDistinct(ReduceSimplex(st))
  {
    if st.count == 3 {
      AsWrittenPairDistinct(st.w, st.lambda);
    }
  }

  /** DistanceSv keeps three points only from a triangle, and leaves them in place. */
  lemma ReduceSimplexTriangle(st: Simplex)
    requires 1 <= st.count <= 3 && |st.w| >= 3 && |st.lambda| >= 3 && ReduceSimplex(st).count == 3
    ensures st.count == 3 && ReduceSimplex(st).w == st.w
  {
    if st.count == 3 {
      AsWrittenTriangle(st.w, st.lambda);
    }
  }

  /**
   * When DistanceSv keeps all three points of a triangle whose corners lie
   * nearer than float.MaxValue, the origin is inside it: the state's point
   * is the origin.
   */
  lemma ReduceSimplexFull(st: Simplex)
    requires st.count == 3 && |st.w| >= 3 && |st.lambda| >= 3
    requires LengthSquared(st.w[0]) < FloatMax && LengthSquared(st.w[1]) < FloatMax && LengthSquared(st.w[2]) < FloatMax
    requires ReduceSimplex(st).count == 3
    ensures Witness(ReduceSimplex(st)) == Zero
  {
    if Interior(st.w[0], st.w[1], st.w[2]) {
      AsWrittenInterior(st.w, st.lambda);
      Reduce2Interior(st.w, st.lambda);
    } else {
      AsWrittenBoundedCorners(st.w, st.lambda);
    }
  }
}
