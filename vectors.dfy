// Two-dimensional vector arithmetic over the reals, standing in for
// System.Numerics.Vector2 and the few MathF / Math routines the library uses.
//
// A note on squares: the solver behind Dafny is weak at the sign of a product
// of a term with itself, so facts about squares are proved once here, through
// products of two parameters that are equal but distinct, and stated about
// LengthSquared and Dot rather than about raw products.

module Vectors {

  datatype Vector2 = Vector2(x: real, y: real)

  const Zero: Vector2 := Vector2(0.0, 0.0)
  const One: Vector2 := Vector2(1.0, 1.0)
  const UnitX: Vector2 := Vector2(1.0, 0.0)

  function Add(a: Vector2, b: Vector2): Vector2 {
    Vector2(a.x + b.x, a.y + b.y)
  }

  function Sub(a: Vector2, b: Vector2): Vector2 {
    Vector2(a.x - b.x, a.y - b.y)
  }

  function Neg(a: Vector2): Vector2 {
    Vector2(-a.x, -a.y)
  }

  function Scale(k: real, a: Vector2): Vector2 {
    Vector2(k * a.x, k * a.y)
  }

  function Dot(a: Vector2, b: Vector2): real {
    a.x * b.x + a.y * b.y
  }

  function LengthSquared(a: Vector2): real {
    Dot(a, a)
  }

  /** Math.Abs / MathF.Abs. */
  function Abs(x: real): real {
    if x < 0.0 then -x else x
  }

  /** Math.Sign on a real: -1, 0 or 1. */
  function Sign(x: real): (r: int)
    ensures r == 0 <==> x == 0.0
    ensures r == 1 <==> x > 0.0
    ensures r == -1 <==> x < 0.0
  {
    if x > 0.0 then 1 else if x < 0.0 then -1 else 0
  }

  // ---- Linear identities of Dot ----

  lemma DotSymmetric(a: Vector2, b: Vector2)
    ensures Dot(a, b) == Dot(b, a)
  {
  }

  lemma DotSub(d: Vector2, a: Vector2, b: Vector2)
    ensures Dot(d, Sub(a, b)) == Dot(d, a) - Dot(d, b)
  {
  }

  lemma DotAdd(d: Vector2, a: Vector2, b: Vector2)
    ensures Dot(d, Add(a, b)) == Dot(d, a) + Dot(d, b)
  {
  }

  lemma DotScale(d: Vector2, k: real, a: Vector2)
    ensures Dot(d, Scale(k, a)) == k * Dot(d, a)
    ensures Dot(Scale(k, a), d) == k * Dot(a, d)
  {
  }

  lemma DotNeg(d: Vector2, a: Vector2)
    ensures Dot(d, Neg(a)) == -Dot(d, a)
    ensures Dot(Neg(d), a) == -Dot(d, a)
  {
  }

  // ---- Squares ----

  lemma ProductZero(p: real, q: real)
    requires p * q == 0.0
    ensures p == 0.0 || q == 0.0
  {
  }

  lemma ProductNonNegative(a: real, b: real)
    requires a >= 0.0 && b >= 0.0
    ensures a * b >= 0.0
  {
  }

  lemma SumOfEqualProductsNonNegative(u: real, w: real, p: real, q: real)
    requires u == p && w == q
    ensures u * p + w * q >= 0.0
  {
  }

  lemma SumOfEqualProductsPositive(u: real, w: real, p: real, q: real)
    requires u == p && w == q && (u != 0.0 || w != 0.0)
    ensures u * p + w * q > 0.0
  {
  }

  lemma DotOfEqualNonNegative(a: Vector2, b: Vector2)
    requires a == b
    ensures Dot(a, b) >= 0.0
    ensures Dot(a, b) == 0.0 <==> a == Zero
  {
    SumOfEqualProductsNonNegative(a.x, a.y, b.x, b.y);
    if a != Zero {
      SumOfEqualProductsPositive(a.x, a.y, b.x, b.y);
    }
  }

  /** A squared length is never negative and is zero exactly for the zero vector. */
  lemma LengthSquaredZero(a: Vector2)
    ensures LengthSquared(a) >= 0.0
    ensures LengthSquared(a) == 0.0 <==> a == Zero
  {
    DotOfEqualNonNegative(a, a);
    assert LengthSquared(a) == Dot(a, a);
  }

  /** Scaling a vector by k scales its squared length by k*k. */
  lemma LengthSquaredScale(k: real, a: Vector2)
    ensures LengthSquared(Scale(k, a)) == k * k * LengthSquared(a)
  {
  }

  /** dot(a, k a) == k |a|^2. */
  lemma DotScaleSelf(k: real, a: Vector2)
    ensures Dot(a, Scale(k, a)) == k * LengthSquared(a)
  {
    DotScale(a, k, a);
    assert LengthSquared(a) == Dot(a, a);
  }

  /** A non-negative multiple of a is never behind the origin along a. */
  lemma DotScaleSelfNonNegative(k: real, a: Vector2)
    requires k >= 0.0
    ensures Dot(a, Scale(k, a)) >= 0.0
  {
    DotScaleSelf(k, a);
    LengthSquaredZero(a);
    ProductNonNegative(k, LengthSquared(a));
  }

  lemma LengthSquaredNeg(a: Vector2)
    ensures LengthSquared(Neg(a)) == LengthSquared(a)
  {
  }

  // ---- Square root, trigonometry and normalisation ----

  /**
   * The transcendental and irrational parts of the numeric library, kept
   * abstract: a square root and the two circular functions of an angle in
   * radians. Every operation that needs them takes one of these records.
   */
  datatype Numerics = Numerics(sqrt: real -> real, cos: real -> real, sin: real -> real)

  /** What the model assumes of the abstract square root when a property needs it. */
  ghost predicate ExactSqrt(m: Numerics) {
    forall u: real {:trigger m.sqrt(u)} :: 0.0 <= u ==> 0.0 <= m.sqrt(u) && m.sqrt(u) * m.sqrt(u) == u
  }

  /** The part of ExactSqrt that says the root is never negative. */
  ghost predicate RootsNonNegative(m: Numerics) {
    forall u: real {:trigger m.sqrt(u)} :: 0.0 <= u ==> 0.0 <= m.sqrt(u)
  }

  lemma ExactRootsNonNegative(m: Numerics)
    requires ExactSqrt(m)
    ensures RootsNonNegative(m)
  {
  }

  /** What the model assumes of the abstract cosine and sine when a property needs it. */
  ghost predicate ExactTrig(m: Numerics) {
    && (forall a: real {:trigger m.cos(a)} {:trigger m.sin(a)} :: m.cos(a) * m.cos(a) + m.sin(a) * m.sin(a) == 1.0)
    && m.cos(0.0) == 1.0 && m.sin(0.0) == 0.0
  }

  /** The part of ExactTrig that concerns the angle 0: its cosine is 1 and its sine 0. */
  ghost predicate TrigAtZero(m: Numerics) {
    m.cos(0.0) == 1.0 && m.sin(0.0) == 0.0
  }

  /** Both: exact real arithmetic in place of the single-precision library. */
  ghost predicate Exact(m: Numerics) {
    ExactSqrt(m) && ExactTrig(m)
  }

  /** The non-negative square root is the only non-negative number squaring to u. */
  lemma SqrtUnique(m: Numerics, u: real, r: real)
    requires ExactSqrt(m)
    requires 0.0 <= r && r * r == u
    ensures m.sqrt(u) == r
  {
    var s := m.sqrt(u);
    assert s * s == u;
    assert (s - r) * (s + r) == 0.0;
    ProductZero(s - r, s + r);
  }

  /** Vector2.Length. */
  function Length(m: Numerics, a: Vector2): real {
    m.sqrt(LengthSquared(a))
  }

  lemma SqrtZero(m: Numerics)
    requires ExactSqrt(m)
    ensures m.sqrt(0.0) == 0.0
  {
    SqrtUnique(m, 0.0, 0.0);
  }

  lemma LengthProperties(m: Numerics, a: Vector2)
    requires ExactSqrt(m)
    ensures Length(m, a) >= 0.0
    ensures Length(m, a) * Length(m, a) == LengthSquared(a)
    ensures Length(m, a) == 0.0 <==> a == Zero
  {
    LengthSquaredZero(a);
    SqrtZero(m);
  }

  /** Length(k a) == k Length(a) for k >= 0. */
  lemma LengthScale(m: Numerics, k: real, a: Vector2)
    requires ExactSqrt(m) && k >= 0.0
    ensures Length(m, Scale(k, a)) == k * Length(m, a)
  {
    var l := Length(m, a);
    LengthProperties(m, a);
    LengthSquaredScale(k, a);
    assert (k * l) * (k * l) == k * k * (l * l);
    assert 0.0 <= k * l;
    SqrtUnique(m, LengthSquared(Scale(k, a)), k * l);
  }

  /**
   * Vector2.Normalize. The zero vector, whose IEEE normalisation is NaN,
   * normalises to Zero here.
   */
  function Normalize(m: Numerics, a: Vector2): Vector2 {
    var len := Length(m, a);
    if len == 0.0 then Zero else Scale(1.0 / len, a)
  }

  /** A non-zero vector normalises to a unit vector pointing the same way. */
  lemma NormalizeUnit(m: Numerics, a: Vector2)
    requires ExactSqrt(m)
    requires a != Zero
    ensures LengthSquared(Normalize(m, a)) == 1.0
    ensures Normalize(m, a) == Scale(1.0 / Length(m, a), a) && Length(m, a) > 0.0
    ensures Dot(a, Normalize(m, a)) == Length(m, a)
  {
    var l := Length(m, a);
    LengthProperties(m, a);
    var k := 1.0 / l;
    LengthSquaredScale(k, a);
    assert k * l == 1.0;
    assert k * k * (l * l) == (k * l) * (k * l);
    DotScale(a, k, a);
    assert k * (l * l) == (k * l) * l;
  }

  /** Normalisation ignores positive scaling. */
  lemma NormalizeScale(m: Numerics, k: real, a: Vector2)
    requires ExactSqrt(m)
    requires k > 0.0
    ensures Normalize(m, Scale(k, a)) == Normalize(m, a)
  {
    LengthScale(m, k, a);
    NormalizeScaledLength(m, k, a);
  }

  /** The same, for any square root that scales lengths by k. */
  lemma NormalizeScaledLength(m: Numerics, k: real, a: Vector2)
    requires k > 0.0 && Length(m, Scale(k, a)) == k * Length(m, a)
    ensures Normalize(m, Scale(k, a)) == Normalize(m, a)
  {
    var l := Length(m, a);
    if l != 0.0 {
      ScaleTwice(k, l, a);
    }
  }

  /** Scaling by k and then by 1 / (k l) is scaling by 1 / l. */
  lemma ScaleTwice(k: real, l: real, a: Vector2)
    requires k > 0.0 && l != 0.0
    ensures Scale(1.0 / (k * l), Scale(k, a)) == Scale(1.0 / l, a)
  {
    assert k * l != 0.0;
    var c := 1.0 / (k * l);
    assert c * k == 1.0 / l;
    assert Scale(c, Scale(k, a)) == Scale(c * k, a);
  }
}
