// The affine-matrix routines of System.Numerics that the colliders use
// (Matrix3x2 and the Vector2.Transform / TransformNormal helpers), and the
// collider transform record with its constructors and Matrix().

module Transforms {
  import opened Vectors

  /**
   * Matrix3x2 in the row-vector convention of System.Numerics: a point
   * (x, y) maps to (x M11 + y M21 + M31, x M12 + y M22 + M32).
   */
  datatype Matrix3x2 = Matrix3x2(m11: real, m12: real, m21: real, m22: real, m31: real, m32: real)

  const Identity: Matrix3x2 := Matrix3x2(1.0, 0.0, 0.0, 1.0, 0.0, 0.0)

  /** The smallest positive single-precision value, float.Epsilon = 2^-149. */
  const FloatEpsilon: real := 0.00000000000000000000000000000000000000000000140129846432481707092372958328991613128026194187651577175706828388979108268586060148663818836212158203125

  function CreateScale(scales: Vector2): Matrix3x2 {
    Matrix3x2(scales.x, 0.0, 0.0, scales.y, 0.0, 0.0)
  }

  /** Matrix3x2.CreateRotation, with the cosine and sine taken from m. */
  function CreateRotation(m: Numerics, radians: real): Matrix3x2 {
    var c := m.cos(radians);
    var s := m.sin(radians);
    Matrix3x2(c, s, -s, c, 0.0, 0.0)
  }

  /** The matrix product a * b: first a, then b. */
  function Multiply(a: Matrix3x2, b: Matrix3x2): Matrix3x2 {
    Matrix3x2(
      a.m11 * b.m11 + a.m12 * b.m21,
      a.m11 * b.m12 + a.m12 * b.m22,
      a.m21 * b.m11 + a.m22 * b.m21,
      a.m21 * b.m12 + a.m22 * b.m22,
      a.m31 * b.m11 + a.m32 * b.m21 + b.m31,
      a.m31 * b.m12 + a.m32 * b.m22 + b.m32)
  }

  /** Assigning the Translation property. */
  function WithTranslation(a: Matrix3x2, t: Vector2): Matrix3x2 {
    a.(m31 := t.x, m32 := t.y)
  }

  function Determinant(a: Matrix3x2): real {
    a.m11 * a.m22 - a.m21 * a.m12
  }

  /** The outcome of Matrix3x2.Invert: whether it succeeded, and the out matrix. */
  datatype Inverted = Inverted(ok: bool, result: Matrix3x2)

  /**
   * Matrix3x2.Invert. A determinant below float.Epsilon in magnitude fails;
   * the IEEE out matrix is then all NaN, which the model replaces by zeros.
   */
  function Invert(a: Matrix3x2): (r: Inverted)
    ensures r.ok <==> Abs(Determinant(a)) >= FloatEpsilon
  {
    var det := Determinant(a);
    if Abs(det) < FloatEpsilon then
      Inverted(false, Matrix3x2(0.0, 0.0, 0.0, 0.0, 0.0, 0.0))
    else
      Inverted(true, Adjugate(a, 1.0 / det))
  }

  /** The adjugate of a, each entry multiplied by inv: the inverse when inv is 1 / det. */
  function Adjugate(a: Matrix3x2, inv: real): Matrix3x2 {
    Matrix3x2(
      a.m22 * inv,
      -a.m12 * inv,
      -a.m21 * inv,
      a.m11 * inv,
      (a.m21 * a.m32 - a.m31 * a.m22) * inv,
      (a.m31 * a.m12 - a.m11 * a.m32) * inv)
  }

  /** Vector2.Transform: a point, translated. */
  function TransformPoint(p: Vector2, a: Matrix3x2): Vector2 {
    Vector2(p.x * a.m11 + p.y * a.m21 + a.m31, p.x * a.m12 + p.y * a.m22 + a.m32)
  }

  /** Vector2.TransformNormal: a direction, not translated. */
  function TransformNormal(n: Vector2, a: Matrix3x2): Vector2 {
    Vector2(n.x * a.m11 + n.y * a.m21, n.x * a.m12 + n.y * a.m22)
  }

  /** The transpose of the linear part, which undoes a rotation. */
  function Transposed(a: Matrix3x2): Matrix3x2 {
    Matrix3x2(a.m11, a.m21, a.m12, a.m22, 0.0, 0.0)
  }

  /** The entries of a times its scaled adjugate, on plain numbers. */
  lemma CofactorRight(p: real, q: real, r: real, s: real, x: real, y: real, inv: real)
    requires (p * s - r * q) * inv == 1.0
    ensures p * (s * inv) + q * (-r * inv) == 1.0
    ensures p * (-q * inv) + q * (p * inv) == 0.0
    ensures r * (s * inv) + s * (-r * inv) == 0.0
    ensures r * (-q * inv) + s * (p * inv) == 1.0
    ensures x * (s * inv) + y * (-r * inv) + (r * y - x * s) * inv == 0.0
    ensures x * (-q * inv) + y * (p * inv) + (x * q - p * y) * inv == 0.0
  {
  }

  /** The entries of the scaled adjugate times a, on plain numbers. */
  lemma CofactorLeft(p: real, q: real, r: real, s: real, x: real, y: real, inv: real)
    requires (p * s - r * q) * inv == 1.0
    ensures (s * inv) * p + (-q * inv) * r == 1.0
    ensures (s * inv) * q + (-q * inv) * s == 0.0
    ensures (-r * inv) * p + (p * inv) * r == 0.0
    ensures (-r * inv) * q + (p * inv) * s == 1.0
    ensures (r * y - x * s) * inv * p + (x * q - p * y) * inv * r + x == 0.0
    ensures (r * y - x * s) * inv * q + (x * q - p * y) * inv * s + y == 0.0
  {
    assert (r * y - x * s) * p + (x * q - p * y) * r == -x * (p * s - r * q);
    assert (r * y - x * s) * q + (x * q - p * y) * s == -y * (p * s - r * q);
  }

  /** Invert's result undoes the matrix on either side. */
  lemma InverseProduct(a: Matrix3x2)
    requires Invert(a).ok
    ensures Multiply(a, Invert(a).result) == Identity
    ensures Multiply(Invert(a).result, a) == Identity
  {
    var inv := 1.0 / Determinant(a);
    assert Determinant(a) * inv == 1.0;
    AdjugateRight(a, inv);
    AdjugateLeft(a, inv);
  }

  lemma AdjugateRight(a: Matrix3x2, inv: real)
    requires Determinant(a) * inv == 1.0
    ensures Multiply(a, Adjugate(a, inv)) == Identity
  {
    CofactorRight(a.m11, a.m12, a.m21, a.m22, a.m31, a.m32, inv);
  }

  lemma AdjugateLeft(a: Matrix3x2, inv: real)
    requires Determinant(a) * inv == 1.0
    ensures Multiply(Adjugate(a, inv), a) == Identity
  {
    CofactorLeft(a.m11, a.m12, a.m21, a.m22, a.m31, a.m32, inv);
  }

  /**
   * A rotation matrix is inverted exactly by its transpose; transforming a
   * direction by the inverse and the point back by the rotation is the identity.
   */
  lemma RotationInverse(m: Numerics, radians: real, v: Vector2)
    requires ExactTrig(m)
    ensures Invert(CreateRotation(m, radians)) == Inverted(true, Transposed(CreateRotation(m, radians)))
    ensures TransformPoint(TransformNormal(v, Invert(CreateRotation(m, radians)).result), CreateRotation(m, radians)) == v
    ensures TransformNormal(TransformPoint(v, CreateRotation(m, radians)), Invert(CreateRotation(m, radians)).result) == v
  {
    RotationInvert(m, radians);
    RotationUndone(m, radians, v);
  }

  lemma RotationInvert(m: Numerics, radians: real)
    requires ExactTrig(m)
    ensures Invert(CreateRotation(m, radians)) == Inverted(true, Transposed(CreateRotation(m, radians)))
  {
    var c := m.cos(radians);
    var s := m.sin(radians);
    assert c * c + s * s == 1.0;
    var r := CreateRotation(m, radians);
    assert Determinant(r) == c * c + s * s;
    InvertUnitDeterminant(r);
  }

  /** The transpose of a rotation undoes it, on directions in both orders. */
  lemma RotationUndone(m: Numerics, radians: real, v: Vector2)
    requires ExactTrig(m)
    ensures TransformPoint(TransformNormal(v, Transposed(CreateRotation(m, radians))), CreateRotation(m, radians)) == v
    ensures TransformNormal(TransformPoint(v, CreateRotation(m, radians)), Transposed(CreateRotation(m, radians))) == v
  {
    var c := m.cos(radians);
    var s := m.sin(radians);
    assert c * c + s * s == 1.0;
    RotationMatrixBack(CreateRotation(m, radians), c, s, v);
    RotationMatrixForth(CreateRotation(m, radians), c, s, v);
  }

  /** The transpose of the rotation matrix of a unit (cos, sin) pair, then the rotation. */
  lemma RotationMatrixBack(r: Matrix3x2, c: real, s: real, v: Vector2)
    requires c * c + s * s == 1.0 && r == Matrix3x2(c, s, -s, c, 0.0, 0.0)
    ensures TransformPoint(TransformNormal(v, Transposed(r)), r) == v
  {
    var u := TransformNormal(v, Transposed(r));
    assert u.x == v.x * c + v.y * s && u.y == v.x * -s + v.y * c;
    RotateBack(c, s, v.x, v.y, u.x, u.y);
    var z := TransformPoint(u, r);
    assert z.x == u.x * c + u.y * -s && z.y == u.x * s + u.y * c;
  }

  /** The rotation matrix of a unit (cos, sin) pair, then its transpose. */
  lemma RotationMatrixForth(r: Matrix3x2, c: real, s: real, v: Vector2)
    requires c * c + s * s == 1.0 && r == Matrix3x2(c, s, -s, c, 0.0, 0.0)
    ensures TransformNormal(TransformPoint(v, r), Transposed(r)) == v
  {
    var w := TransformPoint(v, r);
    assert w.x == v.x * c + v.y * -s && w.y == v.x * s + v.y * c;
    RotateForth(c, s, v.x, v.y, w.x, w.y);
    var z := TransformNormal(w, Transposed(r));
    assert z.x == w.x * c + w.y * s && z.y == w.x * -s + w.y * c;
  }

  /** A matrix of determinant 1 inverts to its adjugate. */
  lemma InvertUnitDeterminant(a: Matrix3x2)
    requires Determinant(a) == 1.0
    ensures Invert(a) == Inverted(true, Matrix3x2(a.m22, -a.m12, -a.m21, a.m11,
                                                  a.m21 * a.m32 - a.m31 * a.m22, a.m31 * a.m12 - a.m11 * a.m32))
  {
    assert 1.0 / Determinant(a) == 1.0;
    AdjugateOne(a);
  }

  lemma AdjugateOne(a: Matrix3x2)
    ensures Adjugate(a, 1.0) == Matrix3x2(a.m22, -a.m12, -a.m21, a.m11,
                                          a.m21 * a.m32 - a.m31 * a.m22, a.m31 * a.m12 - a.m11 * a.m32)
  {
  }

  /** Rotating by the transpose of (c, s) and then by (c, s) is the identity, on plain numbers. */
  lemma RotateBack(c: real, s: real, x: real, y: real, ux: real, uy: real)
    requires c * c + s * s == 1.0
    requires ux == x * c + y * s && uy == x * -s + y * c
    ensures ux * c + uy * -s == x
    ensures ux * s + uy * c == y
  {
    assert x * (c * c + s * s) == x;
    assert y * (c * c + s * s) == y;
  }

  /** Rotating by (c, s) and then by its transpose is the identity, on plain numbers. */
  lemma RotateForth(c: real, s: real, x: real, y: real, wx: real, wy: real)
    requires c * c + s * s == 1.0
    requires wx == x * c + y * -s && wy == x * s + y * c
    ensures wx * c + wy * s == x
    ensures wx * -s + wy * c == y
  {
    assert x * (c * c + s * s) == x;
    assert y * (c * c + s * s) == y;
  }

  /** The rotation by 0 radians is the identity. */
  lemma RotationZero(m: Numerics)
    requires TrigAtZero(m)
    ensures CreateRotation(m, 0.0) == Identity
  {
  }

  lemma InvertIdentity()
    ensures Invert(Identity) == Inverted(true, Identity)
  {
    InvertUnitDeterminant(Identity);
  }

  lemma IdentityPoint(p: Vector2)
    ensures TransformPoint(p, Identity) == p
    ensures TransformNormal(p, Identity) == p
  {
  }

  /** Rotating a point and taking a dot product equals rotating the direction back. */
  lemma DotTransposed(d: Vector2, p: Vector2, a: Matrix3x2)
    ensures Dot(d, TransformNormal(p, a)) == Dot(TransformNormal(d, Transposed(a)), p)
  {
  }

  lemma TransformPointLinear(p: Vector2, a: Matrix3x2)
    ensures TransformPoint(p, a) == Add(TransformNormal(p, a), Vector2(a.m31, a.m32))
  {
  }

  // ---- Placing an object in the world: rotate, then translate ----

  /** A point of an object's own space placed in the world: rotated, then translated. */
  function Place(m: Numerics, rotation: real, translation: Vector2, p: Vector2): Vector2 {
    Add(TransformPoint(p, CreateRotation(m, rotation)), translation)
  }

  /** A world direction turned into the object's own space by the inverted rotation. */
  function Unrotate(m: Numerics, rotation: real, d: Vector2): Vector2 {
    TransformNormal(d, Invert(CreateRotation(m, rotation)).result)
  }

  /** Without rotation a point is placed by the translation alone. */
  lemma PlaceWithoutRotation(m: Numerics, rotation: real, translation: Vector2, p: Vector2)
    requires TrigAtZero(m) && rotation == 0.0
    ensures Place(m, rotation, translation, p) == Add(p, translation)
  {
    RotationZero(m);
    assert CreateRotation(m, rotation) == Identity;
    IdentityPoint(p);
  }

  /** Without rotation the object's directions are the world's. */
  lemma UnrotateWithoutRotation(m: Numerics, rotation: real, d: Vector2)
    requires TrigAtZero(m) && rotation == 0.0
    ensures Unrotate(m, rotation, d) == d
  {
    RotationZero(m);
    InvertIdentity();
    var r := CreateRotation(m, rotation);
    assert r == Identity;
    assert Invert(r).result == Identity;
  }

  /**
   * Placing preserves "farther along": if s is at least as far as q along the
   * un-rotated direction, the placed s is at least as far as the placed q along d.
   */
  lemma PlacedMaximal(m: Numerics, rotation: real, translation: Vector2, d: Vector2, q: Vector2, s: Vector2)
    requires ExactTrig(m)
    requires Dot(Unrotate(m, rotation, d), q) <= Dot(Unrotate(m, rotation, d), s)
    ensures Dot(d, Place(m, rotation, translation, q)) <= Dot(d, Place(m, rotation, translation, s))
  {
    var r := CreateRotation(m, rotation);
    RotationInverse(m, rotation, d);
    assert Unrotate(m, rotation, d) == TransformNormal(d, Transposed(r));
    TransformPointLinear(q, r);
    TransformPointLinear(s, r);
    DotTransposed(d, q, r);
    DotTransposed(d, s, r);
    DotAdd(d, TransformNormal(q, r), translation);
    DotAdd(d, TransformNormal(s, r), translation);
  }

  /** Shifting the translation by c shifts every placed point by exactly c. */
  lemma PlaceTranslationShift(m: Numerics, rotation: real, translation: Vector2, c: Vector2, p: Vector2)
    ensures Place(m, rotation, Add(translation, c), p) == Add(Place(m, rotation, translation, p), c)
  {
  }

  /** The collider transform: a world translation, a rotation in radians and a scale. */
  datatype ColliderTransform = ColliderTransform(translation: Vector2, rotation: real, scale: Vector2)

  /** ColliderTransform(translation, rotation, scale): the scale argument is discarded. */
  function CreateTransform(translation: Vector2, rotation: real, scale: Vector2): ColliderTransform {
    ColliderTransform(translation, rotation, One)
  }

  /** ColliderTransform(translation, rotation). */
  function CreateTranslationRotation(translation: Vector2, rotation: real): ColliderTransform {
    CreateTransform(translation, rotation, One)
  }

  /** ColliderTransform(translation). */
  function CreateTranslation(translation: Vector2): ColliderTransform {
    CreateTranslationRotation(translation, 0.0)
  }

  /** ColliderTransform.Matrix(): scale, then rotate if the rotation is non-zero, then translate. */
  function TransformMatrix(m: Numerics, t: ColliderTransform): Matrix3x2 {
    var s := CreateScale(t.scale);
    var r := if t.rotation != 0.0 then Multiply(s, CreateRotation(m, t.rotation)) else s;
    WithTranslation(r, t.translation)
  }

  /** Any scale passed to the three-argument constructor gives the same transform. */
  lemma CreateTransformIgnoresScale(translation: Vector2, rotation: real, s1: Vector2, s2: Vector2)
    ensures CreateTransform(translation, rotation, s1) == CreateTransform(translation, rotation, s2)
    ensures CreateTransform(translation, rotation, s1).scale == One
    ensures CreateTransform(translation, rotation, s1).translation == translation
    ensures CreateTransform(translation, rotation, s1).rotation == rotation
  {
  }

  /** The shorter constructors give rotation 0 and scale One. */
  lemma ConstructorDefaults(translation: Vector2, rotation: real)
    ensures CreateTranslation(translation) == ColliderTransform(translation, 0.0, One)
    ensures CreateTranslationRotation(translation, rotation) == ColliderTransform(translation, rotation, One)
  {
  }

  /** The translation row of Matrix() is always the transform's translation. */
  lemma MatrixTranslation(m: Numerics, t: ColliderTransform)
    ensures TransformMatrix(m, t).m31 == t.translation.x
    ensures TransformMatrix(m, t).m32 == t.translation.y
    ensures TransformPoint(Zero, TransformMatrix(m, t)) == t.translation
  {
  }

  /** A constructed transform without rotation gives a pure translation. */
  lemma MatrixWithoutRotation(m: Numerics, translation: Vector2, p: Vector2)
    ensures TransformMatrix(m, CreateTranslation(translation)) == WithTranslation(Identity, translation)
    ensures TransformPoint(p, TransformMatrix(m, CreateTranslation(translation))) == Add(p, translation)
  {
  }

  /** A constructed transform with rotation gives the rotation followed by the translation. */
  lemma MatrixWithRotation(m: Numerics, translation: Vector2, rotation: real, s: Vector2, p: Vector2)
    requires ExactTrig(m)
    ensures TransformPoint(p, TransformMatrix(m, CreateTransform(translation, rotation, s)))
         == Add(TransformPoint(p, CreateRotation(m, rotation)), translation)
  {
    var t := CreateTransform(translation, rotation, s);
    if rotation != 0.0 {
      assert Multiply(CreateScale(One), CreateRotation(m, rotation)) == CreateRotation(m, rotation);
    } else {
      RotationZero(m);
      assert CreateRotation(m, rotation) == Identity;
      IdentityPoint(p);
    }
  }
}
