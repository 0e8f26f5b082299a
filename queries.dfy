// What the four queries of Collision.cs share: a collider as the queries see
// it (its centre and its support function in world coordinates), the
// tolerance constants, and the small loops over the fixed three-slot point
// buffers.

module Queries {
  import opened Vectors
  import opened Transforms
  import C = Colliders
  import SignedVolumes

  /**
   * A collider placed in the world: WorldCenter(transform) and the function
   * d => WorldSupport(transform, d). The queries only ever call these two.
   */
  datatype Shape = Shape(center: Vector2, support: Vector2 -> Vector2)

  /** The shape a Collider and its ColliderTransform present to the queries. */
  function Placed(m: Numerics, c: C.Collider, t: ColliderTransform): (s: Shape)
    requires C.Valid(c)
    ensures s.center == C.WorldCenter(m, c, t)
    ensures forall d :: s.support(d) == C.WorldSupport(m, c, t, d)
  {
    Shape(C.WorldCenter(m, c, t), d => C.WorldSupport(m, c, t, d))
  }

  // Collision.cs:12-15, single-precision literals taken as the decimals they spell.

  /** ToleranceGjk, the tolerance of van den Bergen 2003, page 143. */
  const ToleranceGjk: real := 0.000001

  /** RelativeErrorBound, 0.1 %. */
  const RelativeErrorBound: real := 0.001

  /** ToleranceMpr. */
  const ToleranceMpr: real := 0.01

  /** The three empty slots of a stackalloc'd Vector2 buffer. */
  function ZeroPoints(): (r: seq<Vector2>)
    ensures |r| == 3 && forall i :: 0 <= i < 3 ==> r[i] == Zero
  {
    seq(3, _ => Zero)
  }

  /** The three empty slots of a stackalloc'd float buffer. */
  function ZeroWeights(): (r: seq<real>)
    ensures |r| == 3 && forall i :: 0 <= i < 3 ==> r[i] == 0.0
  {
    seq(3, _ => 0.0)
  }

  /** A search loop over the first n slots of a buffer. */
  method Contains(s: array<Vector2>, n: int, p: Vector2) returns (found: bool)
    requires 0 <= n <= s.Length
    ensures found <==> p in s[..n]
  {
    found := false;
    var i := 0;
    while i < n
      invariant 0 <= i <= n
      invariant !found
      invariant p !in s[..i]
    {
      if p == s[i] {
        found := true;
        return;
      }
      i := i + 1;
    }
  }

  /** The weighted-sum loop: Zero plus lambda[i] * points[i] for i < n, in index order. */
  method WeightedSum(points: array<Vector2>, lambda: array<real>, n: int) returns (v: Vector2)
    requires 0 <= n <= points.Length && n <= lambda.Length
    ensures v == SignedVolumes.Weighted(points[..], lambda[..], n)
  {
    v := Zero;
    var i := 0;
    while i < n
      invariant 0 <= i <= n
      invariant v == SignedVolumes.Weighted(points[..], lambda[..], i)
    {
      v := Add(v, Scale(lambda[i], points[i]));
      i := i + 1;
    }
  }
}
