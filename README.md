# Echollision in Dafny

This project models the core of Echollision, a small C# library for 2D collision detection between shapes that are given by support functions.

- **Colliders.** Each collider is a `Center()` and a `Support(direction)` that returns a point of the shape farthest along the direction. The library ships convex polygons, convex hulls, Minkowski sums, segments and spheres. `Collider.WorldCenter` and `Collider.WorldSupport` place a collider in the world by a rotation and a translation. There are two parallel snapshots of these classes: the abstract `Collider` classes and the `ICollider` classes. There is also an older `Primitive` set with its `MaxSupport` and `MinkowskiSum` combinators.
- **Narrow phase (`Collision.cs`).** There are four queries:
  - `Distance` is GJK distance with the signed-volumes sub-algorithm `DistanceSv`, made of `S1D` and `S2D`;
  - `Continuous` is the GJK ray cast;
  - `Intersection` and `PenetrationDepth` are Minkowski Portal Refinement (MPR).
- **Broad phase.**
  - The swept-capsule overlap test uses the clamped closest-points routine for two segments.
  - The example game sorts swept boxes and sweeps them to generate candidate pairs.
- **Helpers.** `MathHelper.Clamp`, and `ColliderTransform` with its constructors and `Matrix()`.

The model follows the shape of the source:
- **Pure code becomes datatypes and functions.** This covers the collider shapes, `Primitive`, the transforms, the segment routine and `Clamp`.
- **Loops become methods with loop invariants**, proved against a specification function. This covers:
  - the `for` loops of `Center` and `Support`, which walk the read-only vertex and shape lists, as methods over `seq`;
  - `S1D`, `S2D` and `DistanceSv`, which write their point and weight spans in place, as methods over arrays;
  - the four query loops, with their fixed three-slot buffers and counters, as methods over arrays;
  - the sort and sweep, as a class whose method appends to the pair buffer.

Arithmetic is exact over `real`. Square root, cosine and sine are parameters, bundled in `Vectors.Numerics`. Lemmas that need them take the hypotheses `ExactSqrt` / `ExactTrig` (cos² + sin² = 1, and the values at 0), or only `TrigAtZero` (cos 0 = 1 and sin 0 = 0) when nothing is rotated.

Files:
- `vectors.dfy`, `math_helper.dfy`, `transforms.dfy`, `support_math.dfy`: vector arithmetic, `Clamp`, the matrix helpers with `ColliderTransform`, and the two folds all Support/Center loops are built from.
- `colliders.dfy`, `interface_colliders.dfy`, `primitive.dfy`, `max_support.dfy`, `minkowski_sum.dfy`: the shapes.
- `queries.dfy`: what the four queries share (a placed shape, the tolerances, the buffer loops).
- `signed_volumes.dfy`: `S1D`, `S2D`, `DistanceSv`.
- `gjk_distance.dfy`, `gjk_raycast.dfy`, `mpr.dfy`: the four queries.
- `ray_cast_cases.dfy`: the exact case of the ray-cast unit test, iteration by iteration.
- `swept_capsule.dfy`, `capsule_cases.dfy`, `broad_phase.dfy`: the broad phase.

Points where the model departs from the letter of the source:
- **S2D aliasing.** `S2D` reads its corners `s1..s3` through `ref` aliases into the span it overwrites. `DistanceSv`, and so `Distance` and `Continuous`, use that reading as written: `SignedVolumes.S2DAsWritten`, specified by `Reduce2AsWritten`. The by-value reading the algorithm intends is kept beside it as `SignedVolumes.S2D`, specified by `Reduce2`, with its closest-point property (see "## Findings").
- **`Continuous` remap.** The step functions of the ray cast take a `Remapping`. `AsWritten` searches the lookup only below the new count that DistanceSv returned, as line 230 does, and is what `ComputeContinuous` and `Continuous` run. `Intended` searches every entry filled in the iteration; the alignment of `setP` with its offsets is proved for it, and shown to fail as written (see "## Findings").
- **S1D on coincident points.** The source divides by zero there. Every comparison with the resulting NaN fails and `miuMax` is 0, so the source keeps `s2` whatever the projected point is. The model takes the projection parameter as 0 in that case, which gives the same result.
- **Swept-capsule test mapping.** The unit test of the broad phase calls `SphereSweptArea.Intersection`, which `Echollision/SphereSweptArea.cs` does not declare. Its cases are modelled against `SweptCapsule.Intersection`, which has the same fields `A`, `B` and `R`.

## Model

| member | source | states |
|---|---|---|
| `MathHelper.Clamp` | Echollision/MathHelper.cs:9-21 | below the range gives min, above it max, inside it the value itself; the result lies in [min, max] when min <= max |
| `MathHelper.ClampIdempotent` | Echollision/MathHelper.cs:9-21 | clamping a clamped value again changes nothing when the range is not empty |
| `MathHelper.ClampEmptyRange` | Echollision/MathHelper.cs:11-20 | with min > max the min test comes first: a value below min gives min, every other value gives max |
| `Vectors.Sign` | Echollision/Collision.cs:276 | Math.Sign is -1, 0 or 1 exactly for a negative, zero or positive argument |
| `Vectors.LengthSquaredZero` | Echollision/Collision.cs:73 | a squared length is never negative and is zero exactly for the zero vector |
| `Vectors.LengthProperties` | Echollision/Collision.cs:70 | under an exact square root, Vector2.Length is non-negative, squares to LengthSquared, and is zero only for the zero vector |
| `Vectors.NormalizeUnit` | Echollision/SphereCollider.cs:23 | a non-zero vector normalises to a vector of squared length 1 that is a positive multiple of it |
| `Vectors.NormalizeScale` | Echollision/SphereCollider.cs:23 | normalising k·d for k > 0 gives the same unit vector as normalising d |
| `Transforms.Invert` | Echollision/Collider.cs:44 | Matrix3x2.Invert succeeds exactly when the determinant is at least float.Epsilon in magnitude |
| `Transforms.InverseProduct` | Echollision/Collider.cs:43-47 | a successful inversion multiplies with the matrix to the identity on both sides |
| `Transforms.RotationInverse` | Echollision/Collider.cs:43-47 | a rotation matrix is inverted exactly by its transpose, and rotating a direction back and forth restores it |
| `Transforms.RotationUndone` | Echollision/Primitive.cs:39-43 | the inverted rotation undoes the rotation on directions in either order |
| `Transforms.RotationZero` | Echollision/ColliderTransform.cs:49-52 | CreateRotation(0) is the identity matrix |
| `Transforms.DotTransposed` | Echollision/Collider.cs:45-47 | a dot product with a rotated point equals the dot product with the direction rotated back |
| `Transforms.PlaceWithoutRotation` | Echollision/Collider.cs:47 | without rotation, placing a local point in the world adds the translation only |
| `Transforms.UnrotateWithoutRotation` | Echollision/Collider.cs:43-45 | without rotation, the local support direction is the world direction |
| `Transforms.PlacedMaximal` | Echollision/Collider.cs:34-49 | placing preserves "at least as far along": a local point at least as far along the un-rotated direction stays at least as far along the world direction once placed |
| `Transforms.PlaceTranslationShift` | Echollision/Collider.cs:47 | shifting the translation by c shifts every placed point by exactly c |
| `Transforms.CreateTransformIgnoresScale` | Echollision/ColliderTransform.cs:33-38 | the three-argument constructor keeps translation and rotation and sets Scale to One whatever scale it is given |
| `Transforms.ConstructorDefaults` | Echollision/ColliderTransform.cs:14-25 | the one- and two-argument constructors give rotation 0 and scale One |
| `Transforms.MatrixTranslation` | Echollision/ColliderTransform.cs:53 | the translation row of Matrix() is the transform's Translation, so the origin maps to it |
| `Transforms.MatrixWithoutRotation` | Echollision/ColliderTransform.cs:44-56 | a transform built from a translation alone gives the pure translation matrix and moves every point by the translation |
| `Transforms.MatrixWithRotation` | Echollision/ColliderTransform.cs:44-56 | for every constructed transform, Matrix() maps a point to the rotated point plus the translation, since the scale is One |
| `SupportMath.MaxAlongEarliest` | Echollision/ConvexCollider.cs:23-35 | the strict-greater Support loop returns the earliest of the points farthest along d: it is one of the points, no point lies farther, and every earlier point lies strictly less far |
| `SupportMath.MaxAlongMaximal` | Echollision/ConvexCollider.cs:28-34 | the result of the Support loop is at least as far along d as every point |
| `SupportMath.DotSum` | Echollision/MinkowskiSumCollider.cs:22-30 | the dot product of d with the sum of points is the sum of their dot products |
| `SupportMath.SumMaximal` | Echollision/MinkowskiSumCollider.cs:22-30 | points each no farther along d than the matching support sum to a point no farther than the sum of the supports |
| `SupportMath.MeanBoundedByMax` | Echollision/ConvexCollider.cs:12-21 | the vertex mean lies no farther along d than the farthest vertex |
| `Colliders.SubCenters` | Echollision/ConvexHullCollider.cs:12-21 | one centre per sub-collider |
| `Colliders.SubCentersIndex` | Echollision/ConvexHullCollider.cs:17 | the i-th sub-centre is the Center of the i-th sub-collider |
| `Colliders.SubSupportsIndex` | Echollision/ConvexHullCollider.cs:30 | the i-th sub-support is the Support of the i-th sub-collider along d |
| `Colliders.ComputeCenter` | Echollision/Collider.cs:14 | the Center() of every collider class, over its loops, is the specification Center: the vertex mean, mean of sub-centres, sum of sub-centres, midpoint or origin |
| `Colliders.VertexMean` | Echollision/ConvexCollider.cs:12-21 | the loop that sums the vertices and divides by their count computes their mean |
| `Colliders.CenterSum` | Echollision/MinkowskiSumCollider.cs:12-20 | the loop that adds the sub-centres computes their sum |
| `Colliders.ComputeSupport` | Echollision/Collider.cs:21 | the Support(direction) of every collider class, over its loops, is the specification Support |
| `Colliders.VertexSupport` | Echollision/ConvexCollider.cs:23-35 | the vertex loop with the strict dot comparison computes the earliest farthest vertex |
| `Colliders.HullSupport` | Echollision/ConvexHullCollider.cs:23-35 | the loop over sub-shapes with the strict comparison computes the earliest farthest sub-support |
| `Colliders.SumSupport` | Echollision/MinkowskiSumCollider.cs:22-30 | the loop that adds sub-supports computes their sum |
| `Colliders.ConvexSupportEarliest` | Echollision/ConvexCollider.cs:23-35 | the polygon support is a vertex farthest along d, the earliest such vertex |
| `Colliders.HullSupportEarliest` | Echollision/ConvexHullCollider.cs:23-35 | the hull support is the support of one sub-shape, the earliest one whose support lies farthest along d |
| `Colliders.HullOfOne` | Echollision/ConvexHullCollider.cs:12-35 | a one-element hull has the Support and the Center of its only sub-shape |
| `Colliders.SumSupportDot` | Echollision/MinkowskiSumCollider.cs:22-30 | the dot product of d with the sum's support is the sum of the dot products of the sub-supports |
| `Colliders.SumSupportMaximal` | Echollision/MinkowskiSumCollider.cs:22-30 | any choice of one point per sub-shape, each no farther than its sub-support, sums to a point no farther than the sum's support |
| `Colliders.SumOfOne` | Echollision/MinkowskiSumCollider.cs:12-30 | a one-element Minkowski sum has the Support and the Center of its only sub-shape |
| `Colliders.SegmentSupportMaximal` | Echollision/SegmentCollider.cs:23-26 | the segment support is at least as far along d as both ends, and it is b exactly when b lies strictly farther or a equals b |
| `Colliders.SegmentPerpendicular` | Echollision/SegmentCollider.cs:25 | a direction perpendicular to the segment returns a |
| `Colliders.SegmentCenterMidpoint` | Echollision/SegmentCollider.cs:18-21 | the segment centre is the midpoint: equally far from a and b, twice it is a + b |
| `Colliders.SphereSupportDot` | Echollision/SphereCollider.cs:21-24 | the sphere support along d lies radius times the length of d along d |
| `Colliders.SphereSupportAhead` | Echollision/SphereCollider.cs:21-24 | for a non-negative radius the sphere support is never behind the origin along d |
| `Colliders.SpherePoint` | Echollision/SphereCollider.cs:10-23 | radius 0 gives the origin as centre and as support in every direction |
| `Colliders.SphereScaleInvariant` | Echollision/SphereCollider.cs:23 | the sphere support along k·d equals that along d for every k > 0 |
| `Colliders.CenterWithinSupport` | Echollision/Collider.cs:10-21 | every collider's centre lies no farther along d than its support, for every shape tree with non-negative radii |
| `Colliders.WorldTranslationShift` | Echollision/Collider.cs:28-49 | shifting the translation by c shifts WorldSupport and WorldCenter by exactly c |
| `Colliders.WorldSupportWithoutRotation` | Echollision/Collider.cs:41-49 | with rotation 0, WorldSupport is the local Support plus the translation |
| `Colliders.WorldCenterWithoutRotation` | Echollision/Collider.cs:28-32 | with rotation 0, WorldCenter is the local Center plus the translation |
| `Colliders.WorldSupportMaximal` | Echollision/Collider.cs:34-49 | if the local support is farthest along the local direction, WorldSupport is at least as far along the world direction as every placed local point |
| `Colliders.WorldCenterWithinSupport` | Echollision/Collider.cs:28-49 | the world centre lies no farther along d than the world support |
| `InterfaceColliders.SubCenters` | Echollision/Collider/ConvexHullCollider.cs:12-24 | one centre per sub-collider |
| `InterfaceColliders.SubCentersIndex` | Echollision/Collider/ConvexHullCollider.cs:19 | the i-th sub-centre is the Center of the i-th sub-collider |
| `InterfaceColliders.SubSupportsIndex` | Echollision/Collider/ConvexHullCollider.cs:33 | the i-th sub-support is the Support of the i-th sub-collider |
| `InterfaceColliders.ComputeCenter` | Echollision/Collider/ICollider.cs:10 | the Center property of every ICollider class, over its loops, is the specification Center |
| `InterfaceColliders.VertexMean` | Echollision/Collider/ConvexCollider.cs:12-24 | the vertex loop computes the vertex mean |
| `InterfaceColliders.CenterSum` | Echollision/Collider/MinkowskiSumCollider.cs:12-23 | the sub-centre loop computes the sum of the sub-centres |
| `InterfaceColliders.ComputeSupport` | Echollision/Collider/ICollider.cs:16 | the Support of every ICollider class, over its loops, is the specification Support |
| `InterfaceColliders.VertexSupport` | Echollision/Collider/ConvexCollider.cs:26-38 | the vertex loop with the strict comparison computes the earliest farthest vertex |
| `InterfaceColliders.HullSupport` | Echollision/Collider/ConvexHullCollider.cs:26-38 | the sub-shape loop computes the earliest farthest sub-support |
| `InterfaceColliders.SumSupport` | Echollision/Collider/MinkowskiSumCollider.cs:25-33 | the sub-shape loop computes the sum of the sub-supports |
| `InterfaceColliders.ConvexSupportEarliest` | Echollision/Collider/ConvexCollider.cs:26-38 | the polygon support is the earliest vertex farthest along d |
| `InterfaceColliders.HullSupportEarliest` | Echollision/Collider/ConvexHullCollider.cs:26-38 | the hull support is the support of the earliest sub-shape whose support is farthest along d |
| `InterfaceColliders.SumSupportDot` | Echollision/Collider/MinkowskiSumCollider.cs:25-33 | the dot product with the sum's support is the sum of the sub-supports' dot products |
| `InterfaceColliders.SumOfOne` | Echollision/Collider/MinkowskiSumCollider.cs:16-32 | a single sub-shape gives its own Support and Center |
| `InterfaceColliders.SegmentSupportMaximal` | Echollision/Collider/SegmentCollider.cs:20-23 | the support is at least as far along the normal as both ends, and it is b exactly when b is strictly farther or a equals b |
| `InterfaceColliders.SphereSupportLinear` | Echollision/Collider/SphereCollider.cs:18-21 | the sphere support is linear in the direction: Support(-d) = -Support(d), Support(k·d) = k·Support(d), Support(0) = 0 |
| `InterfaceColliders.SphereSupportDot` | Echollision/Collider/SphereCollider.cs:20 | the support along d lies radius times the squared length of d along d |
| `InterfaceColliders.SphereSupportAhead` | Echollision/Collider/SphereCollider.cs:18-21 | a non-negative radius never puts the support behind the origin |
| `InterfaceColliders.SpherePoint` | Echollision/Collider/SphereCollider.cs:10-20 | radius 0 gives the origin as centre and as support in every direction |
| `InterfaceColliders.CenterWithinSupport` | Echollision/Collider/ICollider.cs:7-16 | every ICollider's centre is no farther along d than its support |
| `InterfaceColliders.CenterAgrees` | Echollision/Collider/ICollider.cs:10 | the two snapshots agree on Center for the same shape tree |
| `InterfaceColliders.SubCentersAgree` | Echollision/Collider/ConvexHullCollider.cs:12-24 | the two snapshots agree on every sub-centre |
| `InterfaceColliders.SupportAgreesOnUnit` | Echollision/Collider/SphereCollider.cs:18-21 | on unit directions the two snapshots agree on Support, since normalising a unit vector changes nothing; they differ only in the sphere's scaling by the direction's length |
| `InterfaceColliders.SubSupportsAgree` | Echollision/Collider/ConvexHullCollider.cs:26-38 | on unit directions the two snapshots agree on every sub-support |
| `InterfaceColliders.ToColliderValid` | Echollision/Collider/ICollider.cs:5-17 | translating a well-formed ICollider tree gives a well-formed Collider tree |
| `Primitives.Create` | Echollision/Primitive.cs:14-22 | the constructor stores type, Rx and Ry, with rotation 0 and translation zero by default |
| `Primitives.CenterIsTranslation` | Echollision/Primitive.cs:24-35 | GetCenterLegacy and Center both equal Translation for every primitive type |
| `Primitives.SphereSupportLocal` | Echollision/Primitive.cs:51 | the local sphere support lies Rx times the squared length of the normal along it |
| `Primitives.SegmentSupportLocal` | Echollision/Primitive.cs:52 | the local segment support is the end (sign(normal.X)·Rx, 0): farthest along the normal among both ends, and the origin when normal.X = 0 |
| `Primitives.SupportLocalAhead` | Echollision/Primitive.cs:47-56 | for Rx >= 0 no local support of any type lies behind the origin |
| `Primitives.PlaceOrigin` | Echollision/Primitive.cs:43 | the local origin is placed at Translation |
| `Primitives.PointSupport` | Echollision/Primitive.cs:37-53 | a Point primitive supports at Translation in every direction |
| `Primitives.SupportWithoutRotation` | Echollision/Primitive.cs:37-45 | with rotation 0, Support(n) = SupportLocal(n) + Translation |
| `Primitives.CenterWithinSupport` | Echollision/Primitive.cs:35-45 | the centre of a primitive lies no farther along n than its support |
| `Primitives.SupportMaximal` | Echollision/Primitive.cs:37-45 | if the local support is farthest along the local normal, the world support is at least as far along n as every placed local point |
| `Primitives.Centers` | Echollision/MaxSupport.cs:22 | the centres of a span of primitives, one per primitive |
| `Primitives.Supports` | Echollision/MaxSupport.cs:36 | the supports of a span of primitives along n, one per primitive |
| `MaxSupport.ComputeCenter` | Echollision/MaxSupport.cs:15-27 | the loop from zero over all primitives, divided by their count, computes the mean of their centres |
| `MaxSupport.ComputeSupport` | Echollision/MaxSupport.cs:29-41 | the loop from primitive 0 with the strict comparison computes the earliest farthest primitive support |
| `MaxSupport.SupportEarliest` | Echollision/MaxSupport.cs:29-41 | the support is one primitive's support, farthest along n, and the earliest such primitive |
| `MaxSupport.CenterWithinSupport` | Echollision/MaxSupport.cs:15-41 | the mean of the centres lies no farther along n than the support |
| `MaxSupport.OfOne` | Echollision/MaxSupport.cs:15-41 | a one-primitive span has that primitive's Support and Center |
| `MinkowskiSum.ComputeCenter` | Echollision/MinkowskiSum.cs:15-26 | the loop from primitive 0 computes the sum of the centres |
| `MinkowskiSum.ComputeSupport` | Echollision/MinkowskiSum.cs:28-36 | the loop from primitive 0 computes the sum of the supports |
| `MinkowskiSum.SupportDot` | Echollision/MinkowskiSum.cs:28-36 | the dot product with the support is the sum of the primitives' dot products |
| `MinkowskiSum.SupportMaximal` | Echollision/MinkowskiSum.cs:28-36 | one point per primitive, each no farther than its support, sums to a point no farther than the support |
| `MinkowskiSum.CenterWithinSupport` | Echollision/MinkowskiSum.cs:15-36 | the sum of the centres lies no farther along n than the support |
| `MinkowskiSum.OfOne` | Echollision/MinkowskiSum.cs:19-35 | a single primitive gives its own Support and Center |
| `Queries.Placed` | Echollision/Collision.cs:263-270 | the shape a query sees is the collider's WorldCenter and WorldSupport under its transform |
| `Queries.Contains` | Echollision/Collision.cs:67-71 | the scan over the first n buffer slots finds p exactly when p is among them |
| `Queries.WeightedSum` | Echollision/Collision.cs:91-95 | the loop from zero adding lambda[i]·w[i] computes the weighted point of the first n slots |
| `SignedVolumes.IsSameSignProduct` | Echollision/Collision.cs:504-507 | IsSameSign holds exactly when the product is positive, is symmetric, and is false when either argument is 0 |
| `SignedVolumes.MuDot` | Echollision/Collision.cs:618-619 | the projection parameter of the origin onto the line s1..s2 is dot(-s1, t) / squared length of t, and 0 for coincident points |
| `SignedVolumes.S1D` | Echollision/Collision.cs:613-662 | the in-place S1D leaves the spans and vertex count of the reference reduction Reduce1 applied to the two points |
| `SignedVolumes.Decision` | Echollision/Collision.cs:625-661 | the three branches of S1D: s2 alone when miuMax and cofactor1 disagree in sign, s1 alone when cofactor2 disagrees, else both with weights cofactor / miuMax |
| `SignedVolumes.SignTests` | Echollision/Collision.cs:639-655 | the sign tests mean: the foot lies at or beyond s2 (mu >= 1) or the points coincide; the foot lies at or before s1 (mu <= 0); in between the weights are 1 - mu and mu |
| `SignedVolumes.CofactorMeaning` | Echollision/Collision.cs:634-635 | on either axis, cofactor1 = (1 - mu)·miuMax and cofactor2 = mu·miuMax, so cofactor1 + cofactor2 = miuMax |
| `SignedVolumes.ReferenceAxisZero` | Echollision/Collision.cs:625-632 | the larger-magnitude component miuMax is zero exactly when the two points coincide |
| `SignedVolumes.Reduce1Witness` | Echollision/Collision.cs:613-662 | the point S1D's result stands for is the point of the segment closest to the origin |
| `SignedVolumes.Reduce1Weights` | Echollision/Collision.cs:639-661 | in the two-vertex case both weights are positive, sum to 1 and weight the ends to the projected point; otherwise the one vertex is s1 or s2 |
| `SignedVolumes.ProjectionOrthogonal` | Echollision/Collision.cs:619 | for distinct points the projected point is orthogonal to the segment |
| `SignedVolumes.ClosestMinimal` | Echollision/Collision.cs:613-662 | no point of the segment is nearer the origin than S1D's point |
| `SignedVolumes.Offer` | Echollision/Collision.cs:542-564 | offering an edge keeps the span lengths |
| `SignedVolumes.TryEdge` | Echollision/Collision.cs:542-564 | one edge branch of S2D over the spans: S1D on the edge, its point's squared length, and the spans and count taken over when it is below the best so far |
| `SignedVolumes.CopyFront` | Echollision/Collision.cs:558-562 | the copy loop writes the first n points and weights and leaves the rest |
| `SignedVolumes.S2D` | Echollision/Collision.cs:509-611 | the in-place S2D leaves the spans and count of the reference reduction Reduce2, with the corners read by value |
| `SignedVolumes.S2DAsWritten` | Echollision/Collision.cs:509-611 | the in-place S2D with the corners read through the aliases, as written, leaves the spans and count of Reduce2AsWritten |
| `SignedVolumes.Reduce2Interior` | Echollision/Collision.cs:524-532 | when all three cofactors share detM's sign, S2D by value keeps the three points with weights cofactor / detM, which are positive, sum to 1 and weight the corners to the origin |
| `SignedVolumes.InteriorBarycentric` | Echollision/Collision.cs:515-529 | the cofactor weights of a triangle around the origin are its barycentric coordinates of the origin |
| `SignedVolumes.EdgeDistanceClosest` | Echollision/Collision.cs:546-553 | the squared length S2D compares for an edge is that of the edge's closest point |
| `SignedVolumes.OfferSettled` | Echollision/Collision.cs:554-563 | after an edge, the best distance is at most the edge's and the kept one- or two-point simplex is at that distance |
| `SignedVolumes.Reduce2Closest` | Echollision/Collision.cs:534-610 | outside the triangle, S2D by value keeps one or two points whose witness is at least as near the origin as every point of every edge it tries |
| `SignedVolumes.Reduce2Points` | Echollision/Collision.cs:509-611 | S2D by value keeps one to three points, each a corner of the triangle |
| `SignedVolumes.Reduce2BoundedCorners` | Echollision/Collision.cs:540-610 | outside the triangle, with corners below float.MaxValue, S2D by value always takes an edge and keeps one or two points |
| `SignedVolumes.Reduce2Triangle` | Echollision/Collision.cs:524-531 | S2D by value keeps three points only by leaving the points in place |
| `SignedVolumes.Reduce2PairDistinct` | Echollision/Collision.cs:542-610 | a two-point result of S2D by value has two different points |
| `SignedVolumes.AliasingLosesNearestEdge` | Echollision/Collision.cs:509-588 | with the corners read through the aliases, when the first edge keeps s3 alone, S2D offers (s3, s3) instead of (s1, s3) and ends with s3 even though a point of the edge it means to try is strictly nearer |
| `SignedVolumes.AliasingTriangleShows` | Echollision/Collision.cs:509-588 | the triangle (-2, 0.5), (3, 2), (0, 1) meets those conditions: squared distance 1 as written against 16/17 on the edge s1..s3 |
| `SignedVolumes.FirstEdge` | Echollision/Collision.cs:542-563 | on that triangle the first edge (s2, s3) keeps s3 at squared distance 1 |
| `SignedVolumes.SecondEdge` | Echollision/Collision.cs:566-587 | on that triangle the edge (s1, s3) has its foot (-4/17, 16/17) inside, at squared distance 16/17 |
| `SignedVolumes.DistanceSv` | Echollision/Collision.cs:484-502 | the dispatch leaves the spans and count of S2D as written (with the aliases) for three points, of S1D for two, and weight 1 for one |
| `SignedVolumes.AsWrittenInterior` | Echollision/Collision.cs:524-532 | inside the triangle S2D as written and S2D by value agree, because no edge is offered |
| `SignedVolumes.AsWrittenPoints` | Echollision/Collision.cs:509-611 | S2D as written keeps one to three points, each a corner of the triangle, and keeps the span lengths |
| `SignedVolumes.AsWrittenTriangle` | Echollision/Collision.cs:524-531 | S2D as written keeps three points only by leaving the points in place |
| `SignedVolumes.AsWrittenPairDistinct` | Echollision/Collision.cs:542-610 | a two-point result of S2D as written has two different points |
| `SignedVolumes.AsWrittenBoundedCorners` | Echollision/Collision.cs:540-610 | outside the triangle, with corners below float.MaxValue, S2D as written takes an edge and keeps one or two points |
| `SignedVolumes.ReduceSimplexSubset` | Echollision/Collision.cs:484-502 | DistanceSv never increases the vertex count, keeps it in 1..count, and keeps only input points |
| `SignedVolumes.ReduceSimplexWitness` | Echollision/Collision.cs:491-497 | for two points the reduced simplex stands for the closest point of the segment, for one point for the point itself |
| `SignedVolumes.ReduceSimplexPairDistinct` | Echollision/Collision.cs:484-502 | a two-point reduction holds two different points |
| `SignedVolumes.ReduceSimplexTriangle` | Echollision/Collision.cs:484-502 | three points remain only when three went in, unchanged |
| `SignedVolumes.ReduceSimplexFull` | Echollision/Collision.cs:524-532 | when three points remain, with corners below float.MaxValue, their weighted point is the origin |
| `GjkDistance.Appended` | Echollision/Collision.cs:81-82 | writing w at setW[wCount] keeps the three slots and gives a count of 1 to 3 |
| `GjkDistance.Advance` | Echollision/Collision.cs:53-118 | one iteration, reducing through DistanceSv as written, that continues leaves at most two points in setW before the next write, so the write at setW[wCount] stays in bounds |
| `GjkDistance.ComputeDistance` | Echollision/Collision.cs:30-121 | the loop over the three-slot buffers returns the value of the iteration Distance, whose reduction is DistanceSv as written, within the 65535-iteration cap |
| `GjkDistance.Start` | Echollision/Collision.cs:45-51 | the initial v is the support of A - B along UnitX, with empty buffers |
| `GjkDistance.Iteration` | Echollision/Collision.cs:55-117 | one pass of the loop body over the buffers, calling DistanceSv as written, returns exactly what the step function Advance returns or continues with |
| `GjkDistance.CopyPrefix` | Echollision/Collision.cs:83-86 | the loop copies the first n slots of setW into setY and leaves the rest |
| `GjkDistance.MaxLengthSquaredOf` | Echollision/Collision.cs:104-109 | the termination loop computes the largest squared length among the kept points |
| `GjkDistance.MaxLengthSquaredIsMax` | Echollision/Collision.cs:104-109 | that value is attained by a kept point and bounds all of them |
| `GjkDistance.DistanceNonNegative` | Echollision/Collision.cs:30-121 | the distance is never negative |
| `GjkDistance.RunNonNegative` | Echollision/Collision.cs:53-120 | every result the loop can return from any iteration on is non-negative |
| `GjkDistance.AdvanceNonNegative` | Echollision/Collision.cs:67-117 | each early return of one iteration is non-negative |
| `GjkDistance.AppendedDistinct` | Echollision/Collision.cs:67-88 | because w is not in setY, the points handed to DistanceSv are pairwise distinct |
| `GjkDistance.AdvanceConsistent` | Echollision/Collision.cs:67-95 | every iteration keeps setW's points distinct and within setY |
| `GjkDistance.AdvanceNext` | Echollision/Collision.cs:81-95 | a continuing iteration keeps DistanceSv's reduction of the appended simplex and sets setY to the appended points |
| `GjkDistance.ThreePointsTouch` | Echollision/Collision.cs:111-115 | when three points remain after DistanceSv, Distance returns 0 and the reduced simplex stands for the origin |
| `GjkRayCast.ComputeContinuous` | Echollision/Collision.cs:135-242 | the loop over the three-slot buffers returns the result, t and normal of the iteration Continuous, whose reduction is DistanceSv as written and whose remap is bounded by the new count as written, within the 64-iteration cap |
| `GjkRayCast.Loop` | Echollision/Collision.cs:165-241 | the while loop from any iteration returns what the iteration Run with the as-written remap returns, leaving the cap as a hit |
| `GjkRayCast.RunAtCap` | Echollision/Collision.cs:165-241 | after 64 iterations the loop ends with a hit at the current t and normal |
| `GjkRayCast.Start` | Echollision/Collision.cs:143-163 | the initial state has t = 0, x and the normal at the origin, v = -(support of A - B along UnitX), and empty buffers |
| `GjkRayCast.Iteration` | Echollision/Collision.cs:167-235 | one pass of the loop body over the buffers returns exactly what the step function Advance with the as-written remap returns or continues with |
| `GjkRayCast.RefineStep` | Echollision/Collision.cs:200-235 | the second half of an iteration over the buffers, with the remap loop bounded by the new count as written, is the step function Refine |
| `GjkRayCast.MaxOffsetOf` | Echollision/Collision.cs:171-177 | the termination loop computes the largest squared length of x - setP[i] |
| `GjkRayCast.Refill` | Echollision/Collision.cs:201-206 | the refill loop sets xMinusY[i] = x - setP[i] and the lookup entries to (x - setP[i], setP[i]) for the first pCount slots |
| `GjkRayCast.SumAndRemap` | Echollision/Collision.cs:225-235 | the last loop computes v as the weighted point and remaps setP through the lookup |
| `GjkRayCast.Reduce` | Echollision/Collision.cs:224-235 | the reduction after DistanceSv, with the remap bounded by the new count (as written) or by the old one (intended), keeps the three slots and a count of them |
| `GjkRayCast.RefineKeeps` | Echollision/Collision.cs:200-235 | the second half of an iteration never changes t, x or the normal |
| `GjkRayCast.AdvanceRefine` | Echollision/Collision.cs:188-198 | a continuing iteration either keeps t, x and the normal or strictly increases t to at most 1, puts x at t·ray and sets the normal to a non-zero v |
| `GjkRayCast.AdvanceTime` | Echollision/Collision.cs:188-198 | t only grows: a continuing iteration keeps t or strictly increases it to at most 1 with x = t·ray and normal = v non-zero |
| `GjkRayCast.InitialTimed` | Echollision/Collision.cs:143-149 | the initial state satisfies the time invariant: t = 0 with a zero normal |
| `GjkRayCast.AdvanceTimed` | Echollision/Collision.cs:188-222 | every iteration keeps the time invariant: 0 <= t <= 1, and the normal is zero exactly when t is 0 |
| `GjkRayCast.AdvanceOutcome` | Echollision/Collision.cs:179-195 | every early return of one iteration has t >= 0, and a hit has t <= 1 with a zero normal exactly when t = 0 |
| `GjkRayCast.RunOutcome` | Echollision/Collision.cs:165-241 | the loop's result from any iteration on satisfies the same bounds |
| `GjkRayCast.ContinuousOutcome` | Echollision/Collision.cs:135-242 | Continuous: t >= 0, and a true result has t <= 1 and a non-zero normal exactly when t > 0 |
| `GjkRayCast.FoundEntry` | Echollision/Collision.cs:230-234 | when the lookup pairs each offset with its point, the remap finds a point p with x - p equal to the offset |
| `GjkRayCast.ReduceTracked` | Echollision/Collision.cs:224-235 | with the intended remap, among all entries filled this iteration, each kept slot of setP is the support point whose offset from x is in xMinusY; `RemapAsWrittenLosesPoint` shows the source as written does not keep this |
| `GjkRayCast.AdvanceTracked` | Echollision/Collision.cs:200-235 | with the intended remap, every continuing iteration keeps setP aligned with xMinusY |
| `GjkRayCast.RefineTracked` | Echollision/Collision.cs:200-235 | with the intended remap, the second half of an iteration leaves setP aligned with xMinusY |
| `GjkRayCast.RemapAsWrittenLosesPoint` | Echollision/Collision.cs:230 | when S1D keeps only the second of two points, the reduction with the remap as written leaves setP[0] stale, while the intended remap keeps it aligned |
| `GjkRayCast.RemapAsWrittenExample` | Echollision/Collision.cs:201-230 | x = 0 with setP = (-2, 0), (-1, 0) is such a case: the offsets differ and the projection parameter is 2 |
| `GjkRayCast.AdvanceOverflow` | Echollision/Collision.cs:216-221 | the write at xMinusY[pCount] can overflow only with three points already held |
| `GjkRayCast.NoOverflowAfterTriangle` | Echollision/Collision.cs:171-179 | once three points remain, with offsets below float.MaxValue, the next iteration returns a hit before any write, so the buffers never overflow |
| `GjkRayCast.ZeroStops` | Echollision/Collision.cs:171-179 | v = 0 ends the loop with a hit at the current t and normal |
| `GjkRayCast.ReduceInput` | Echollision/Collision.cs:216-228 | a continuing iteration holds DistanceSv's reduction of the (possibly appended) offsets, and v is its weighted point |
| `GjkRayCast.MaxOffsetNonNegative` | Echollision/Collision.cs:172-177 | the largest squared offset is never negative |
| `RayCastCases.PrioriCorrectness` | Test/NarrowPhase.cs:106-120 | the radius-0 sphere at the origin moved by (19, 0) hits the segment (0, -10)..(0, 10) placed at (10, 0) at exactly t = 10/19, with the normal (10, 0) |
| `RayCastCases.SceneHolds` | Test/NarrowPhase.cs:108-113 | both colliders of the test are well formed, and placed by their transforms they support at the points the iterations ask for |
| `RayCastCases.PointPlaced` | Echollision/SphereCollider.cs:21-24 | the radius-0 sphere placed at the origin without rotation supports at the origin in every direction the loop asks for |
| `RayCastCases.SegmentPlaced` | Echollision/SegmentCollider.cs:23-26 | the segment placed at (10, 0) without rotation supports at its upper end for directions pointing up, else at its lower end |
| `RayCastCases.Hits` | Echollision/Collision.cs:135-242 | any shapes supporting like those two, with translations (19, 0) and zero, give the hit at t = 10/19 with the normal (10, 0) |
| `RayCastCases.FourIterations` | Echollision/Collision.cs:165-241 | from the initial state, three iterations go on and the fourth, with v at the origin, stops with that hit |
| `RayCastCases.InitialBefore` | Echollision/Collision.cs:143-163 | the initial v is (10, -10), with t = 0, x and the normal at the origin and no points |
| `RayCastCases.FirstIteration` | Echollision/Collision.cs:167-235 | the first iteration keeps t = 0, adds the point (-10, -10) and sets v = (10, 10) |
| `RayCastCases.SecondIteration` | Echollision/Collision.cs:167-235 | the second adds (-10, 10); S1D keeps both at the weights 1/2 and v becomes (10, 0) |
| `RayCastCases.Halfway` | Echollision/Collision.cs:613-662 | S1D on (10, 10), (10, -10) and on (0, 10), (0, -10) keeps both points at weights 1/2 |
| `RayCastCases.ThirdIteration` | Echollision/Collision.cs:181-235 | the third finds v·w = 100 and v·r = -190, moves to t = 10/19 with x = (-10, 0) and the normal (10, 0), and reduces v to the origin |
| `RayCastCases.HitTime` | Echollision/Collision.cs:188-196 | those products give t = 0 - 100 / -190 = 10/19 and x = (-10, 0) |
| `Mpr.PositiveNormalProperties` | Echollision/Collision.cs:474-477 | ToPositiveNormal gives a vector perpendicular to its input, of equal squared length, zero only for zero, and applied twice the negated input |
| `Mpr.ChooseSided` | Echollision/Collision.cs:320-323 | choosing the new portal by the sign product replaces exactly one end and keeps the origin between the sides: v1 on the sign side, a replaced v2 on the other |
| `Mpr.CommonPointNotBehind` | Echollision/Collision.cs:302-303 | when the shapes share a point, no support of B - A is behind the origin, so the early miss at line 303 cannot fire |
| `Mpr.IntersectionCoincident` | Echollision/Collision.cs:263-266 | coincident world centres intersect |
| `Mpr.IntersectionStepSided` | Echollision/Collision.cs:287-323 | a refinement that continues keeps v1 on the sign side and replaces v1 when the sign product is 1 and v2 otherwise |
| `Mpr.IntersectionStepCommonPoint` | Echollision/Collision.cs:293-318 | with a shared point, a refinement that answers false does so only through the tolerance test or the origin on v0..v3 |
| `Mpr.ComputeIntersection` | Echollision/Collision.cs:252-327 | Collision.Intersection returns the value of the function Intersection within 10 refinements |
| `Mpr.IntersectionLoop` | Echollision/Collision.cs:285-326 | the refinement loop returns the value of the capped refinement and does at most 10 refinements |
| `Mpr.IntersectionAtCap` | Echollision/Collision.cs:326 | after the tenth refinement the answer is false |
| `Mpr.IntersectionRefinement` | Echollision/Collision.cs:289-323 | one pass of the loop body over v1 and v2 is the step function IntersectionStep and keeps v1 on the sign side |
| `Mpr.SampleSupports` | Echollision/Collision.cs:360-370 | the four supports of B - A along (0, -1), (1, 0), (0, 1), (-1, 0) |
| `Mpr.Shortest` | Echollision/Collision.cs:365-376 | the sampling loop keeps a squared length at most float.MaxValue and no longer than any sample; below float.MaxValue it is the first shortest sample |
| `Mpr.PenetrationCoincident` | Echollision/Collision.cs:358-386 | with coincident centres the normal is no longer than any sampled support, the depth is never negative, and it is the normal's length once a sample lies below float.MaxValue |
| `Mpr.CoincidentNormal` | Echollision/Collision.cs:365-378 | with coincident centres the normal is zero or one of the sampled supports |
| `Mpr.CoincidentDepth` | Echollision/Collision.cs:358-379 | with coincident centres the result is the shortest sample and the square root of its squared length |
| `Mpr.ShortestNoLonger` | Echollision/Collision.cs:367-376 | the kept support is no longer than any sample |
| `Mpr.ShortestMember` | Echollision/Collision.cs:365-376 | the kept support is zero or one of the samples |
| `Mpr.ShortestExact` | Echollision/Collision.cs:371-375 | once a sample lies below float.MaxValue, the kept squared length is that of the kept support |
| `Mpr.PenetrationStepSided` | Echollision/Collision.cs:415-460 | a refinement that continues keeps v1 on the sign side and replaces exactly one end by the sign product |
| `Mpr.PenetrationRunNormal` | Echollision/Collision.cs:413-461 | every normal the refinement loop resolves to is the origin ray or a unit vector |
| `Mpr.PenetrationNormal` | Echollision/Collision.cs:388-461 | with distinct centres the normal is centreA - centreB or a unit vector |
| `Mpr.SampleShortest` | Echollision/Collision.cs:360-376 | the sampling loop computes the first shortest sampled support and its squared length |
| `Mpr.ComputePenetrationDepth` | Echollision/Collision.cs:338-469 | Collision.PenetrationDepth returns the value of the function PenetrationDepth within 256 refinements |
| `Mpr.PenetrationLoop` | Echollision/Collision.cs:413-466 | the refinement loop returns the capped refinement's value, at most 256 refinements |
| `Mpr.PenetrationRunStep` | Echollision/Collision.cs:415-460 | one refinement either resolves the result or continues with the next portal |
| `Mpr.PenetrationAtCap` | Echollision/Collision.cs:463-466 | exhausting the 256 refinements reaches the throw of the debug build |
| `Mpr.PenetrationRefinement` | Echollision/Collision.cs:417-460 | one pass of the loop body over v1 and v2 is the step function PenetrationStep and keeps v1 on the sign side |
| `SweptCapsule.Solve` | Echollision/BroadPhase/SweptCapsule.cs:39-85 | on every path s and t lie in [0, 1], and both segments count as points exactly when both squared lengths are at most float.Epsilon |
| `SweptCapsule.General` | Echollision/BroadPhase/SweptCapsule.cs:64-84 | the general case gives parameters in [0, 1] |
| `SweptCapsule.Refine` | Echollision/BroadPhase/SweptCapsule.cs:72-83 | t from s, clamped with s recomputed when it leaves [0, 1], gives parameters in [0, 1] |
| `SweptCapsule.DistanceSquaredSegmentSegment` | Echollision/BroadPhase/SweptCapsule.cs:87-90 | the returned squared distance is never negative |
| `SweptCapsule.TermsRealizable` | Echollision/BroadPhase/SweptCapsule.cs:31-37 | the scalar products of two segments obey a, e >= 0, denom >= 0, and vanish with the segment they belong to |
| `SweptCapsule.SolveOutcome` | Echollision/BroadPhase/SweptCapsule.cs:39-63 | the degenerate branches: both points, s = 0 with t = clamp(f / e), or t = 0 with s = clamp(-c / a), else the general case |
| `SweptCapsule.SolveStationary` | Echollision/BroadPhase/SweptCapsule.cs:48-85 | for measured segments, the parameters found are a constrained critical point of the squared gap on the unit square |
| `SweptCapsule.BelowOutcome` | Echollision/BroadPhase/SweptCapsule.cs:74-78 | a t below 0 is clamped to 0 with s = clamp(-c / a) |
| `SweptCapsule.AboveOutcome` | Echollision/BroadPhase/SweptCapsule.cs:79-83 | a t above 1 is clamped to 1 with s = clamp((b - c) / a) |
| `SweptCapsule.InsideOutcome` | Echollision/BroadPhase/SweptCapsule.cs:72 | a t inside [0, 1] is kept with the first s |
| `SweptCapsule.ParallelStart` | Echollision/BroadPhase/SweptCapsule.cs:70 | for parallel non-degenerate segments s is 0 before t is computed, and t = f / e when it lies in range |
| `SweptCapsule.StationaryMinimal` | Echollision/BroadPhase/SweptCapsule.cs:48-90 | a constrained critical point is a global minimum of the squared gap over both segments |
| `SweptCapsule.DistanceAttained` | Echollision/BroadPhase/SweptCapsule.cs:42-90 | the returned value is the squared gap between two points of the segments, at parameters in [0, 1] |
| `SweptCapsule.PointGap` | Echollision/BroadPhase/SweptCapsule.cs:42-46 | when both segments have zero length every gap is the squared distance between their starts |
| `SweptCapsule.DistanceMinimal` | Echollision/BroadPhase/SweptCapsule.cs:26-91 | for measured segments no pair of points of the two segments is closer than the returned distance |
| `SweptCapsule.PointsDistance` | Echollision/BroadPhase/SweptCapsule.cs:42-46 | for two point segments the result is exactly the squared distance between the points |
| `SweptCapsule.SolvePoints` | Echollision/BroadPhase/SweptCapsule.cs:39-46 | zero-length segments take the both-points branch |
| `SweptCapsule.IntersectionBound` | Echollision/BroadPhase/SweptCapsule.cs:19-24 | Intersection holds exactly when the squared segment distance is at most (a.R + b.R)² |
| `SweptCapsule.IntersectionSound` | Echollision/BroadPhase/SweptCapsule.cs:19-24 | Intersection only reports capsules some two points of whose segments are within a.R + b.R |
| `SweptCapsule.IntersectionExact` | Echollision/BroadPhase/SweptCapsule.cs:19-24 | for measured segments Intersection holds exactly when the swept discs meet |
| `SweptCapsule.GapSwap` | Echollision/BroadPhase/SweptCapsule.cs:87-90 | the gap does not depend on which segment comes first |
| `SweptCapsule.OverlapSwap` | Echollision/BroadPhase/SweptCapsule.cs:19-24 | meeting discs meet in either order |
| `SweptCapsule.IntersectionSymmetric` | Echollision/BroadPhase/SweptCapsule.cs:19-24 | for measured segments the argument order does not change the answer |
| `CapsuleCases.DistanceAtParameters` | Echollision/BroadPhase/SweptCapsule.cs:87-90 | at the parameters found, the result is the squared distance between the two points there |
| `CapsuleCases.NearDistance` | Test/BroadPhase.cs:12-17 | (3, 4)-(6, 8) and (2, 3.9)-(-2, -4) are closest at their starts, at squared distance 1.01, in both orders |
| `CapsuleCases.NearCase` | Test/BroadPhase.cs:12-17 | radius 1.3 and 0.2 intersect in both argument orders |
| `CapsuleCases.FarDistance` | Test/BroadPhase.cs:18-23 | (3, 4)-(6, 8) and (1, 2)-(-2, -4) are closest at their starts, at squared distance 8, in both orders |
| `CapsuleCases.FarCase` | Test/BroadPhase.cs:18-21 | radius 1.3 and 0.2 do not intersect |
| `CapsuleCases.FarCaseSwapped` | Test/BroadPhase.cs:22-23 | nor in the other order |
| `CapsuleCases.WideDistance` | Test/BroadPhase.cs:25-30 | (3, 4)-(6, 8) and (2, 1)-(-3, -10) are closest at their starts, at squared distance 10, in both orders |
| `CapsuleCases.WideCase` | Test/BroadPhase.cs:25-30 | radius 1e-8 and 4 intersect in both orders |
| `CapsuleCases.DisjointDistance` | Test/BroadPhase.cs:38-43 | (-8, -8)-(23, -10) and (-10, 11)-(1, 30) are closest at their starts, at squared distance 365, in both orders |
| `CapsuleCases.DisjointCase` | Test/BroadPhase.cs:38-41 | with radius 0 they do not intersect |
| `CapsuleCases.DisjointCaseSwapped` | Test/BroadPhase.cs:42-43 | nor in the other order |
| `CapsuleCases.CrossingPoint` | Test/BroadPhase.cs:32-33 | (-8, -8)-(1, 30) and (-10, 11)-(23, -10) cross at (-161/37, 274/37), at parameters 15/37 and 19/111 |
| `CapsuleCases.CrossingParameters` | Test/BroadPhase.cs:32-37 | the routine finds exactly those parameters, in both orders |
| `CapsuleCases.CrossingDistance` | Test/BroadPhase.cs:32-37 | the crossing segments are at squared distance 0 in both orders |
| `CapsuleCases.CrossingCase` | Test/BroadPhase.cs:32-37 | with radius 0 they intersect in both orders |
| `CapsuleCases.PointsMeet` | Test/BroadPhase.cs:45-50 | point capsules at (-8, -8) and (-10, 11) of radius 10 intersect (365 <= 400), in both orders |
| `CapsuleCases.PointsMiss` | Test/BroadPhase.cs:51-54 | of radius 9 they do not (365 > 324) |
| `CapsuleCases.PointsMissSwapped` | Test/BroadPhase.cs:55-56 | nor in the other order |
| `BroadPhase.ScanMembers` | MonoGameExample/BroadPhase.cs:175-183 | the inner scan of box i from j records exactly the pairs (i, j') with j' >= j that it reaches before a box starting right of box i, and that overlap on y |
| `BroadPhase.ScanIncreasing` | MonoGameExample/BroadPhase.cs:175-183 | the scan of box i records pairs (i, j') in increasing j' |
| `BroadPhase.SweptIncreasing` | MonoGameExample/BroadPhase.cs:171-184 | the buffer after the first n boxes is increasing with first index below n |
| `BroadPhase.SweptMembers` | MonoGameExample/BroadPhase.cs:171-184 | the buffer after the first n boxes holds exactly the emitted pairs whose first box is among them |
| `BroadPhase.PairsMembers` | MonoGameExample/BroadPhase.cs:171-184 | the whole buffer holds exactly the emitted pairs |
| `BroadPhase.PairsIncreasing` | MonoGameExample/BroadPhase.cs:171-183 | the pairs are in increasing order, each (i, j) with i < j |
| `BroadPhase.PairsOnce` | MonoGameExample/BroadPhase.cs:171-183 | no unordered pair is recorded twice, in either orientation |
| `BroadPhase.PairsOverlapY` | MonoGameExample/BroadPhase.cs:181-182 | every recorded pair overlaps on y |
| `BroadPhase.PairsSound` | MonoGameExample/BroadPhase.cs:167-183 | with the boxes sorted by From.X, every recorded pair overlaps on both axes |
| `BroadPhase.PairsComplete` | MonoGameExample/BroadPhase.cs:167-183 | with the boxes sorted, every pair that overlaps on both axes is recorded |
| `BroadPhase.PairsExact` | MonoGameExample/BroadPhase.cs:167-183 | for sorted well-formed boxes the buffer holds exactly the pairs i < j that overlap on both axes |
| `BroadPhase.SortByFromX` | MonoGameExample/BroadPhase.cs:162-167 | the boxes are left sorted by From.X and are a permutation of the input |
| `BroadPhase.InsertAt` | MonoGameExample/BroadPhase.cs:167 | inserting element i into a sorted prefix extends the sorted prefix and permutes the array |
| `BroadPhase.CollisionResolve.constructor` | MonoGameExample/BroadPhase.cs:169 | the pair buffer starts empty |
| `BroadPhase.CollisionResolve.Resolve` | MonoGameExample/BroadPhase.cs:159-184 | the buffer is cleared, the boxes are sorted and permuted, and the buffer ends exactly as the sweep's pairs of the sorted boxes |
| `BroadPhase.CollisionResolve.SweepFrom` | MonoGameExample/BroadPhase.cs:173-183 | the inner while loop of box i appends exactly that box's scan to the buffer |

## Left out

- IEEE-754 single precision is not modelled: there is no rounding, overflow, NaN or infinity, and the arithmetic is exact over `real`. float.MaxValue and float.Epsilon are the exact values of those floats. The tolerances 1e-6, 0.001 and 0.01 are the exact decimals, not their nearest floats. The float-sensitive regression tests (the rotated-square ill case and the penetration ill case of Test/NarrowPhase.cs) are therefore not modelled.
- `Math.Sqrt`, `MathF.Sqrt`, `MathF.Cos` and `MathF.Sin` are not computed. They are the fields of `Vectors.Numerics`, and a lemma that needs their values assumes `ExactSqrt` / `ExactTrig` (exact roots, cos² + sin² = 1, cos 0 = 1, sin 0 = 0).
- `Vectors.Normalize`: the zero vector normalises to zero, where IEEE gives NaN. The MPR termination test treats a zero direction as never within the tolerance, which is what a comparison with NaN does.
- `Transforms.Invert`: a failed inversion yields the zero matrix, where the library yields NaNs. It is only ever applied to rotation matrices, which always invert.
- The geometric convergence of GJK and MPR is not proved. Each loop is proved equal to its capped step function, together with the invariants listed in the table: buffer bounds, the range of t, the portal side, the early returns and the caps.
- The float-sensitive `Continuous` test (Test/NarrowPhase.cs:34-36) is not modelled. The exact one (Test/NarrowPhase.cs:106-120) is `RayCastCases.PrioriCorrectness`; the test only asks for t within 0.1 of 10/19, and the model gives 10/19 exactly.
- `Colliders.Valid`: the constructors of `ConvexCollider`, `ConvexHullCollider` and `MinkowskiSumCollider` store their arrays unchecked. With an empty array, `Center` and `Support` throw IndexOutOfRangeException when they read index 0. The model requires every vertex and shape list to be non-empty, at every level of the tree. So `Queries.Placed`, and every query on such a collider, does not model that exception.
- `InterfaceColliders.Valid`: the same holds for the `ICollider` snapshot. An empty vertex or shape array makes `Center` or `Support` throw IndexOutOfRangeException, and the model requires the arrays to be non-empty.
- `MaxSupport`: `Support` throws IndexOutOfRangeException on an empty primitive span. `Center` does not throw but returns Zero / 0, which is NaN. Both carry `requires |ps| > 0`, so neither the exception nor the NaN centre is modelled.
- `MinkowskiSum`: `Center` and `Support` read index 0 first and throw IndexOutOfRangeException on an empty primitive span. Both carry `requires |ps| > 0`, so the exception is not modelled.
- `DistanceSv` with a vertex count outside 1..3 calls `Debugger.Break` and throws, so the count is a precondition.
- `PenetrationDepth`: `Collision.cs` defines DEBUG_DRAW on its first line, so exhausting the refinements throws. The model returns the `Unexpected` outcome there rather than the zero normal and depth of a release build.
- `Continuous`: the IndexOutOfRangeException that a fourth point would throw is the `IndexOutOfRange` outcome. It is proved unreachable once three points remain, when their offsets are below float.MaxValue.
- All `#if DEBUG_DRAW` blocks, DebugDraw.cs and CollisionDetail.cs are left out, because they only record drawing data.
- `ToPositiveNormal` overwrites its `ref` argument. It is the function `Mpr.PositiveNormal`, which returns the new value.
- The `Transform` of `Collider.cs` and the `ColliderTransform` of `Collision.cs` share one record, `Transforms.ColliderTransform`. The queries see a collider through `Queries.Placed` as its world centre and world support function.
- The iteration and refinement counters of the query methods are ghost outputs. Their bounds are stated, but they are not part of the result.
- `BroadPhase.SortByFromX`: the source sorts with `Span.Sort` and `CompareX`, an unstable introsort. The model sorts by insertion, so the contract promises only the order by From.X and a permutation. Among boxes with equal From.X the order, and therefore the indices in the recorded pairs, may differ from the source's.
- `BroadPhase.CollisionResolve.Resolve` sorts the boxes themselves rather than the entities that hold them, and takes the boxes as given. Computing the swept boxes, the capsule checks after the sweep and the collision response are left out, because they are example-game policy over float normalisation.
- `SweptCapsule.IntersectionExact` / `SweptCapsule.DistanceMinimal`: a segment whose squared length is positive but at most float.Epsilon is treated as a point by the source. These two lemmas therefore require "measured" segments, whose squared lengths are 0 or above float.Epsilon. `SweptCapsule.IntersectionSound` holds for all segments.
- The historical snapshots are not part of this model: Shape.cs, ShapeLegacy.cs, SupportMapping.cs, CollisionLegacy.cs and the stub MPR.cs. Neither are SapSpace.cs (a stub), the example game outside the sweep, the benchmarks and the random `NoIllCase` test.
- `Primitives.Create`: `Ry` is stored, but no operation reads it.

## Findings

| source | as written | input that shows it | evidently intended | confidence | as-written member | corrected member |
|---|---|---|---|---|---|---|
| Echollision/Collision.cs:511-513 | `s1..s3` are `ref` aliases into `w`, so once the first edge's S1D result is copied into `w` (lines 560-561), the second edge reads `(w[0], w[2])` = `(s3, s3)` instead of `(s1, s3)` | triangle s1 = (-2, 0.5), s2 = (3, 2), s3 = (0, 1): as written S2D keeps (0, 1) at squared distance 1, while the edge s1..s3 holds (-4/17, 16/17) at squared distance 16/17 | every edge is tried with the original corners, so S2D keeps the nearest point among the tried edges | not executed | `SignedVolumes.AliasingLosesNearestEdge` (with `SignedVolumes.AliasingTriangleShows`, and `SignedVolumes.S2DAsWritten`, which the queries run) | `SignedVolumes.Reduce2Closest` (with `SignedVolumes.S2D`) |
| Echollision/Collision.cs:230 | the remap searches `lookup[j]` only for `j` below the new `pCount` that DistanceSv returned, but the lookup was filled for the old count | x = (0, 0), setP = (-2, 0), (-1, 0): S1D keeps only the second offset (1, 0) at slot 0, and the remap looks only at entry 0, whose offset is (2, 0), so setP[0] stays (-2, 0) where it should become (-1, 0) | search every entry filled in this iteration, so setP[i] stays the support point whose offset from x is xMinusY[i] | not executed | `GjkRayCast.RemapAsWrittenLosesPoint` (with `GjkRayCast.RemapAsWrittenExample`, and `GjkRayCast.Reduce` with `AsWritten`, which the queries run) | `GjkRayCast.ReduceTracked` (with `GjkRayCast.AdvanceTracked`, and `GjkRayCast.Reduce` with `Intended`) |
