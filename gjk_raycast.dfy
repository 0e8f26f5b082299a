// Collision.Continuous: the GJK ray cast. The ray is the relative motion
// translationB - translationA cast from the origin against A - B; the loop
// updates the hit parameter t, the source point x, the normal, v, the
// buffers setP, xMinusY, lookup and lambda and the count pCount, so it is a
// method over arrays, proved equal to Continuous, a function that runs the
// same iteration on sequences. The geometric convergence of the cast is not
// part of the model.

module GjkRayCast {
  import opened Vectors
  import opened SignedVolumes
  import opened Queries

  /** The iteration cap of the while loop. */
  const MaxIterations: int := 64

  /** One slot of the lookup buffer: a point x - p of the simplex and the support point p it came from. */
  datatype Entry = Entry(xMinusP: Vector2, p: Vector2)

  /** What the loop carries from one iteration to the next. */
  datatype State = State(t: real, x: Vector2, normal: Vector2, v: Vector2,
                         p: seq<Vector2>, xMinusY: seq<Vector2>, lookup: seq<Entry>, pCount: int, lambda: seq<real>)

  /** The buffers have their three slots and pCount is a count of them. */
  predicate Shaped(s: State) {
    |s.p| == 3 && |s.xMinusY| == 3 && |s.lookup| == 3 && |s.lambda| == 3 && 0 <= s.pCount <= 3
  }

  /**
   * What Continuous returns: whether the shapes will collide, with the out
   * parameters t and normal; or the IndexOutOfRangeException that writing
   * a fourth point into a three-slot buffer throws.
   */
  datatype Cast = Cast(hit: bool, t: real, normal: Vector2) | IndexOutOfRange

  /**
   * Which lookup entries the remap loop scans for each slot of setP: the
   * first pCount as DistanceSv has just reset it, which is the bound
   * Collision.cs:230 writes, or all pCount entries filled in this
   * iteration, the bound that keeps setP following the simplex.
   */
  datatype Remapping = AsWritten | Intended

  /** The outcome of one iteration: a result, or the state of the next one. */
  datatype Step = Stop(result: Cast) | Go(state: State)

  function ZeroEntries(): (r: seq<Entry>)
    ensures |r| == 3
  {
    seq(3, _ => Entry(Zero, Zero))
  }

  /** Before the loop: t = 0, x and the normal at the origin, v = -(support of A - B along UnitX). */
  function Initial(a: Shape, b: Shape): State {
    State(0.0, Zero, Zero, Neg(Sub(a.support(UnitX), b.support(Neg(UnitX)))),
          ZeroPoints(), ZeroPoints(), ZeroEntries(), 0, ZeroWeights())
  }

  /** The largest |x - p[i]|^2 for i < n, starting from 0 and replaced only by a strictly larger one. */
  function MaxOffset(x: Vector2, p: seq<Vector2>, n: int): real
    requires 0 <= n <= |p|
  {
    if n == 0 then 0.0
    else
      var m := MaxOffset(x, p, n - 1);
      var ls := LengthSquared(Sub(x, p[n - 1]));
      if ls > m then ls else m
  }

  /** xMinusY with its first n slots recomputed as x - p[i]. */
  function Offsets(x: Vector2, p: seq<Vector2>, n: int, xMinusY: seq<Vector2>): (r: seq<Vector2>)
    requires 0 <= n <= |p| && n <= |xMinusY|
    ensures |r| == |xMinusY|
  {
    seq(|xMinusY|, i requires 0 <= i < |xMinusY| => if i < n then Sub(x, p[i]) else xMinusY[i])
  }

  /** The lookup with its first n slots refilled as (x - p[i], p[i]). */
  function Entries(x: Vector2, p: seq<Vector2>, n: int, lookup: seq<Entry>): (r: seq<Entry>)
    requires 0 <= n <= |p| && n <= |lookup|
    ensures |r| == |lookup|
  {
    seq(|lookup|, i requires 0 <= i < |lookup| => if i < n then Entry(Sub(x, p[i]), p[i]) else lookup[i])
  }

  /**
   * The inner remap loop for one point q: scanning lookup[j] for j < m, the
   * p of the last entry whose xMinusP is q, or the old value when none is.
   */
  function Found(q: Vector2, lookup: seq<Entry>, m: int, old_p: Vector2): Vector2
    requires 0 <= m <= |lookup|
  {
    if m == 0 then old_p
    else if lookup[m - 1].xMinusP == q then lookup[m - 1].p
    else Found(q, lookup, m - 1, old_p)
  }

  /** The remap loop: each of the first n slots of setP looked up from its xMinusY among m entries. */
  function Remap(p: seq<Vector2>, xMinusY: seq<Vector2>, lookup: seq<Entry>, n: int, m: int): (r: seq<Vector2>)
    requires 0 <= n <= |p| && n <= |xMinusY| && 0 <= m <= |lookup|
    ensures |r| == |p|
  {
    seq(|p|, i requires 0 <= i < |p| => if i < n then Found(xMinusY[i], lookup, m, p[i]) else p[i])
  }

  /**
   * DistanceSv on the first pCount points of xMinusY, the new v, and setP
   * remapped among the lookup entries m chooses.
   */
  function Reduce(s: State, m: Remapping): (r: Step)
    requires Shaped(s) && 1 <= s.pCount
    ensures r.Go? && Shaped(r.state)
  {
    var st := Simplex(s.xMinusY, s.lambda, s.pCount);
    ReduceSimplexSubset(st);
    var red := ReduceSimplex(st);
    var bound := if m == AsWritten then red.count else s.pCount;
    Go(State(s.t, s.x, s.normal, Witness(red), Remap(s.p, red.w, s.lookup, red.count, bound),
             red.w, s.lookup, red.count, red.lambda))
  }

  /**
   * The second half of an iteration, with t, x and the normal already
   * updated and p the new support point: xMinusY and the lookup refilled
   * from setP, p appended when it is new, and the reduction.
   */
  function Refine(s: State, t: real, x: Vector2, normal: Vector2, p: Vector2, m: Remapping): (r: Step)
    requires Shaped(s)
    ensures r.Go? ==> Shaped(r.state)
  {
    var xm := Offsets(x, s.p, s.pCount, s.xMinusY);
    var lookup := Entries(x, s.p, s.pCount, s.lookup);
    if p in s.p[..s.pCount] then
      Reduce(State(t, x, normal, s.v, s.p, xm, lookup, s.pCount, s.lambda), m)
    else if s.pCount == 3 then Stop(IndexOutOfRange)
    else
      Reduce(State(t, x, normal, s.v, s.p, xm[s.pCount := Sub(x, p)], lookup[s.pCount := Entry(Sub(x, p), p)],
                   s.pCount + 1, s.lambda), m)
  }

  /**
   * One iteration of the loop. It stops with a hit when |v|^2 is negligible
   * against the simplex. Otherwise p is the support of A - B along v and
   * w = x - p; when v . w > 0 the support plane is ahead of x: a ray leaving
   * it (v . ray >= 0) misses, otherwise t advances by -(v . w) / (v . ray),
   * a t beyond 1 misses, and x moves to t ray with v as the normal.
   */
  function Advance(a: Shape, b: Shape, ray: Vector2, s: State, m: Remapping): (r: Step)
    requires Shaped(s)
    ensures r.Go? ==> Shaped(r.state)
  {
    if LengthSquared(s.v) <= ToleranceGjk * MaxOffset(s.x, s.p, s.pCount) then Stop(Cast(true, s.t, s.normal))
    else
      var p := Sub(a.support(s.v), b.support(Neg(s.v)));
      var vDotW := Dot(s.v, Sub(s.x, p));
      if vDotW > 0.0 then
        var vDotR := Dot(s.v, ray);
        if vDotR >= 0.0 then Stop(Cast(false, s.t, s.normal))
        else
          var t := s.t - vDotW / vDotR;
          if t > 1.0 then Stop(Cast(false, t, s.normal))
          else Refine(s, t, Scale(t, ray), s.v, p, m)
      else Refine(s, s.t, s.x, s.normal, p, m)
  }

  /** The loop from iteration k on; leaving it after the last iteration is a hit. */
  function Run(a: Shape, b: Shape, ray: Vector2, s: State, k: int, m: Remapping): Cast
    requires Shaped(s) && 0 <= k <= MaxIterations
    decreases MaxIterations - k
  {
    if k == MaxIterations then Cast(true, s.t, s.normal)
    else
      match Advance(a, b, ray, s, m)
      case Stop(r) => r
      case Go(s') => Run(a, b, ray, s', k + 1, m)
  }

  /** The continuous query for A moved by translationA and B moved by translationB. */
  function Continuous(a: Shape, translationA: Vector2, b: Shape, translationB: Vector2): Cast {
    Run(a, b, Sub(translationB, translationA), Initial(a, b), 0, AsWritten)
  }
  // ---- The loop, over the fixed buffers ----

  /** Collision.Continuous: the bool result with the out parameters t and normal, or the exception. */
  method ComputeContinuous(a: Shape, translationA: Vector2, b: Shape, translationB: Vector2)
      returns (result: Cast, ghost iterations: int)
    ensures result == Continuous(a, translationA, b, translationB)
    ensures 1 <= iterations <= MaxIterations
  {
    var ray, t, x, normal, v, setP, xMinusY, lookup, lambda := Start(a, translationA, b, translationB);
    result, iterations := Loop(a, b, ray, t, x, normal, v, setP, xMinusY, lookup, lambda);
  }

  /** The while loop from an empty simplex, for at most MaxIterations iterations. */
  method Loop(a: Shape, b: Shape, ray: Vector2, t0: real, x0: Vector2, normal0: Vector2, v0: Vector2,
              setP: array<Vector2>, xMinusY: array<Vector2>, lookup: array<Entry>, lambda: array<real>)
      returns (result: Cast, ghost iterations: int)
    requires setP.Length == 3 && xMinusY.Length == 3 && lookup.Length == 3 && lambda.Length == 3 && setP != xMinusY
    modifies setP, xMinusY, lookup, lambda
    ensures result == Run(a, b, ray, State(t0, x0, normal0, v0, old(setP[..]), old(xMinusY[..]), old(lookup[..]), 0, old(lambda[..])), 0, AsWritten)
    ensures 1 <= iterations <= MaxIterations
  {
    ghost var start := State(t0, x0, normal0, v0, setP[..], xMinusY[..], lookup[..], 0, lambda[..]);
    var t, x, normal, v, pCount := t0, x0, normal0, v0, 0;
    var k := 0;
    while k < MaxIterations
      invariant 0 <= k <= MaxIterations && 0 <= pCount <= 3
      invariant Run(a, b, ray, State(t, x, normal, v, setP[..], xMinusY[..], lookup[..], pCount, lambda[..]), k, AsWritten)
             == Run(a, b, ray, start, 0, AsWritten)
      decreases MaxIterations - k
    {
      k := k + 1;
      var done;
      done, result, t, x, normal, v, pCount := Iteration(a, b, ray, t, x, normal, v, setP, xMinusY, lookup, pCount, lambda);
      if done {
        return result, k;
      }
    }
    RunAtCap(a, b, ray, State(t, x, normal, v, setP[..], xMinusY[..], lookup[..], pCount, lambda[..]), AsWritten);
    result, iterations := Cast(true, t, normal), MaxIterations;
  }

  lemma RunAtCap(a: Shape, b: Shape, ray: Vector2, s: State, m: Remapping)
    requires Shaped(s)
    ensures Run(a, b, ray, s, MaxIterations, m) == Cast(true, s.t, s.normal)
  {
  }

  /** The state before the loop: t, x and the normal at zero, the initial v and zeroed stackalloc buffers. */
  method Start(a: Shape, translationA: Vector2, b: Shape, translationB: Vector2)
      returns (ray: Vector2, t: real, x: Vector2, normal: Vector2, v: Vector2, setP: array<Vector2>, xMinusY: array<Vector2>, lookup: array<Entry>, lambda: array<real>)
    ensures fresh(setP) && fresh(xMinusY) && fresh(lookup) && fresh(lambda) && setP != xMinusY
    ensures setP.Length == 3 && xMinusY.Length == 3 && lookup.Length == 3 && lambda.Length == 3
    ensures State(t, x, normal, v, setP[..], xMinusY[..], lookup[..], 0, lambda[..]) == Initial(a, b)
    ensures Run(a, b, ray, Initial(a, b), 0, AsWritten) == Continuous(a, translationA, b, translationB)
  {
    ray := Sub(translationB, translationA);
    t, x, normal := 0.0, Zero, Zero;
    v := Neg(Sub(a.support(UnitX), b.support(Neg(UnitX))));
    setP := new Vector2[3](_ => Zero);
    xMinusY := new Vector2[3](_ => Zero);
    lookup := new Entry[3](_ => Entry(Zero, Zero));
    lambda := new real[3](_ => 0.0);
    assert setP[..] == ZeroPoints() && xMinusY[..] == ZeroPoints();
    assert lookup[..] == ZeroEntries() && lambda[..] == ZeroWeights();
  }

  /** The body of the while loop: a result, or the updated t, x, normal, v, buffers and count. */
  method Iteration(a: Shape, b: Shape, ray: Vector2, t: real, x: Vector2, normal: Vector2, v: Vector2,
                   setP: array<Vector2>, xMinusY: array<Vector2>, lookup: array<Entry>, pCount: int, lambda: array<real>)
      returns (done: bool, result: Cast, t': real, x': Vector2, normal': Vector2, v': Vector2, pCount': int)
    requires setP.Length == 3 && xMinusY.Length == 3 && lookup.Length == 3 && lambda.Length == 3 && setP != xMinusY
    requires 0 <= pCount <= 3
    modifies setP, xMinusY, lookup, lambda
    ensures Advance(a, b, ray, State(t, x, normal, v, old(setP[..]), old(xMinusY[..]), old(lookup[..]), pCount, old(lambda[..])), AsWritten)
         == if done then Stop(result) else Go(State(t', x', normal', v', setP[..], xMinusY[..], lookup[..], pCount', lambda[..]))
  {
    ghost var s := State(t, x, normal, v, setP[..], xMinusY[..], lookup[..], pCount, lambda[..]);
    t', x', normal', v', pCount' := t, x, normal, v, pCount;
    result := IndexOutOfRange;

    var vLengthSquared := LengthSquared(v);
    var maxPxLengthSquared := MaxOffsetOf(x, setP, pCount);
    if vLengthSquared <= ToleranceGjk * maxPxLengthSquared {
      return true, Cast(true, t, normal), t', x', normal', v', pCount';
    }

    var p := Sub(a.support(v), b.support(Neg(v)));
    var w := Sub(x, p);
    var vDotW := Dot(v, w);
    if vDotW > 0.0 {
      var vDotR := Dot(v, ray);
      if vDotR >= 0.0 {
        return true, Cast(false, t, normal), t', x', normal', v', pCount';
      }
      t' := t - vDotW / vDotR;
      if t' > 1.0 {
        return true, Cast(false, t', normal), t', x', normal', v', pCount';
      }
      x' := Scale(t', ray);
      normal' := v;
    }

    done, result, v', pCount' := RefineStep(s, t', x', normal', p, setP, xMinusY, lookup, pCount, lambda);
  }

  /** The second half of the loop body over the buffers: Refine. */
  method RefineStep(ghost s: State, t: real, x: Vector2, normal: Vector2, p: Vector2,
                    setP: array<Vector2>, xMinusY: array<Vector2>, lookup: array<Entry>, pCount: int, lambda: array<real>)
      returns (done: bool, result: Cast, v': Vector2, pCount': int)
    requires setP.Length == 3 && xMinusY.Length == 3 && lookup.Length == 3 && lambda.Length == 3 && setP != xMinusY
    requires Shaped(s) && s.p == setP[..] && s.xMinusY == xMinusY[..] && s.lookup == lookup[..]
    requires s.pCount == pCount && s.lambda == lambda[..]
    modifies setP, xMinusY, lookup, lambda
    ensures Refine(s, t, x, normal, p, AsWritten)
         == if done then Stop(result) else Go(State(t, x, normal, v', setP[..], xMinusY[..], lookup[..], pCount', lambda[..]))
  {
    result := IndexOutOfRange;
    pCount' := pCount;
    Refill(x, setP, xMinusY, lookup, pCount);
    ghost var xm, entries := xMinusY[..], lookup[..];
    var found := Contains(setP, pCount, p);
    if !found {
      if pCount == 3 {
        return true, IndexOutOfRange, Zero, pCount';
      }
      xMinusY[pCount] := Sub(x, p);
      lookup[pCount] := Entry(xMinusY[pCount], p);
      pCount' := pCount + 1;
      assert xMinusY[..] == xm[pCount := Sub(x, p)];
      assert lookup[..] == entries[pCount := Entry(Sub(x, p), p)];
    }

    ghost var st := Simplex(xMinusY[..], lambda[..], pCount');
    pCount' := DistanceSv(xMinusY, lambda, pCount');
    ReduceSimplexSubset(st);
    v' := SumAndRemap(xMinusY, lambda, lookup, setP, pCount', pCount');
    done := false;
  }

  /** The termination loop's maximum of |x - setP[i]|^2 over the first n points. */
  method MaxOffsetOf(x: Vector2, setP: array<Vector2>, n: int) returns (max: real)
    requires 0 <= n <= setP.Length
    ensures max == MaxOffset(x, setP[..], n)
  {
    max := 0.0;
    var i := 0;
    while i < n
      invariant 0 <= i <= n
      invariant max == MaxOffset(x, setP[..], i)
    {
      var ls := LengthSquared(Sub(x, setP[i]));
      if ls > max {
        max := ls;
      }
      i := i + 1;
    }
  }

  /** The loop that recomputes xMinusY and the lookup from setP and the current x. */
  method Refill(x: Vector2, setP: array<Vector2>, xMinusY: array<Vector2>, lookup: array<Entry>, n: int)
    requires setP != xMinusY && 0 <= n <= setP.Length && n <= xMinusY.Length && n <= lookup.Length
    modifies xMinusY, lookup
    ensures xMinusY[..] == Offsets(x, setP[..], n, old(xMinusY[..]))
    ensures lookup[..] == Entries(x, setP[..], n, old(lookup[..]))
  {
    var i := 0;
    while i < n
      invariant 0 <= i <= n
      invariant forall j :: 0 <= j < xMinusY.Length ==> xMinusY[j] == if j < i then Sub(x, setP[j]) else old(xMinusY[j])
      invariant forall j :: 0 <= j < lookup.Length ==> lookup[j] == if j < i then Entry(Sub(x, setP[j]), setP[j]) else old(lookup[j])
    {
      xMinusY[i] := Sub(x, setP[i]);
      lookup[i] := Entry(xMinusY[i], setP[i]);
      i := i + 1;
    }
    assert xMinusY[..] == Offsets(x, setP[..], n, old(xMinusY[..]));
    assert lookup[..] == Entries(x, setP[..], n, old(lookup[..]));
  }

  /**
   * The last loop: v summed over the first n points of xMinusY, and each
   * of those slots of setP looked up among the first m lookup entries.
   */
  method SumAndRemap(xMinusY: array<Vector2>, lambda: array<real>, lookup: array<Entry>, setP: array<Vector2>, n: int, m: int)
      returns (v: Vector2)
    requires setP != xMinusY && 0 <= n <= setP.Length && n <= xMinusY.Length && n <= lambda.Length
    requires 0 <= m <= lookup.Length
    modifies setP
    ensures v == Weighted(xMinusY[..], lambda[..], n)
    ensures setP[..] == Remap(old(setP[..]), xMinusY[..], lookup[..], n, m)
  {
    v := Zero;
    var i := 0;
    while i < n
      invariant 0 <= i <= n
      invariant v == Weighted(xMinusY[..], lambda[..], i)
      invariant forall k :: 0 <= k < setP.Length ==>
                  setP[k] == if k < i then Found(xMinusY[k], lookup[..], m, old(setP[k])) else old(setP[k])
    {
      v := Add(v, Scale(lambda[i], xMinusY[i]));
      var j := 0;
      while j < m
        invariant 0 <= j <= m
        invariant setP[i] == Found(xMinusY[i], lookup[..], j, old(setP[i]))
        invariant forall k :: 0 <= k < setP.Length && k != i ==>
                    setP[k] == if k < i then Found(xMinusY[k], lookup[..], m, old(setP[k])) else old(setP[k])
      {
        if xMinusY[i] == lookup[j].xMinusP {
          setP[i] := lookup[j].p;
        }
        j := j + 1;
      }
      i := i + 1;
    }
    assert setP[..] == Remap(old(setP[..]), xMinusY[..], lookup[..], n, m);
  }
  // ---- The hit parameter and the normal ----

  /**
   * What the loop keeps of t, x and the normal: t in [0, 1], x the point t
   * along the ray, and a normal exactly when t has moved away from 0.
   */
  predicate Timed(ray: Vector2, s: State) {
    0.0 <= s.t <= 1.0 && s.x == Scale(s.t, ray) && (s.normal == Zero <==> s.t == 0.0)
  }

  lemma InitialTimed(a: Shape, b: Shape, ray: Vector2)
    ensures Shaped(Initial(a, b)) && Timed(ray, Initial(a, b))
  {
    assert Scale(0.0, ray) == Zero;
  }

  /** Refine keeps the t, x and normal it is given. */
  lemma RefineKeeps(s: State, t: real, x: Vector2, normal: Vector2, p: Vector2, m: Remapping)
    requires Shaped(s)
    ensures var st := Refine(s, t, x, normal, p, m);
            st.Go? ==> st.state.t == t && st.state.x == x && st.state.normal == normal
  {
  }

  /**
   * An iteration that goes on is Refine at the t, x and normal it picked:
   * either the old ones, or a later t at most 1 with x on the ray and v as
   * the normal.
   */
  lemma AdvanceRefine(a: Shape, b: Shape, ray: Vector2, s: State, m: Remapping) returns (t: real, x: Vector2, normal: Vector2, p: Vector2)
    requires Shaped(s) && Advance(a, b, ray, s, m).Go?
    ensures Advance(a, b, ray, s, m) == Refine(s, t, x, normal, p, m)
    ensures (t == s.t && x == s.x && normal == s.normal) ||
            (s.t < t <= 1.0 && x == Scale(t, ray) && normal == s.v && s.v != Zero)
  {
    p := Sub(a.support(s.v), b.support(Neg(s.v)));
    var vDotW := Dot(s.v, Sub(s.x, p));
    if vDotW > 0.0 {
      var vDotR := Dot(s.v, ray);
      t := s.t - vDotW / vDotR;
      x, normal := Scale(t, ray), s.v;
      assert vDotR < 0.0 && t <= 1.0;
      TimeAdvances(s.t, vDotW, vDotR);
      DotNonZero(s.v, ray);
    } else {
      t, x, normal := s.t, s.x, s.normal;
    }
  }

  /** The update t - (v . w) / (v . r) moves t forward when v . w > 0 and v . r < 0. */
  lemma TimeAdvances(t: real, vDotW: real, vDotR: real)
    requires vDotW > 0.0 && vDotR < 0.0
    ensures t < t - vDotW / vDotR
  {
    QuotientNegative(vDotW, vDotR);
  }

  lemma DotNonZero(v: Vector2, r: Vector2)
    requires Dot(v, r) != 0.0
    ensures v != Zero
  {
  }

  /**
   * An iteration either leaves t, x and the normal alone, or moves t
   * strictly forward, at most to 1, with x on the ray at the new t and the
   * old v, never Zero, as the normal.
   */
  lemma AdvanceTime(a: Shape, b: Shape, ray: Vector2, s: State, m: Remapping)
    requires Shaped(s)
    ensures Advance(a, b, ray, s, m).Go? ==>
              var n := Advance(a, b, ray, s, m).state;
              (n.t == s.t && n.x == s.x && n.normal == s.normal) ||
              (s.t < n.t <= 1.0 && n.x == Scale(n.t, ray) && n.normal == s.v && s.v != Zero)
  {
    if Advance(a, b, ray, s, m).Go? {
      var t, x, normal, p := AdvanceRefine(a, b, ray, s, m);
      RefineKeeps(s, t, x, normal, p, m);
    }
  }

  lemma QuotientNegative(n: real, d: real)
    requires n > 0.0 && d < 0.0
    ensures n / d < 0.0
  {
    assert (n / d) * d == n;
  }

  /** Timed is an invariant of the loop. */
  lemma AdvanceTimed(a: Shape, b: Shape, ray: Vector2, s: State, m: Remapping)
    requires Shaped(s) && Timed(ray, s)
    ensures Advance(a, b, ray, s, m).Go? ==> Timed(ray, Advance(a, b, ray, s, m).state)
  {
    AdvanceTime(a, b, ray, s, m);
  }

  /** What a result promises: t >= 0, and for a hit t <= 1 and a normal exactly when t > 0. */
  predicate Bounded(r: Cast) {
    r.Cast? ==> 0.0 <= r.t && (r.hit ==> r.t <= 1.0 && (r.normal == Zero <==> r.t == 0.0))
  }

  /** A result of one iteration from a Timed state is Bounded. */
  lemma AdvanceOutcome(a: Shape, b: Shape, ray: Vector2, s: State, m: Remapping)
    requires Shaped(s) && Timed(ray, s)
    ensures Advance(a, b, ray, s, m).Stop? ==> Bounded(Advance(a, b, ray, s, m).result)
  {
  }

  /** From a Timed state the loop's result is Bounded. */
  lemma {:induction false} RunOutcome(a: Shape, b: Shape, ray: Vector2, s: State, k: int, m: Remapping)
    requires Shaped(s) && Timed(ray, s) && 0 <= k <= MaxIterations
    ensures Bounded(Run(a, b, ray, s, k, m))
    decreases MaxIterations - k, 1
  {
    if k < MaxIterations {
      if Advance(a, b, ray, s, m).Stop? {
        AdvanceOutcome(a, b, ray, s, m);
      } else {
        RunOutcomeGo(a, b, ray, s, k, m);
      }
    }
  }

  /** The case of RunOutcome where the iteration goes on: the loop from the next state. */
  lemma {:induction false} RunOutcomeGo(a: Shape, b: Shape, ray: Vector2, s: State, k: int, m: Remapping)
    requires Shaped(s) && Timed(ray, s) && 0 <= k < MaxIterations && Advance(a, b, ray, s, m).Go?
    ensures Bounded(Run(a, b, ray, s, k, m))
    decreases MaxIterations - k, 0
  {
    var n := RunGo(a, b, ray, s, k, m);
    RunOutcome(a, b, ray, n, k + 1, m);
  }

  /** An iteration that goes on leaves a Timed state whose loop gives the same result. */
  lemma RunGo(a: Shape, b: Shape, ray: Vector2, s: State, k: int, m: Remapping) returns (n: State)
    requires Shaped(s) && Timed(ray, s) && 0 <= k < MaxIterations && Advance(a, b, ray, s, m).Go?
    ensures Shaped(n) && Timed(ray, n) && Run(a, b, ray, s, k, m) == Run(a, b, ray, n, k + 1, m)
  {
    n := Advance(a, b, ray, s, m).state;
    AdvanceTimed(a, b, ray, s, m);
  }

  /**
   * Continuous: a hit comes with a time of impact in [0, 1]; the normal is
   * Zero exactly when the shapes already touch at t = 0.
   */
  lemma ContinuousOutcome(a: Shape, translationA: Vector2, b: Shape, translationB: Vector2)
    ensures var r := Continuous(a, translationA, b, translationB);
            r.Cast? ==> 0.0 <= r.t && (r.hit ==> r.t <= 1.0 && (r.normal == Zero <==> r.t == 0.0))
  {
    var ray := Sub(translationB, translationA);
    InitialTimed(a, b, ray);
    RunOutcome(a, b, ray, Initial(a, b), 0, AsWritten);
  }

  // ---- setP follows the simplex ----

  /** Each of the first pCount slots of setP is the support point whose offset from x is in xMinusY. */
  predicate Tracked(s: State)
    requires Shaped(s)
  {
    forall i :: 0 <= i < s.pCount ==> Sub(s.x, s.p[i]) == s.xMinusY[i]
  }

  /** The first m lookup entries each pair an offset with the point it is x minus. */
  predicate Paired(x: Vector2, lookup: seq<Entry>, m: int)
    requires 0 <= m <= |lookup|
  {
    forall j :: 0 <= j < m ==> lookup[j].xMinusP == Sub(x, lookup[j].p)
  }

  /** An offset that has an entry among the first m is mapped back to a point with that offset. */
  lemma {:induction false} FoundEntry(x: Vector2, q: Vector2, lookup: seq<Entry>, m: int, d: Vector2)
    requires 0 <= m <= |lookup| && Paired(x, lookup, m)
    requires exists j :: 0 <= j < m && lookup[j].xMinusP == q
    ensures Sub(x, Found(q, lookup, m, d)) == q
    decreases m
  {
    if lookup[m - 1].xMinusP != q {
      var j :| 0 <= j < m && lookup[j].xMinusP == q;
      assert j < m - 1;
      FoundEntry(x, q, lookup, m - 1, d);
    }
  }

  /**
   * With the intended remap, a lookup paired and matching xMinusY leaves
   * setP tracking the reduced simplex.
   */
  lemma ReduceTracked(s: State)
    requires Shaped(s) && 1 <= s.pCount && Paired(s.x, s.lookup, s.pCount)
    requires forall j :: 0 <= j < s.pCount ==> s.lookup[j].xMinusP == s.xMinusY[j]
    ensures Tracked(Reduce(s, Intended).state)
  {
    var st := Simplex(s.xMinusY, s.lambda, s.pCount);
    ReduceSimplexSubset(st);
    var red := ReduceSimplex(st);
    var n := Reduce(s, Intended).state;
    forall i | 0 <= i < n.pCount
      ensures Sub(n.x, n.p[i]) == n.xMinusY[i]
    {
      var q := red.w[i];
      assert q in s.xMinusY[..s.pCount];
      var j :| 0 <= j < s.pCount && s.xMinusY[j] == q;
      assert s.lookup[j].xMinusP == q;
      FoundEntry(s.x, q, s.lookup, s.pCount, s.p[i]);
    }
  }

  /** With the intended remap, setP is tracked after every iteration that goes on, whatever it held before. */
  lemma AdvanceTracked(a: Shape, b: Shape, ray: Vector2, s: State)
    requires Shaped(s)
    ensures Advance(a, b, ray, s, Intended).Go? ==> Tracked(Advance(a, b, ray, s, Intended).state)
  {
    if Advance(a, b, ray, s, Intended).Go? {
      var t, x, normal, p := AdvanceRefine(a, b, ray, s, Intended);
      RefineTracked(s, t, x, normal, p);
    }
  }

  /** With the intended remap, the second half of an iteration leaves setP tracked. */
  lemma RefineTracked(s: State, t: real, x: Vector2, normal: Vector2, p: Vector2)
    requires Shaped(s)
    ensures Refine(s, t, x, normal, p, Intended).Go? ==> Tracked(Refine(s, t, x, normal, p, Intended).state)
  {
    var xm := Offsets(x, s.p, s.pCount, s.xMinusY);
    var lookup := Entries(x, s.p, s.pCount, s.lookup);
    if p in s.p[..s.pCount] {
      ReduceTracked(State(t, x, normal, s.v, s.p, xm, lookup, s.pCount, s.lambda));
    } else if s.pCount < 3 {
      ReduceTracked(State(t, x, normal, s.v, s.p, xm[s.pCount := Sub(x, p)], lookup[s.pCount := Entry(Sub(x, p), p)],
                          s.pCount + 1, s.lambda));
    }
  }

  // ---- The remap bound as written ----

  /**
   * A state whose two tracked points s1 = x - p0 and s2 = x - p1 have the
   * foot of the origin at or beyond s2 (x at the origin, s1 = (2, 0) and
   * s2 = (1, 0), say): S1D keeps s2 alone, in slot 0. As written slot 0 of
   * setP keeps p0, whose offset s1 is no longer the simplex's; the
   * corrected bound finds p1.
   */
  lemma RemapAsWrittenLosesPoint(s: State)
    requires Shaped(s) && s.pCount == 2 && Tracked(s) && Paired(s.x, s.lookup, 2)
    requires s.lookup[0].xMinusP == s.xMinusY[0] && s.lookup[1].xMinusP == s.xMinusY[1]
    requires s.xMinusY[0] != s.xMinusY[1] && Mu(s.xMinusY[0], s.xMinusY[1]) >= 1.0
    ensures !Tracked(Reduce(s, AsWritten).state) && Tracked(Reduce(s, Intended).state)
  {
    var s1, s2 := s.xMinusY[0], s.xMinusY[1];
    assert Reduce1(s1, s2) == One(s2);
    var w := Reduce(s, AsWritten).state;
    assert w.pCount == 1 && w.xMinusY[0] == s2;
    assert Found(s2, s.lookup, 1, s.p[0]) == Found(s2, s.lookup, 0, s.p[0]) == s.p[0];
    assert Sub(w.x, w.p[0]) == s1;
    ReduceTracked(s);
  }

  /** The numbers of the example: the foot of the origin on the line through (2, 0) and (1, 0) lies beyond (1, 0). */
  lemma RemapAsWrittenExample(x: Vector2, p0: Vector2, p1: Vector2)
    requires x == Zero && p0 == Vector2(-2.0, 0.0) && p1 == Vector2(-1.0, 0.0)
    ensures Sub(x, p0) != Sub(x, p1) && Mu(Sub(x, p0), Sub(x, p1)) == 2.0
  {
  }

  // ---- The fourth point ----

  /** The IndexOutOfRangeException can only be thrown with all three slots in use. */
  lemma AdvanceOverflow(a: Shape, b: Shape, ray: Vector2, s: State, m: Remapping)
    requires Shaped(s) && Advance(a, b, ray, s, m) == Stop(IndexOutOfRange)
    ensures s.pCount == 3
  {
  }

  /**
   * Three slots are in use after an iteration only when the whole triangle
   * survived DistanceSv; when its corners are below float.MaxValue it
   * contains x, v is Zero and the next iteration stops with a hit instead.
   */
  lemma NoOverflowAfterTriangle(a: Shape, b: Shape, ray: Vector2, s: State, m: Remapping)
    requires Shaped(s) && Advance(a, b, ray, s, m).Go? && Advance(a, b, ray, s, m).state.pCount == 3
    requires var n := Advance(a, b, ray, s, m).state;
             LengthSquared(n.xMinusY[0]) < FloatMax && LengthSquared(n.xMinusY[1]) < FloatMax &&
             LengthSquared(n.xMinusY[2]) < FloatMax
    ensures var n := Advance(a, b, ray, s, m).state;
            Advance(a, b, ray, n, m) == Stop(Cast(true, n.t, n.normal))
  {
    var n := Advance(a, b, ray, s, m).state;
    var r := ReduceInput(a, b, ray, s, m);
    ReduceSimplexSubset(r);
    ReduceSimplexTriangle(r);
    ReduceSimplexFull(r);
    ZeroStops(a, b, ray, n, m);
  }

  /** With v at Zero the termination test holds, since the maximum offset is never negative. */
  lemma ZeroStops(a: Shape, b: Shape, ray: Vector2, n: State, m: Remapping)
    requires Shaped(n) && n.v == Zero
    ensures Advance(a, b, ray, n, m) == Stop(Cast(true, n.t, n.normal))
  {
    MaxOffsetNonNegative(n.x, n.p, n.pCount);
  }

  /** The simplex DistanceSv reduced in an iteration that goes on. */
  lemma ReduceInput(a: Shape, b: Shape, ray: Vector2, s: State, m: Remapping) returns (r: Simplex)
    requires Shaped(s) && Advance(a, b, ray, s, m).Go?
    ensures 1 <= r.count <= 3 && |r.w| == 3 && |r.lambda| == 3
    ensures 1 <= ReduceSimplex(r).count <= 3 && |ReduceSimplex(r).w| == 3 && |ReduceSimplex(r).lambda| == 3
    ensures var red := ReduceSimplex(r);
            var n := Advance(a, b, ray, s, m).state;
            n.xMinusY == red.w && n.pCount == red.count && n.v == Witness(red)
  {
    var t, x, normal, p := AdvanceRefine(a, b, ray, s, m);
    var xm := Offsets(x, s.p, s.pCount, s.xMinusY);
    r := if p in s.p[..s.pCount] then Simplex(xm, s.lambda, s.pCount)
         else Simplex(xm[s.pCount := Sub(x, p)], s.lambda, s.pCount + 1);
    ReduceSimplexSubset(r);
  }

  lemma {:induction false} MaxOffsetNonNegative(x: Vector2, p: seq<Vector2>, n: int)
    requires 0 <= n <= |p|
    ensures MaxOffset(x, p, n) >= 0.0
    decreases n
  {
    if n > 0 {
      MaxOffsetNonNegative(x, p, n - 1);
    }
  }
}
