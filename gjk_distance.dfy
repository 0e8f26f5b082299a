// Collision.Distance: the GJK distance algorithm with the Signed Volumes
// sub-algorithm. The loop updates v, the point buffers setW and setY, the
// weight buffer lambda and their counts, so it is a method over arrays,
// proved equal to Distance, a function that runs the same iteration on
// sequences. The geometric convergence of GJK is not part of the model.

module GjkDistance {
  import opened Vectors
  import opened SignedVolumes
  import opened Queries

  /** The iteration cap of the while loop. */
  const MaxIterations: int := 65535

  /** What the loop carries from one iteration to the next: v, setW, lambda, wCount, setY and yCount. */
  datatype State = State(v: Vector2, w: seq<Vector2>, lambda: seq<real>, wCount: int, y: seq<Vector2>, yCount: int)

  /** The buffers have their three slots, and at the top of the loop at most two points are kept. */
  predicate Shaped(s: State) {
    |s.w| == 3 && |s.lambda| == 3 && |s.y| == 3 && 0 <= s.wCount <= 2 && 0 <= s.yCount <= 3
  }

  /** The outcome of one iteration: a returned distance, or the state of the next one. */
  datatype Step = Done(distance: real) | Next(state: State)

  /** Before the loop: v is the support of A - B along UnitX, every buffer empty. */
  function Initial(a: Shape, b: Shape): State {
    State(Sub(a.support(UnitX), b.support(Neg(UnitX))), ZeroPoints(), ZeroWeights(), 0, ZeroPoints(), 0)
  }

  /** The support point w of A - B along -v. */
  function NewPoint(a: Shape, b: Shape, s: State): Vector2 {
    Sub(a.support(Neg(s.v)), b.support(s.v))
  }

  /** setW with w written at wCount and counted, before DistanceSv. */
  function Appended(s: State, w: Vector2): (r: Simplex)
    requires Shaped(s)
    ensures |r.w| == 3 && |r.lambda| == 3 && 1 <= r.count <= 3
  {
    Simplex(s.w[s.wCount := w], s.lambda, s.wCount + 1)
  }

  /**
   * The largest squared length among the first n points, starting from the
   * first and replacing it only by a strictly larger one.
   */
  function MaxLengthSquared(p: seq<Vector2>, n: int): real
    requires 1 <= n <= |p|
  {
    if n == 1 then LengthSquared(p[0])
    else
      var m := MaxLengthSquared(p, n - 1);
      if LengthSquared(p[n - 1]) > m then LengthSquared(p[n - 1]) else m
  }

  /**
   * One iteration of the loop. w is returned as the distance |v| when it is
   * already in setY, or when v is within the relative error bound of the
   * support plane. Otherwise w joins setW, setY becomes the joined set,
   * DistanceSv reduces setW and v becomes its weighted point; the result
   * is 0 when three points remain, when the old |v|^2 is negligible against
   * the largest point, or when v is the origin.
   */
  function Advance(m: Numerics, a: Shape, b: Shape, s: State): (r: Step)
    requires Shaped(s)
    ensures r.Next? ==> Shaped(r.state)
  {
    var w := NewPoint(a, b, s);
    if w in s.y[..s.yCount] then Done(Length(m, s.v))
    else
      var vk := LengthSquared(s.v);
      if vk - Dot(s.v, w) <= RelativeErrorBound * vk then Done(Length(m, s.v))
      else
        var st := Appended(s, w);
        var y := st.w[..st.count] + s.y[st.count..];
        ReduceSimplexSubset(st);
        var red := ReduceSimplex(st);
        var v := Witness(red);
        if red.count >= 3 || vk <= ToleranceGjk * MaxLengthSquared(red.w, red.count) then Done(0.0)
        else if v == Zero then Done(0.0)
        else Next(State(v, red.w, red.lambda, red.count, y, st.count))
  }

  /** The loop from iteration k on; after the last iteration the result is |v|. */
  function Run(m: Numerics, a: Shape, b: Shape, s: State, k: int): real
    requires Shaped(s) && 0 <= k <= MaxIterations
    decreases MaxIterations - k
  {
    if k == MaxIterations then Length(m, s.v)
    else
      match Advance(m, a, b, s)
      case Done(d) => d
      case Next(s') => Run(m, a, b, s', k + 1)
  }

  /** The distance query between two placed shapes. */
  function Distance(m: Numerics, a: Shape, b: Shape): real {
    Run(m, a, b, Initial(a, b), 0)
  }

  // ---- The loop, over the fixed buffers ----

  /** Collision.Distance. */
  method ComputeDistance(m: Numerics, a: Shape, b: Shape) returns (distance: real, ghost iterations: int)
    ensures distance == Distance(m, a, b)
    ensures 1 <= iterations <= MaxIterations
  {
    var k := 0;
    var v, setW, setY, lambda := Start(a, b);
    var wCount := 0;
    var yCount := 0;
    assert Consistent(Initial(a, b));

    while k < MaxIterations
      invariant 0 <= k <= MaxIterations
      invariant 0 <= wCount <= 2 && 0 <= yCount <= 3
      invariant Consistent(State(v, setW[..], lambda[..], wCount, setY[..], yCount))
      invariant Run(m, a, b, State(v, setW[..], lambda[..], wCount, setY[..], yCount), k) == Distance(m, a, b)
      decreases MaxIterations - k
    {
      ghost var s := State(v, setW[..], lambda[..], wCount, setY[..], yCount);
      k := k + 1;
      var done;
      done, distance, v, wCount, yCount := Iteration(m, a, b, v, setW, lambda, wCount, setY, yCount);
      if done {
        return distance, k;
      }
      AdvanceConsistent(m, a, b, s);
    }

    distance, iterations := Length(m, v), MaxIterations;
  }

  /** The state before the loop: the initial v and three zeroed stackalloc buffers. */
  method Start(a: Shape, b: Shape) returns (v: Vector2, setW: array<Vector2>, setY: array<Vector2>, lambda: array<real>)
    ensures fresh(setW) && fresh(setY) && fresh(lambda) && setW != setY
    ensures setW.Length == 3 && setY.Length == 3 && lambda.Length == 3
    ensures State(v, setW[..], lambda[..], 0, setY[..], 0) == Initial(a, b)
  {
    v := Sub(a.support(UnitX), b.support(Neg(UnitX)));
    setW := new Vector2[3](_ => Zero);
    setY := new Vector2[3](_ => Zero);
    lambda := new real[3](_ => 0.0);
    assert setW[..] == ZeroPoints() && setY[..] == ZeroPoints() && lambda[..] == ZeroWeights();
  }

  /** The body of the while loop: a returned distance, or the updated buffers, counts and v. */
  method Iteration(m: Numerics, a: Shape, b: Shape, v: Vector2, setW: array<Vector2>, lambda: array<real>, wCount: int,
                   setY: array<Vector2>, yCount: int)
      returns (done: bool, distance: real, v': Vector2, wCount': int, yCount': int)
    requires setW.Length == 3 && lambda.Length == 3 && setY.Length == 3 && setW != setY
    requires 0 <= wCount <= 2 && 0 <= yCount <= 3
    modifies setW, lambda, setY
    ensures Advance(m, a, b, State(v, old(setW[..]), old(lambda[..]), wCount, old(setY[..]), yCount))
         == if done then Done(distance) else Next(State(v', setW[..], lambda[..], wCount', setY[..], yCount'))
  {
    ghost var s := State(v, setW[..], lambda[..], wCount, setY[..], yCount);
    var w := Sub(a.support(Neg(v)), b.support(v));
    assert w == NewPoint(a, b, s);

    var found := Contains(setY, yCount, w);
    if found {
      return true, Length(m, v), v, wCount, yCount;
    }

    var vkLengthSquared := LengthSquared(v);
    var vDotW := Dot(v, w);
    var vIsCloseToVFactor := RelativeErrorBound * vkLengthSquared;
    if vkLengthSquared - vDotW <= vIsCloseToVFactor {
      return true, Length(m, v), v, wCount, yCount;
    }

    ghost var st := Appended(s, w);
    setW[wCount] := w;
    wCount' := wCount + 1;
    assert setW[..] == st.w;
    CopyPrefix(setW, setY, wCount');
    yCount' := wCount';
    assert setY[..] == st.w[..st.count] + s.y[st.count..];

    wCount' := DistanceSv(setW, lambda, wCount');
    ReduceSimplexSubset(st);
    ghost var red := ReduceSimplex(st);
    assert red == Simplex(setW[..], lambda[..], wCount');
    v' := WeightedSum(setW, lambda, wCount');

    var maxWLengthSquared := MaxLengthSquaredOf(setW, wCount');
    if wCount' >= 3 || vkLengthSquared <= ToleranceGjk * maxWLengthSquared {
      return true, 0.0, v', wCount', yCount';
    }

    if v' == Zero {
      return true, 0.0, v', wCount', yCount';
    }
    done, distance := false, 0.0;
  }

  /** The copy loop: the first n points of src over the front of dst. */
  method CopyPrefix(src: array<Vector2>, dst: array<Vector2>, n: int)
    requires src != dst && 0 <= n <= src.Length && n <= dst.Length
    modifies dst
    ensures dst[..] == src[..n] + old(dst[..])[n..]
  {
    var i := 0;
    while i < n
      invariant 0 <= i <= n
      invariant forall j :: 0 <= j < i ==> dst[j] == src[j]
      invariant forall j :: i <= j < dst.Length ==> dst[j] == old(dst[j])
    {
      dst[i] := src[i];
      i := i + 1;
    }
    assert dst[..] == src[..n] + old(dst[..])[n..];
  }

  /** The termination loop's maximum of the squared lengths of the first n points. */
  method MaxLengthSquaredOf(p: array<Vector2>, n: int) returns (max: real)
    requires 1 <= n <= p.Length
    ensures max == MaxLengthSquared(p[..], n)
  {
    max := LengthSquared(p[0]);
    var i := 1;
    while i < n
      invariant 1 <= i <= n
      invariant max == MaxLengthSquared(p[..], i)
    {
      var wls := LengthSquared(p[i]);
      if wls > max {
        max := wls;
      }
      i := i + 1;
    }
  }
  // ---- Properties ----

  /** With an exact square root the distance is never negative. */
  lemma DistanceNonNegative(m: Numerics, a: Shape, b: Shape)
    requires ExactSqrt(m)
    ensures Distance(m, a, b) >= 0.0
  {
    RunNonNegative(m, a, b, Initial(a, b), 0);
  }

  lemma {:induction false} RunNonNegative(m: Numerics, a: Shape, b: Shape, s: State, k: int)
    requires ExactSqrt(m) && Shaped(s) && 0 <= k <= MaxIterations
    ensures Run(m, a, b, s, k) >= 0.0
    decreases MaxIterations - k, 1
  {
    if k == MaxIterations {
      LengthProperties(m, s.v);
    } else if Advance(m, a, b, s).Done? {
      AdvanceNonNegative(m, a, b, s);
    } else {
      RunNextNonNegative(m, a, b, s, k);
    }
  }

  /** The case of RunNonNegative where the iteration goes on. */
  lemma {:induction false} RunNextNonNegative(m: Numerics, a: Shape, b: Shape, s: State, k: int)
    requires ExactSqrt(m) && Shaped(s) && 0 <= k < MaxIterations && Advance(m, a, b, s).Next?
    ensures Run(m, a, b, s, k) >= 0.0
    decreases MaxIterations - k, 0
  {
    var n := RunNext(m, a, b, s, k);
    RunNonNegative(m, a, b, n, k + 1);
  }

  /** An iteration that goes on hands its state to the rest of the loop. */
  lemma RunNext(m: Numerics, a: Shape, b: Shape, s: State, k: int) returns (n: State)
    requires Shaped(s) && 0 <= k < MaxIterations && Advance(m, a, b, s).Next?
    ensures Shaped(n) && Run(m, a, b, s, k) == Run(m, a, b, n, k + 1)
  {
    n := Advance(m, a, b, s).state;
  }

  /** A distance returned by one iteration is never negative. */
  lemma AdvanceNonNegative(m: Numerics, a: Shape, b: Shape, s: State)
    requires ExactSqrt(m) && Shaped(s)
    ensures Advance(m, a, b, s).Done? ==> Advance(m, a, b, s).distance >= 0.0
  {
    LengthProperties(m, s.v);
  }

  /** The points of a sequence are pairwise different. */
  predicate Distinct(p: seq<Vector2>) {
    forall i, j :: 0 <= i < j < |p| ==> p[i] != p[j]
  }

  /**
   * What holds at the top of every iteration: the kept points of setW are
   * pairwise different and each is in setY, the set w is compared with.
   */
  predicate Consistent(s: State) {
    && Shaped(s)
    && Distinct(s.w[..s.wCount])
    && forall i :: 0 <= i < s.wCount ==> s.w[i] in s.y[..s.yCount]
  }

  /**
   * The duplicate test keeps the points handed to DistanceSv pairwise
   * different: a new w is not among the kept ones.
   */
  lemma AppendedDistinct(s: State, w: Vector2)
    requires Consistent(s) && w !in s.y[..s.yCount]
    ensures Distinct(Appended(s, w).w[..Appended(s, w).count])
  {
    var p := Appended(s, w).w[..Appended(s, w).count];
    forall i, j | 0 <= i < j < |p|
      ensures p[i] != p[j]
    {
      if j == s.wCount {
        assert p[i] == s.w[i] && s.w[i] in s.y[..s.yCount];
      } else {
        assert p[i] == s.w[..s.wCount][i] && p[j] == s.w[..s.wCount][j];
      }
    }
  }

  /** Every iteration that goes on leaves the next one consistent. */
  lemma AdvanceConsistent(m: Numerics, a: Shape, b: Shape, s: State)
    requires Consistent(s) && Advance(m, a, b, s).Next?
    ensures Consistent(Advance(m, a, b, s).state)
  {
    var st := AdvanceNext(m, a, b, s);
    ReduceSimplexSubset(st);
    ReduceSimplexPairDistinct(st);
    ReducedConsistent(st, Advance(m, a, b, s).state);
  }

  /** An iteration that goes on keeps what DistanceSv left of setW with w appended, and compares with all of that. */
  lemma AdvanceNext(m: Numerics, a: Shape, b: Shape, s: State) returns (st: Simplex)
    requires Shaped(s) && Advance(m, a, b, s).Next?
    ensures |st.w| == 3 && |st.lambda| == 3 && 1 <= st.count <= 3
    ensures var n := Advance(m, a, b, s).state;
            Shaped(n) && n.w == ReduceSimplex(st).w && n.wCount == ReduceSimplex(st).count &&
            n.yCount == st.count && n.y[..n.yCount] == st.w[..st.count]
  {
    st := Appended(s, NewPoint(a, b, s));
  }

  /** A state whose kept points are a reduction of st and whose compared points are those of st is consistent. */
  lemma ReducedConsistent(st: Simplex, n: State)
    requires 1 <= st.count <= 3 && |st.w| >= 3 && |st.lambda| >= 3
    requires 1 <= ReduceSimplex(st).count <= st.count && PairDistinct(ReduceSimplex(st))
    requires forall i :: 0 <= i < ReduceSimplex(st).count ==> ReduceSimplex(st).w[i] in st.w[..st.count]
    requires Shaped(n) && n.w == ReduceSimplex(st).w && n.wCount == ReduceSimplex(st).count
    requires n.yCount == st.count && n.y[..n.yCount] == st.w[..st.count]
    ensures Consistent(n)
  {
    assert Distinct(n.w[..n.wCount]) by {
      if n.wCount == 2 {
        assert n.w[..2][0] == n.w[0] && n.w[..2][1] == n.w[1];
      }
    }
  }

  /** The termination test's maximum is the largest of the squared lengths and one of them. */
  lemma {:induction false} MaxLengthSquaredIsMax(p: seq<Vector2>, n: int)
    requires 1 <= n <= |p|
    ensures forall i :: 0 <= i < n ==> LengthSquared(p[i]) <= MaxLengthSquared(p, n)
    ensures exists i :: 0 <= i < n && LengthSquared(p[i]) == MaxLengthSquared(p, n)
  {
    if n == 1 {
      assert LengthSquared(p[0]) == MaxLengthSquared(p, n);
    } else {
      MaxLengthSquaredIsMax(p, n - 1);
      var j :| 0 <= j < n - 1 && LengthSquared(p[j]) == MaxLengthSquared(p, n - 1);
      if LengthSquared(p[n - 1]) > MaxLengthSquared(p, n - 1) {
        assert LengthSquared(p[n - 1]) == MaxLengthSquared(p, n);
      } else {
        assert LengthSquared(p[j]) == MaxLengthSquared(p, n);
      }
    }
  }

  /**
   * Returning 0 when three points remain is exact: when the new triangle's
   * corners are nearer than float.MaxValue, its weighted point is the origin.
   */
  lemma ThreePointsTouch(m: Numerics, a: Shape, b: Shape, s: State)
    requires Shaped(s) && s.wCount == 2
    requires NewPoint(a, b, s) !in s.y[..s.yCount]
    requires LengthSquared(s.v) - Dot(s.v, NewPoint(a, b, s)) > RelativeErrorBound * LengthSquared(s.v)
    requires forall i :: 0 <= i < 3 ==> LengthSquared(Appended(s, NewPoint(a, b, s)).w[i]) < FloatMax
    requires ReduceSimplex(Appended(s, NewPoint(a, b, s))).count == 3
    ensures Advance(m, a, b, s) == Done(0.0)
    ensures Witness(ReduceSimplex(Appended(s, NewPoint(a, b, s)))) == Zero
  {
    var st := Appended(s, NewPoint(a, b, s));
    assert LengthSquared(st.w[0]) < FloatMax && LengthSquared(st.w[1]) < FloatMax && LengthSquared(st.w[2]) < FloatMax;
    ReduceSimplexFull(st);
  }
}
