// The sort-and-sweep pair generation of the example game's collision system
// (MonoGameExample/BroadPhase.cs, CollisionResolveSystem): the swept boxes are
// sorted by the x of their lower corner, then every box scans the boxes after
// it until one starts to the right of its own right edge, and records each
// scanned box that overlaps it on y.
//
// Pairs is the exact sequence the sweep appends; CollisionResolve.Resolve is
// the loop itself, proved to leave the sorted boxes and exactly that sequence.
// The lemmas say what the sequence means: its pairs are increasing, so no
// pair appears twice, and once the boxes are sorted it holds exactly the
// pairs of boxes that overlap on both axes.

module BroadPhase {
  import opened Vectors

  /** A SweptBox: the axis-aligned box with lower corner from and upper corner to. */
  datatype SweptBox = SweptBox(from: Vector2, to: Vector2)

  /** A pair of indices into the sorted boxes, as the intersection buffer stores it. */
  type IndexPair = (int, int)

  /** Ascending order of the lower corners' x, the order CompareX sorts by. */
  ghost predicate SortedByFromX(s: seq<SweptBox>) {
    forall p, q :: 0 <= p < q < |s| ==> s[p].from.x <= s[q].from.x
  }

  /** A box whose lower corner is below and to the left of its upper corner. */
  ghost predicate WellFormed(s: seq<SweptBox>) {
    forall k :: 0 <= k < |s| ==> s[k].from.x <= s[k].to.x
  }

  /** The y test of the sweep: neither box lies entirely above the other. */
  predicate OverlapY(a: SweptBox, b: SweptBox) {
    !(a.from.y > b.to.y || a.to.y < b.from.y)
  }

  /** The two boxes' x ranges meet. */
  predicate OverlapX(a: SweptBox, b: SweptBox) {
    a.from.x <= b.to.x && b.from.x <= a.to.x
  }

  /**
   * The pairs the inner loop of box i appends from index j on: it stops at
   * the end or at the first box that starts to the right of box i.
   */
  function Scan(s: seq<SweptBox>, i: int, j: int): seq<IndexPair>
    requires 0 <= i < j <= |s|
    decreases |s| - j
  {
    if j == |s| || s[j].from.x > s[i].to.x then []
    else (if OverlapY(s[i], s[j]) then [(i, j)] else []) + Scan(s, i, j + 1)
  }

  /** The buffer after the outer loop has handled boxes 0 .. n-1. */
  function Swept(s: seq<SweptBox>, n: int): seq<IndexPair>
    requires 0 <= n <= |s|
  {
    if n == 0 then [] else Swept(s, n - 1) + Scan(s, n - 1, n)
  }

  /** The whole buffer after the sweep. */
  function Pairs(s: seq<SweptBox>): seq<IndexPair> {
    Swept(s, |s|)
  }

  /** The scan of box i went past every box after it up to box j. */
  ghost predicate Reaches(s: seq<SweptBox>, i: int, j: int)
    requires 0 <= i < |s| && j < |s|
  {
    forall k :: i < k <= j ==> s[k].from.x <= s[i].to.x
  }

  /** What the sweep records: a later box j reached by the scan of box i that overlaps it on y. */
  ghost predicate Emitted(s: seq<SweptBox>, p: IndexPair) {
    0 <= p.0 < p.1 < |s| && Reaches(s, p.0, p.1) && OverlapY(s[p.0], s[p.1])
  }

  /** Lexicographic order of index pairs. */
  predicate Before(p: IndexPair, q: IndexPair) {
    p.0 < q.0 || (p.0 == q.0 && p.1 < q.1)
  }

  ghost predicate Increasing(r: seq<IndexPair>) {
    forall a, b :: 0 <= a < b < |r| ==> Before(r[a], r[b])
  }

  /** The scan of box i from j records exactly the emitted pairs (i, j') with j' >= j. */
  lemma {:induction false} ScanMembers(s: seq<SweptBox>, i: int, j: int, p: IndexPair)
    requires 0 <= i < j <= |s|
    requires forall k :: i < k < j ==> s[k].from.x <= s[i].to.x
    ensures p in Scan(s, i, j) <==> p.0 == i && j <= p.1 && Emitted(s, p)
    decreases |s| - j
  {
    if j == |s| || s[j].from.x > s[i].to.x {
      assert p in Scan(s, i, j) <==> false;
    } else {
      ScanMembers(s, i, j + 1, p);
    }
  }

  /** The pairs of one scan are increasing. */
  lemma {:induction false} ScanIncreasing(s: seq<SweptBox>, i: int, j: int)
    requires 0 <= i < j <= |s|
    ensures Increasing(Scan(s, i, j))
    ensures forall p :: p in Scan(s, i, j) ==> p.0 == i && j <= p.1
    decreases |s| - j
  {
    if j == |s| || s[j].from.x > s[i].to.x {
    } else {
      ScanIncreasing(s, i, j + 1);
      var head: seq<IndexPair> := if OverlapY(s[i], s[j]) then [(i, j)] else [];
      var tail := Scan(s, i, j + 1);
      assert Scan(s, i, j) == head + tail;
      forall a, b | 0 <= a < b < |head + tail|
        ensures Before((head + tail)[a], (head + tail)[b])
      {
        if a < |head| {
          assert (head + tail)[b] in tail;
        } else {
          assert (head + tail)[a] == tail[a - |head|];
          assert (head + tail)[b] == tail[b - |head|];
        }
      }
    }
  }

  /** The buffer is increasing, and after n outer steps every pair starts below n. */
  lemma {:induction false} SweptIncreasing(s: seq<SweptBox>, n: int)
    requires 0 <= n <= |s|
    ensures Increasing(Swept(s, n))
    ensures forall p :: p in Swept(s, n) ==> 0 <= p.0 < n
  {
    if n > 0 {
      SweptIncreasing(s, n - 1);
      ScanIncreasing(s, n - 1, n);
      var front := Swept(s, n - 1);
      var back := Scan(s, n - 1, n);
      forall a, b | 0 <= a < b < |front + back|
        ensures Before((front + back)[a], (front + back)[b])
      {
        if b < |front| {
          assert (front + back)[a] == front[a];
          assert (front + back)[b] == front[b];
        } else if a < |front| {
          assert (front + back)[a] in front;
          assert (front + back)[b] in back;
        } else {
          assert (front + back)[a] == back[a - |front|];
          assert (front + back)[b] == back[b - |front|];
        }
      }
    }
  }

  /** The buffer after n outer steps holds exactly the emitted pairs that start below n. */
  lemma {:induction false} SweptMembers(s: seq<SweptBox>, n: int, p: IndexPair)
    requires 0 <= n <= |s|
    ensures p in Swept(s, n) <==> p.0 < n && Emitted(s, p)
  {
    if n > 0 {
      SweptMembers(s, n - 1, p);
      ScanMembers(s, n - 1, n, p);
    }
  }

  /** A pair is in the buffer exactly when the scan of its first box reaches its second and they overlap on y. */
  lemma PairsMembers(s: seq<SweptBox>, p: IndexPair)
    ensures p in Pairs(s) <==> Emitted(s, p)
  {
    SweptMembers(s, |s|, p);
  }

  /** Every recorded pair (i, j) has i < j, and the pairs come in lexicographic order. */
  lemma PairsIncreasing(s: seq<SweptBox>)
    ensures Increasing(Pairs(s))
    ensures forall p :: p in Pairs(s) ==> 0 <= p.0 < p.1 < |s|
  {
    SweptIncreasing(s, |s|);
    forall p | p in Pairs(s) ensures 0 <= p.0 < p.1 < |s| {
      PairsMembers(s, p);
    }
  }

  /** No unordered pair of boxes is recorded twice, in either order. */
  lemma PairsOnce(s: seq<SweptBox>)
    ensures forall a, b :: 0 <= a < b < |Pairs(s)| ==>
      Pairs(s)[a] != Pairs(s)[b] && Pairs(s)[a] != (Pairs(s)[b].1, Pairs(s)[b].0)
  {
    PairsIncreasing(s);
    var r := Pairs(s);
    forall a, b | 0 <= a < b < |r| ensures r[a] != r[b] && r[a] != (r[b].1, r[b].0) {
      assert Before(r[a], r[b]);
      assert r[a] in r && r[b] in r;
    }
  }

  /** Every recorded pair overlaps on y, sorted or not. */
  lemma PairsOverlapY(s: seq<SweptBox>, p: IndexPair)
    requires p in Pairs(s)
    ensures 0 <= p.0 < p.1 < |s| && OverlapY(s[p.0], s[p.1])
  {
    PairsMembers(s, p);
  }

  /** With the boxes sorted and well formed, every recorded pair overlaps on x as well. */
  lemma PairsSound(s: seq<SweptBox>, p: IndexPair)
    requires SortedByFromX(s) && WellFormed(s)
    requires p in Pairs(s)
    ensures 0 <= p.0 < p.1 < |s| && OverlapX(s[p.0], s[p.1]) && OverlapY(s[p.0], s[p.1])
  {
    PairsMembers(s, p);
    assert s[p.0].from.x <= s[p.1].from.x <= s[p.1].to.x;
  }

  /** With the boxes sorted, no pair that overlaps on both axes is missed. */
  lemma PairsComplete(s: seq<SweptBox>, i: int, j: int)
    requires SortedByFromX(s)
    requires 0 <= i < j < |s| && OverlapX(s[i], s[j]) && OverlapY(s[i], s[j])
    ensures (i, j) in Pairs(s)
  {
    forall k | i < k <= j ensures s[k].from.x <= s[i].to.x {
      assert s[k].from.x <= s[j].from.x;
    }
    PairsMembers(s, (i, j));
  }

  /** Sorted and well formed, the buffer holds exactly the pairs i < j of boxes that overlap. */
  lemma PairsExact(s: seq<SweptBox>, i: int, j: int)
    requires SortedByFromX(s) && WellFormed(s)
    ensures (i, j) in Pairs(s) <==> 0 <= i < j < |s| && OverlapX(s[i], s[j]) && OverlapY(s[i], s[j])
  {
    if (i, j) in Pairs(s) {
      PairsSound(s, (i, j));
    } else if 0 <= i < j < |s| && OverlapX(s[i], s[j]) && OverlapY(s[i], s[j]) {
      PairsComplete(s, i, j);
    }
  }

  /** Span.Sort with CompareX, as an insertion sort: the boxes end sorted by from.x, a permutation of what they were. */
  method SortByFromX(a: array<SweptBox>)
    modifies a
    ensures SortedByFromX(a[..])
    ensures multiset(a[..]) == multiset(old(a[..]))
  {
    var i := 0;
    while i < a.Length
      invariant 0 <= i <= a.Length
      invariant forall p, q :: 0 <= p < q < i ==> a[p].from.x <= a[q].from.x
      invariant multiset(a[..]) == multiset(old(a[..]))
    {
      InsertAt(a, i);
      i := i + 1;
    }
  }

  /** One pass of the insertion sort: box i moves down past every larger box before it. */
  method InsertAt(a: array<SweptBox>, i: int)
    requires 0 <= i < a.Length
    requires forall p, q :: 0 <= p < q < i ==> a[p].from.x <= a[q].from.x
    modifies a
    ensures forall p, q :: 0 <= p < q <= i ==> a[p].from.x <= a[q].from.x
    ensures multiset(a[..]) == multiset(old(a[..]))
  {
    var j := i;
    while j > 0 && a[j - 1].from.x > a[j].from.x
      invariant 0 <= j <= i
      invariant forall p, q :: 0 <= p < q <= i && q != j ==> a[p].from.x <= a[q].from.x
      invariant multiset(a[..]) == multiset(old(a[..]))
    {
      a[j - 1], a[j] := a[j], a[j - 1];
      j := j - 1;
    }
  }

  /** The collision system's state that the broad phase writes: the box intersection buffer. */
  class CollisionResolve {
    var boxPairs: seq<IndexPair>

    constructor ()
      ensures boxPairs == []
    {
      boxPairs := [];
    }

    /**
     * The broad phase of CollisionResolveSystem: sort the boxes, clear the
     * buffer, then sweep. The buffer ends as exactly Pairs of the sorted
     * boxes, whatever it held before.
     */
    method Resolve(boxes: array<SweptBox>)
      modifies this, boxes
      ensures SortedByFromX(boxes[..])
      ensures multiset(boxes[..]) == multiset(old(boxes[..]))
      ensures boxPairs == Pairs(boxes[..])
    {
      SortByFromX(boxes);
      ghost var s := boxes[..];
      boxPairs := [];
      var i := 0;
      while i < boxes.Length
        modifies this
        invariant 0 <= i <= boxes.Length
        invariant boxes[..] == s
        invariant boxPairs == Swept(s, i)
      {
        SweepFrom(boxes, i);
        i := i + 1;
      }
    }

    /**
     * The inner loop for box i: walk the boxes after it until one starts
     * beyond its right edge, appending each pair that also overlaps on Y.
     */
    method SweepFrom(boxes: array<SweptBox>, i: int)
      requires 0 <= i < boxes.Length
      modifies this
      ensures boxPairs == old(boxPairs) + Scan(boxes[..], i, i + 1)
    {
      ghost var s := boxes[..];
      ghost var start := boxPairs;
      var box := boxes[i];
      var j := i + 1;
      while j < boxes.Length
        invariant i + 1 <= j <= boxes.Length
        invariant boxPairs + Scan(s, i, j) == start + Scan(s, i, i + 1)
      {
        var next := boxes[j];
        if next.from.x > box.to.x {
          assert Scan(s, i, j) == [];
          break;
        }
        ghost var rest := Scan(s, i, j + 1);
        j := j + 1;
        if box.from.y > next.to.y || box.to.y < next.from.y {
          assert Scan(s, i, j - 1) == rest;
          continue;
        }
        assert Scan(s, i, j - 1) == [(i, j - 1)] + rest;
        boxPairs := boxPairs + [(i, j - 1)];
      }
    }
  }
}
