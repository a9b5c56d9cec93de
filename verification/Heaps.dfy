/** The two `heapq` operations the sampler uses, on a list kept in binary-heap order. */
module Heaps {
  import opened Sorting

  function Parent(i: int): int
    requires 1 <= i
  {
    (i - 1) / 2
  }

  predicate HeapOrder<T>(leq: (T, T) -> bool, h: seq<T>) {
    forall i :: 1 <= i < |h| ==> leq(h[Parent(i)], h[i])
  }

  lemma {:induction false} RootIsLeast<T(!new)>(leq: (T, T) -> bool, h: seq<T>, i: nat)
    requires TotalPreorder(leq) && HeapOrder(leq, h) && i < |h|
    ensures leq(h[0], h[i])
  {
    if i > 0 {
      RootIsLeast(leq, h, Parent(i));
    }
  }

  function Swap<T>(s: seq<T>, i: nat, j: nat): (r: seq<T>)
    requires i < |s| && j < |s| && i != j
    ensures multiset(r) == multiset(s)
    ensures |r| == |s| && r[i] == s[j] && r[j] == s[i]
    ensures forall k :: 0 <= k < |s| && k != i && k != j ==> r[k] == s[k]
  {
    s[i := s[j]][j := s[i]]
  }

  /** Heap order everywhere except between `hole` and its parent. */
  predicate RisingAt<T>(leq: (T, T) -> bool, h: seq<T>, hole: nat) {
    && (forall i :: 1 <= i < |h| && i != hole ==> leq(h[Parent(i)], h[i]))
    && (forall i :: 1 <= i < |h| && Parent(i) == hole && 1 <= hole < |h| ==> leq(h[Parent(hole)], h[i]))
  }

  /** Heap order everywhere except between `hole` and its children. */
  predicate SinkingAt<T>(leq: (T, T) -> bool, h: seq<T>, hole: nat) {
    && (forall i :: 1 <= i < |h| && Parent(i) != hole ==> leq(h[Parent(i)], h[i]))
    && (forall i :: 1 <= i < |h| && Parent(i) == hole && 1 <= hole < |h| ==> leq(h[Parent(hole)], h[i]))
  }

  lemma Total<T(!new)>(leq: (T, T) -> bool, a: T, b: T)
    requires TotalPreorder(leq)
    ensures leq(a, b) || leq(b, a)
  {
  }

  lemma RiseStep<T(!new)>(leq: (T, T) -> bool, h: seq<T>, hole: nat)
    requires TotalPreorder(leq) && 0 < hole < |h| && RisingAt(leq, h, hole) && !leq(h[Parent(hole)], h[hole])
    ensures RisingAt(leq, Swap(h, Parent(hole), hole), Parent(hole))
  {
  }

  lemma LeastChild<T(!new)>(leq: (T, T) -> bool, h: seq<T>, hole: nat, child: nat)
    requires TotalPreorder(leq) && child < |h|
    requires child == 2 * hole + 1 || child == 2 * hole + 2
    requires child == 2 * hole + 1 ==> child + 1 < |h| ==> leq(h[child], h[child + 1])
    requires child == 2 * hole + 2 ==> !leq(h[child - 1], h[child])
    ensures forall i :: 1 <= i < |h| && Parent(i) == hole ==> leq(h[child], h[i])
  {
    forall i | 1 <= i < |h| && Parent(i) == hole
      ensures leq(h[child], h[i])
    {
      Total(leq, h[child], h[i]);
      assert i == 2 * hole + 1 || i == 2 * hole + 2;
    }
  }

  /** `child` is a least child of `hole` and smaller than it. */
  lemma SinkStep<T(!new)>(leq: (T, T) -> bool, h: seq<T>, hole: nat, child: nat)
    requires TotalPreorder(leq) && 1 <= child < |h| && Parent(child) == hole && SinkingAt(leq, h, hole)
    requires !leq(h[hole], h[child])
    requires forall i :: 1 <= i < |h| && Parent(i) == hole ==> leq(h[child], h[i])
    ensures SinkingAt(leq, Swap(h, hole, child), child)
  {
    var r := Swap(h, hole, child);
    forall i | 1 <= i < |r| && Parent(i) != child
      ensures leq(r[Parent(i)], r[i])
    {
      if Parent(i) == hole {
        if i == child { Total(leq, h[child], h[hole]); }
      }
    }
  }

  method HeapPush<T(!new)>(leq: (T, T) -> bool, h: seq<T>, x: T) returns (r: seq<T>)
    requires TotalPreorder(leq) && HeapOrder(leq, h)
    ensures HeapOrder(leq, r) && multiset(r) == multiset(h) + multiset{x}
  {
    r := h + [x];
    var hole := |h|;
    while hole > 0 && !leq(r[Parent(hole)], r[hole])
      invariant 0 <= hole < |r| && |r| == |h| + 1
      invariant multiset(r) == multiset(h) + multiset{x}
      invariant RisingAt(leq, r, hole)
    {
      RiseStep(leq, r, hole);
      r, hole := Swap(r, Parent(hole), hole), Parent(hole);
    }
  }

  lemma ReplaceRoot<T>(leq: (T, T) -> bool, h: seq<T>, x: T)
    requires HeapOrder(leq, h) && h != []
    ensures SinkingAt(leq, h[0 := x], 0)
    ensures multiset(h[0 := x]) == multiset(h) - multiset{h[0]} + multiset{x}
  {
  }

  /** No child of `hole` is smaller, so the order is restored. */
  lemma Settled<T>(leq: (T, T) -> bool, h: seq<T>, hole: nat)
    requires SinkingAt(leq, h, hole)
    requires forall i :: 1 <= i < |h| && Parent(i) == hole ==> leq(h[hole], h[i])
    ensures HeapOrder(leq, h)
  {
  }

  lemma BelowChildren<T(!new)>(leq: (T, T) -> bool, h: seq<T>, hole: nat, child: nat)
    requires TotalPreorder(leq) && hole < |h| && child < |h| && leq(h[hole], h[child])
    requires forall i :: 1 <= i < |h| && Parent(i) == hole ==> leq(h[child], h[i])
    ensures forall i :: 1 <= i < |h| && Parent(i) == hole ==> leq(h[hole], h[i])
  {
  }

  method HeapReplace<T(!new)>(leq: (T, T) -> bool, h: seq<T>, x: T) returns (r: seq<T>)
    requires TotalPreorder(leq) && HeapOrder(leq, h) && h != []
    ensures HeapOrder(leq, r) && multiset(r) == multiset(h) - multiset{h[0]} + multiset{x}
  {
    ReplaceRoot(leq, h, x);
    hide HeapOrder, SinkingAt, TotalPreorder;
    r := h[0 := x];
    var hole := 0;
    while 2 * hole + 1 < |r|
      invariant 0 <= hole < |r| && |r| == |h|
      invariant multiset(r) == multiset(h) - multiset{h[0]} + multiset{x}
      invariant SinkingAt(leq, r, hole)
      decreases |r| - hole
    {
      var child := 2 * hole + 1;
      if child + 1 < |r| && !leq(r[child], r[child + 1]) {
        child := child + 1;
      }
      LeastChild(leq, r, hole, child);
      if leq(r[hole], r[child]) {
        BelowChildren(leq, r, hole, child);
        Settled(leq, r, hole);
        return;
      }
      SinkStep(leq, r, hole, child);
      r, hole := Swap(r, hole, child), child;
    }
    Settled(leq, r, hole);
  }
}
