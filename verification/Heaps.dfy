/** Binary min-heaps in a vector, as `std::push_heap`, `std::pop_heap` and `std::make_heap` keep them for the
    timer queue. */
module Heaps {
  import opened TimedOperations

  function Parent(i: nat): nat
    requires i > 0
  {
    (i - 1) / 2
  }

  /** Every entry whose parent is at index `lo` or later is not due before its parent. */
  ghost predicate HeapFrom(h: seq<Timer>, lo: nat)
  {
    forall i :: 0 < i < |h| && lo <= Parent(i) ==> h[Parent(i)].dueTime <= h[i].dueTime
  }

  ghost predicate IsHeap(h: seq<Timer>)
  {
    HeapFrom(h, 0)
  }

  /** The front of a heap is due first. */
  lemma {:induction false} FrontIsEarliest(h: seq<Timer>, i: nat)
    requires IsHeap(h) && i < |h|
    ensures h[0].dueTime <= h[i].dueTime
  {
    if i > 0 {
      FrontIsEarliest(h, Parent(i));
    }
  }

  function Swap(h: seq<Timer>, i: nat, j: nat): (r: seq<Timer>)
    requires i < |h| && j < |h|
    ensures |r| == |h| && r[i] == h[j] && r[j] == h[i]
    ensures forall k :: 0 <= k < |h| && k != i && k != j ==> r[k] == h[k]
    ensures multiset(r) == multiset(h)
  {
    h[i := h[j]][j := h[i]]
  }

  /** A heap but for the entry at `k`, which may be due before its parent. */
  ghost predicate HeapExceptUp(h: seq<Timer>, k: nat)
  {
    && (forall i :: 0 < i < |h| && i != k ==> h[Parent(i)].dueTime <= h[i].dueTime)
    && (forall i :: 0 < i < |h| && Parent(i) == k && k > 0 ==> h[Parent(k)].dueTime <= h[i].dueTime)
  }

  /** `push_heap`: the last entry rises to its place. */
  method PushHeap(h: seq<Timer>) returns (r: seq<Timer>)
    requires h != [] && IsHeap(h[..|h| - 1])
    ensures IsHeap(r) && |r| == |h| && multiset(r) == multiset(h)
  {
    r := h;
    var k: nat := |h| - 1;
    LastIsOut(h);
    while k > 0 && r[Parent(k)].dueTime > r[k].dueTime
      invariant k < |r| == |h| && multiset(r) == multiset(h) && HeapExceptUp(r, k)
      decreases k
    {
      r := RiseOne(r, k);
      k := Parent(k);
    }
  }

  lemma LastIsOut(h: seq<Timer>)
    requires h != [] && IsHeap(h[..|h| - 1])
    ensures HeapExceptUp(h, |h| - 1)
  {
    var front := h[..|h| - 1];
    forall i | 0 < i < |h| && i != |h| - 1
      ensures h[Parent(i)].dueTime <= h[i].dueTime
    {
      assert front[Parent(i)].dueTime <= front[i].dueTime;
    }
  }

  function RiseOne(h: seq<Timer>, k: nat): (r: seq<Timer>)
    requires 0 < k < |h| && HeapExceptUp(h, k) && h[Parent(k)].dueTime > h[k].dueTime
    ensures |r| == |h| && multiset(r) == multiset(h) && HeapExceptUp(r, Parent(k))
  {
    Swap(h, Parent(k), k)
  }

  /** From `lo` on a heap but for the entry at `k`, which may be due after its children. */
  ghost predicate HeapExceptDown(h: seq<Timer>, lo: nat, k: nat)
  {
    && (forall i :: 0 < i < |h| && lo <= Parent(i) && Parent(i) != k ==> h[Parent(i)].dueTime <= h[i].dueTime)
    && (forall i :: 0 < i < |h| && Parent(i) == k && k > 0 && lo <= Parent(k) ==> h[Parent(k)].dueTime <= h[i].dueTime)
  }

  /** The earlier child of `k`, or `k` when it has none that is due before it. */
  function Earliest(h: seq<Timer>, k: nat): (c: nat)
    requires k < |h|
    ensures k <= c < |h| && h[c].dueTime <= h[k].dueTime
    ensures c == k || Parent(c) == k
    ensures forall i :: 0 < i < |h| && Parent(i) == k ==> h[c].dueTime <= h[i].dueTime
    ensures c != k ==> h[c].dueTime < h[k].dueTime
  {
    var left, right := 2 * k + 1, 2 * k + 2;
    var c := if left < |h| && h[left].dueTime < h[k].dueTime then left else k;
    if right < |h| && h[right].dueTime < h[c].dueTime then right else c
  }

  /** An entry sinks to its place. */
  method SiftDown(h: seq<Timer>, lo: nat, start: nat) returns (r: seq<Timer>)
    requires lo <= start && (start < |h| || h == []) && HeapExceptDown(h, lo, start)
    ensures HeapFrom(r, lo) && |r| == |h| && multiset(r) == multiset(h)
  {
    r := h;
    if h == [] {
      return;
    }
    var k := start;
    var c := Earliest(r, k);
    while c != k
      invariant lo <= k < |r| == |h| && multiset(r) == multiset(h) && HeapExceptDown(r, lo, k) && c == Earliest(r, k)
      decreases |r| - k
    {
      r := SinkOne(r, lo, k);
      k := c;
      c := Earliest(r, k);
    }
  }

  function SinkOne(h: seq<Timer>, lo: nat, k: nat): (r: seq<Timer>)
    requires lo <= k < |h| && HeapExceptDown(h, lo, k) && Earliest(h, k) != k
    ensures |r| == |h| && multiset(r) == multiset(h) && HeapExceptDown(r, lo, Earliest(h, k))
  {
    Swap(h, k, Earliest(h, k))
  }

  /** `pop_heap`: the front moves to the end, and the others are a heap again. */
  method PopHeap(h: seq<Timer>) returns (r: seq<Timer>)
    requires h != [] && IsHeap(h)
    ensures |r| == |h| && multiset(r) == multiset(h) && r[|r| - 1] == h[0] && IsHeap(r[..|r| - 1])
  {
    var n := |h| - 1;
    var swapped := Swap(h, 0, n);
    assert HeapExceptDown(swapped[..n], 0, 0) by {
      forall i | 0 < i < n && Parent(i) != 0
        ensures swapped[Parent(i)].dueTime <= swapped[i].dueTime
      {
        assert h[Parent(i)].dueTime <= h[i].dueTime;
      }
    }
    var front := SiftDown(swapped[..n], 0, 0);
    r := front + [h[0]];
    assert r[..n] == front;
    assert swapped == swapped[..n] + [h[0]];
  }

  /** `make_heap`. */
  method MakeHeap(h: seq<Timer>) returns (r: seq<Timer>)
    ensures IsHeap(r) && |r| == |h| && multiset(r) == multiset(h)
  {
    r := h;
    var k := |h| / 2;
    while k > 0
      invariant 0 <= k <= |h| == |r| && multiset(r) == multiset(h) && HeapFrom(r, k)
    {
      k := k - 1;
      OneMoreParent(r, k);
      r := SiftDown(r, k, k);
    }
  }

  lemma OneMoreParent(h: seq<Timer>, k: nat)
    requires HeapFrom(h, k + 1)
    ensures HeapExceptDown(h, k, k)
  {
  }
}
