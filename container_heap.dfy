/**
 * Go's container/heap routines, as the pool uses them on its ClientHeap: Init heapifies,
 * Fix restores order after one client's count changed, and both are built on the sift-down
 * and sift-up loops that call ClientHeap.Less and ClientHeap.Swap.
 */
module ContainerHeap {
  import opened ClientHeaps
  import opened HeapOrder

  /**
   * Go's `down(h, i0, n)` with `n == h.Len()`: sifts the client at `i0` towards the leaves and
   * reports whether it moved. `lo` (proof only) is the first slot whose subtree must end up a heap.
   */
  method Down(h: ClientHeap, i0: nat, ghost lo: nat, ghost a: seq<int>) returns (moved: bool)
    requires lo <= i0 < |h.h| && a == h.Refs()
    requires OrderedExcept(a, lo, i0) && Bridged(a, lo, i0)
    modifies h`h, h.h`index
    ensures |h.h| == old(|h.h|) && multiset(h.h) == multiset(old(h.h))
    ensures old(h.IndexOk()) ==> h.IndexOk()
    ensures moved ==> OrderedFrom(h.Refs(), lo)
    ensures !moved ==> h.h == old(h.h) && h.Refs() == a && ChildrenOk(a, i0)
    ensures ChildrenOk(a, i0) ==> !moved
  {
    var n := h.Len();
    var i := i0;
    while true
      invariant i0 <= i < n == |h.h|
      invariant |h.h| == old(|h.h|) && multiset(h.h) == multiset(old(h.h))
      invariant old(h.IndexOk()) ==> h.IndexOk()
      invariant OrderedExcept(h.Refs(), lo, i) && Bridged(h.Refs(), lo, i)
      invariant i != i0 ==> ParentOk(h.Refs(), lo, i) && lo <= Parent(i)
      invariant i == i0 ==> h.h == old(h.h) && h.Refs() == a
      invariant ChildrenOk(a, i0) ==> i == i0
      decreases n - i
    {
      var stop;
      SameClientsAllIn(h.h, old(h.h));
      i, stop := DownOnce(h, lo, i0, i);
      if stop {
        break;
      }
    }
    moved := i > i0;
  }

  /**
   * One iteration of `down`'s loop at slot `i`: stops when `i` has no child or its smaller child
   * is not below it, and otherwise swaps the two and continues at that child.
   */
  method DownOnce(h: ClientHeap, ghost lo: nat, ghost i0: nat, i: nat) returns (next: nat, stop: bool)
    requires lo <= i0 <= i < |h.h|
    requires OrderedExcept(h.Refs(), lo, i) && Bridged(h.Refs(), lo, i)
    requires i != i0 ==> ParentOk(h.Refs(), lo, i)
    modifies h`h, h.h`index
    ensures |h.h| == old(|h.h|) && multiset(h.h) == multiset(old(h.h))
    ensures old(h.IndexOk()) ==> h.IndexOk()
    ensures stop ==> next == i && h.h == old(h.h) && h.Refs() == old(h.Refs()) && ChildrenOk(h.Refs(), i)
    ensures stop && i != i0 ==> OrderedFrom(h.Refs(), lo)
    ensures !stop ==> i < next < |h.h| && lo <= Parent(next) && Parent(next) == i
    ensures !stop ==> h.Refs() == Swapped(old(h.Refs()), i, next)
    ensures !stop ==> OrderedExcept(h.Refs(), lo, next) && Bridged(h.Refs(), lo, next) && ParentOk(h.Refs(), lo, next)
    ensures old(ChildrenOk(h.Refs(), i)) ==> stop
  {
    var n := h.Len();
    var j1 := 2 * i + 1;
    if j1 >= n {
      Settled(h, lo, i0, i);
      return i, true;
    }
    var j := j1;
    var j2 := j1 + 1;
    if j2 < n && h.Less(j2, j1) {
      j := j2;
    }
    if !h.Less(j, i) {
      Settled(h, lo, i0, i);
      return i, true;
    }
    SwapDown(h, lo, i0, i, j);
    return j, false;
  }

  /** Where `down` stops: no child of `i` is below it, so once `i` moved the subtree at `lo` is a heap. */
  lemma Settled(h: ClientHeap, lo: nat, i0: nat, i: nat)
    requires lo <= i0 <= i < |h.h|
    requires OrderedExcept(h.Refs(), lo, i) && Bridged(h.Refs(), lo, i)
    requires i != i0 ==> ParentOk(h.Refs(), lo, i)
    requires 2 * i + 1 < |h.h| ==> h.h[i].ref <= h.h[2 * i + 1].ref
    requires 2 * i + 2 < |h.h| ==> h.h[i].ref <= h.h[2 * i + 2].ref
    ensures ChildrenOk(h.Refs(), i)
    ensures i != i0 ==> OrderedFrom(h.Refs(), lo)
  {
    ChildrenOkAt(h.Refs(), i);
    if i != i0 {
      Assemble(h.Refs(), lo, i);
    }
  }

  /** The swapping iteration of `down`: the client at `i` trades places with its smaller child `j`. */
  method SwapDown(h: ClientHeap, ghost lo: nat, ghost i0: nat, i: nat, j: nat)
    requires lo <= i0 <= i && j < |h.h| && (j == 2 * i + 1 || j == 2 * i + 2)
    requires OrderedExcept(h.Refs(), lo, i) && Bridged(h.Refs(), lo, i)
    requires i != i0 ==> ParentOk(h.Refs(), lo, i)
    requires h.h[j].ref < h.h[i].ref
    requires 2 * i + 1 < |h.h| ==> h.h[j].ref <= h.h[2 * i + 1].ref
    requires 2 * i + 2 < |h.h| ==> h.h[j].ref <= h.h[2 * i + 2].ref
    modifies h`h, h.h`index
    ensures h.Refs() == Swapped(old(h.Refs()), i, j)
    ensures OrderedExcept(h.Refs(), lo, j) && Bridged(h.Refs(), lo, j) && ParentOk(h.Refs(), lo, j)
    ensures |h.h| == old(|h.h|) && multiset(h.h) == multiset(old(h.h))
    ensures old(h.IndexOk()) ==> h.IndexOk()
  {
    DownStep(h.Refs(), lo, i0, i, j);
    h.Swap(i, j);
  }

  /** Go's `up(h, j)`: sifts the client at `j0` towards the root. */
  method Up(h: ClientHeap, j0: nat)
    requires j0 < |h.h|
    requires OrderedExcept(h.Refs(), 0, j0) && ChildrenOk(h.Refs(), j0) && Bridged(h.Refs(), 0, j0)
    modifies h`h, h.h`index
    ensures h.Ordered()
    ensures |h.h| == old(|h.h|) && multiset(h.h) == multiset(old(h.h))
    ensures old(h.IndexOk()) ==> h.IndexOk()
  {
    var j: nat := j0;
    while true
      invariant j < |h.h|
      invariant |h.h| == old(|h.h|) && multiset(h.h) == multiset(old(h.h))
      invariant old(h.IndexOk()) ==> h.IndexOk()
      invariant OrderedExcept(h.Refs(), 0, j) && ChildrenOk(h.Refs(), j) && Bridged(h.Refs(), 0, j)
      decreases j
    {
      var stop;
      SameClientsAllIn(h.h, old(h.h));
      j, stop := UpOnce(h, j);
      if stop {
        break;
      }
    }
  }

  /**
   * One iteration of `up`'s loop at slot `j`: stops at the root or when the parent is not above
   * the client at `j`, and otherwise swaps the two and continues at the parent.
   */
  method UpOnce(h: ClientHeap, j: nat) returns (next: nat, stop: bool)
    requires j < |h.h|
    requires OrderedExcept(h.Refs(), 0, j) && ChildrenOk(h.Refs(), j) && Bridged(h.Refs(), 0, j)
    modifies h`h, h.h`index
    ensures |h.h| == old(|h.h|) && multiset(h.h) == multiset(old(h.h))
    ensures old(h.IndexOk()) ==> h.IndexOk()
    ensures stop ==> h.Ordered()
    ensures !stop ==> next < j && next == Parent(j) && h.Refs() == Swapped(old(h.Refs()), j, next)
    ensures !stop ==> OrderedExcept(h.Refs(), 0, next) && ChildrenOk(h.Refs(), next) && Bridged(h.Refs(), 0, next)
  {
    // Go's (j - 1) / 2 truncates towards zero, so the root is its own "parent"
    var i: nat := if j == 0 then 0 else Parent(j);
    if i == j || !h.Less(j, i) {
      Assemble(h.Refs(), 0, j);
      return j, true;
    }
    UpStep(h.Refs(), j);
    h.Swap(i, j);
    return i, false;
  }

  /** Go's `heap.Fix(h, i)`: re-establishes heap order after only the client at slot `i` changed its count. */
  method Fix(h: ClientHeap, i: nat)
    requires i < |h.h| && OrderedExcept(h.Refs(), 0, i) && Bridged(h.Refs(), 0, i)
    modifies h`h, h.h`index
    ensures h.Ordered()
    ensures |h.h| == old(|h.h|) && multiset(h.h) == multiset(old(h.h))
    ensures old(h.IndexOk()) ==> h.IndexOk()
  {
    var moved := Down(h, i, 0, h.Refs());
    if !moved {
      Up(h, i);
    }
  }

  /** Go's `heap.Init(h)`: heapifies bottom-up; on a slice already in heap order it moves nothing. */
  method Init(h: ClientHeap)
    modifies h`h, h.h`index
    ensures h.Ordered()
    ensures |h.h| == old(|h.h|) && multiset(h.h) == multiset(old(h.h))
    ensures old(h.IndexOk()) ==> h.IndexOk()
    ensures old(h.Ordered()) ==> h.h == old(h.h)
  {
    var n := h.Len();
    var i := n / 2 - 1;
    ghost var a0 := h.Refs();
    LeavesOrdered(a0);
    while i >= 0
      invariant -1 <= i < n / 2 && n == |h.h|
      invariant |h.h| == old(|h.h|) && multiset(h.h) == multiset(old(h.h))
      invariant old(h.IndexOk()) ==> h.IndexOk()
      invariant OrderedFrom(h.Refs(), i + 1)
      invariant HeapOrder.Ordered(a0) ==> h.h == old(h.h) && h.Refs() == a0
    {
      SameClientsAllIn(h.h, old(h.h));
      InitAt(h, i, a0);
      i := i - 1;
    }
  }

  /**
   * One round of `heap.Init`'s loop: `down(i)` over subtrees that are already heaps makes the
   * subtree at `i` a heap too; on counts `a0` already in heap order it moves nothing.
   */
  method InitAt(h: ClientHeap, i: nat, ghost a0: seq<int>)
    requires i < |h.h| && OrderedFrom(h.Refs(), i + 1)
    requires HeapOrder.Ordered(a0) ==> h.Refs() == a0
    modifies h`h, h.h`index
    ensures |h.h| == old(|h.h|) && multiset(h.h) == multiset(old(h.h))
    ensures old(h.IndexOk()) ==> h.IndexOk()
    ensures OrderedFrom(h.Refs(), i)
    ensures HeapOrder.Ordered(a0) ==> h.h == old(h.h) && h.Refs() == a0
  {
    ghost var a := h.Refs();
    HeapifyStep(a, i);
    if HeapOrder.Ordered(a0) {
      OrderedChildrenOk(a, i);
    }
    var moved := Down(h, i, i, a);
    if !moved {
      Extend(a, i);
    }
  }
}
