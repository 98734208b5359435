/**
 * Binary min-heap order over the sequence of reference counts, slot by slot, and the facts
 * about it that the sift-down and sift-up loops rely on. Pure: no objects involved.
 */
module HeapOrder {

  /** Slot of the parent of slot `k` in an array-backed binary heap. */
  function Parent(k: nat): nat
    requires k > 0
  {
    (k - 1) / 2
  }

  /** Every edge into a slot whose parent is at `lo` or later is in order: the subtrees rooted at `lo` and after are heaps. */
  predicate OrderedFrom(a: seq<int>, lo: nat)
  {
    forall k :: 0 < k < |a| && lo <= Parent(k) ==> a[Parent(k)] <= a[k]
  }

  /** Min-heap order: no slot holds less than its parent. */
  predicate Ordered(a: seq<int>)
  {
    OrderedFrom(a, 0)
  }

  /** As OrderedFrom, except for the edges touching slot `x`. */
  predicate OrderedExcept(a: seq<int>, lo: nat, x: nat)
  {
    forall k :: 0 < k < |a| && lo <= Parent(k) && Parent(k) != x && k != x ==> a[Parent(k)] <= a[k]
  }

  /** Slot `x` holds no more than either of its children. */
  predicate ChildrenOk(a: seq<int>, x: nat)
  {
    forall k :: 0 < k < |a| && Parent(k) == x ==> a[x] <= a[k]
  }

  /** The parent of slot `x` (when it lies at `lo` or later) holds no more than the children of `x`. */
  predicate Bridged(a: seq<int>, lo: nat, x: nat)
  {
    0 < x < |a| && lo <= Parent(x) ==>
      forall k :: 0 < k < |a| && Parent(k) == x ==> a[Parent(x)] <= a[k]
  }

  /** What sifting slot `x` down from `i0` keeps: the edge from its parent is in order once it has left `i0`. */
  predicate ParentOk(a: seq<int>, lo: nat, x: nat)
  {
    0 < x < |a| && lo <= Parent(x) ==> a[Parent(x)] <= a[x]
  }

  function Swapped(a: seq<int>, i: nat, j: nat): (b: seq<int>)
    requires i < |a| && j < |a|
    ensures |b| == |a| && b[i] == a[j] && b[j] == a[i]
    ensures forall k :: 0 <= k < |a| && k != i && k != j ==> b[k] == a[k]
  {
    a[i := a[j]][j := a[i]]
  }

  /** Under heap order, slot 0 holds the least count. */
  lemma {:induction false} RootIsLeast(a: seq<int>, k: nat)
    requires Ordered(a) && k < |a|
    ensures a[0] <= a[k]
    decreases k
  {
    if k > 0 {
      RootIsLeast(a, Parent(k));
    }
  }

  /** The three pieces of order around slot `x` make up the whole. */
  lemma Assemble(a: seq<int>, lo: nat, x: nat)
    requires OrderedExcept(a, lo, x) && ChildrenOk(a, x) && ParentOk(a, lo, x)
    ensures OrderedFrom(a, lo)
  {
  }

  /** The children of slot `x` are slots 2x+1 and 2x+2, so comparing with those two is enough. */
  lemma ChildrenOkAt(a: seq<int>, x: nat)
    requires 2 * x + 1 < |a| ==> a[x] <= a[2 * x + 1]
    requires 2 * x + 2 < |a| ==> a[x] <= a[2 * x + 2]
    ensures ChildrenOk(a, x)
  {
  }

  /** One step of sift-down: swapping slot `i` with its smaller child `j` that is smaller than it moves the hole to `j`. */
  lemma DownStep(a: seq<int>, lo: nat, i0: nat, i: nat, j: nat)
    requires lo <= i0 <= i && j < |a| && (j == 2 * i + 1 || j == 2 * i + 2)
    requires OrderedExcept(a, lo, i) && Bridged(a, lo, i)
    requires i != i0 ==> ParentOk(a, lo, i)
    requires a[j] < a[i]
    requires 2 * i + 1 < |a| ==> a[j] <= a[2 * i + 1]
    requires 2 * i + 2 < |a| ==> a[j] <= a[2 * i + 2]
    ensures OrderedExcept(Swapped(a, i, j), lo, j) && Bridged(Swapped(a, i, j), lo, j)
    ensures ParentOk(Swapped(a, i, j), lo, j)
  {
    var b := Swapped(a, i, j);
    forall k | 0 < k < |b| && lo <= Parent(k) && Parent(k) != j && k != j
      ensures b[Parent(k)] <= b[k]
    {
      if k == i {
        assert a[Parent(i)] <= a[j];
      } else if Parent(k) == i {
        assert a[j] <= a[k];
      }
    }
  }

  /** One step of sift-up: swapping slot `j` with its larger parent moves the hole to the parent. */
  lemma UpStep(a: seq<int>, j: nat)
    requires 0 < j < |a|
    requires OrderedExcept(a, 0, j) && ChildrenOk(a, j) && Bridged(a, 0, j)
    requires a[j] < a[Parent(j)]
    ensures OrderedExcept(Swapped(a, Parent(j), j), 0, Parent(j))
    ensures ChildrenOk(Swapped(a, Parent(j), j), Parent(j))
    ensures Bridged(Swapped(a, Parent(j), j), 0, Parent(j))
  {
    var p := Parent(j);
    var b := Swapped(a, p, j);
    forall k | 0 < k < |b| && Parent(k) != p && k != p
      ensures b[Parent(k)] <= b[k]
    {
      if Parent(k) == j {
        assert a[p] <= a[k];
      }
    }
    forall k | 0 < k < |b| && Parent(k) == p
      ensures b[p] <= b[k]
    {
      if k != j {
        assert a[p] <= a[k];
      }
    }
    if 0 < p {
      forall k | 0 < k < |b| && Parent(k) == p
        ensures b[Parent(p)] <= b[k]
      {
        assert a[Parent(p)] <= a[p];
        if k != j {
          assert a[p] <= a[k];
        }
      }
    }
  }

  /**
   * Changing the count in one slot of a heap, to any value, leaves every edge not touching that
   * slot in order, and its parent still no greater than its children: what `heap.Fix` starts from.
   */
  lemma ChangeOne(a: seq<int>, x: nat, v: int)
    requires Ordered(a) && x < |a|
    ensures OrderedExcept(a[x := v], 0, x) && Bridged(a[x := v], 0, x)
  {
    var b := a[x := v];
    if 0 < x {
      forall k | 0 < k < |b| && Parent(k) == x
        ensures b[Parent(x)] <= b[k]
      {
        assert a[Parent(x)] <= a[x] <= a[k];
      }
    }
  }

  /** Counts that are all zero, as in a pool nobody has borrowed from yet, are in heap order. */
  lemma IdleOrdered(a: seq<int>)
    requires forall k :: 0 <= k < |a| ==> a[k] == 0
    ensures Ordered(a)
  {
  }

  /** Slots from `|a| / 2` on are leaves, so there is no edge below them to be out of order. */
  lemma LeavesOrdered(a: seq<int>)
    ensures OrderedFrom(a, |a| / 2)
  {
  }

  /** Where `heap.Init` calls `down(i)`: the subtrees below `i` are heaps, so only edges out of `i` can be wrong. */
  lemma HeapifyStep(a: seq<int>, i: nat)
    requires OrderedFrom(a, i + 1)
    ensures OrderedExcept(a, i, i) && Bridged(a, i, i)
  {
  }

  /** A slot no greater than its children, above subtrees that are heaps, makes one more heap. */
  lemma Extend(a: seq<int>, i: nat)
    requires OrderedFrom(a, i + 1) && ChildrenOk(a, i)
    ensures OrderedFrom(a, i)
  {
  }

  /** In a heap every slot is no greater than its children. */
  lemma OrderedChildrenOk(a: seq<int>, i: nat)
    requires Ordered(a)
    ensures ChildrenOk(a, i)
  {
  }
}
