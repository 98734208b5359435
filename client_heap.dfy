/** The pool's clients and the slice-backed heap that orders them by reference count. */
module ClientHeaps {
  import opened Driver
  import HeapOrder

  /** Every client in `a` also sits somewhere in `b`. */
  predicate AllIn(a: seq<Client>, b: seq<Client>)
  {
    forall k :: 0 <= k < |a| ==> a[k] in b
  }

  /** Sequences with the same clients, counted with multiplicity, hold only each other's clients. */
  lemma SameClientsAllIn(a: seq<Client>, b: seq<Client>)
    requires multiset(a) == multiset(b)
    ensures AllIn(a, b)
  {
    forall k | 0 <= k < |a|
      ensures a[k] in b
    {
      assert a[k] in multiset(a);
    }
  }

  /** Exchanging two slots keeps the same clients. */
  lemma SwapKeepsClients(s: seq<Client>, i: nat, j: nat)
    requires i < |s| && j < |s|
    ensures multiset(s[i := s[j]][j := s[i]]) == multiset(s) && AllIn(s[i := s[j]][j := s[i]], s)
  {
  }

  /** One pooled connection: the driver session, how many borrowers hold it, and its current heap slot. */
  class Client {
    var conn: Conn
    var ref: int
    var index: int

    constructor (conn: Conn, index: int)
      ensures this.conn == conn && ref == 0 && this.index == index
    {
      this.conn := conn;
      ref := 0;
      this.index := index;
    }
  }

  /**
   * A Go slice of client pointers. `h` is the slice as the heap sees it; Swap, Push and Pop
   * reassign it the way Go writes through the slice to its backing array.
   */
  class ClientHeap {
    var h: seq<Client>

    constructor ()
      ensures h == []
    {
      h := [];
    }

    /** Every client's back-pointer names its own slot (so, too, no client sits in two slots). */
    ghost predicate IndexOk()
      reads this, h
    {
      forall k :: 0 <= k < |h| ==> h[k].index == k
    }

    /** The reference counts, slot by slot. */
    ghost function Refs(): (r: seq<int>)
      reads this, h
      ensures |r| == |h| && forall k :: 0 <= k < |h| ==> r[k] == h[k].ref
    {
      var s := h;
      seq(|s|, k requires 0 <= k < |s| reads s => s[k].ref)
    }

    /** Min-heap order by reference count: no client has fewer references than its parent. */
    ghost predicate Ordered()
      reads this, h
    {
      HeapOrder.Ordered(Refs())
    }

    function Len(): int
      reads this
    {
      |h|
    }

    function Less(i: nat, j: nat): bool
      requires i < |h| && j < |h|
      reads this, h
    {
      h[i].ref < h[j].ref
    }

    method Swap(i: nat, j: nat)
      requires i < |h| && j < |h|
      modifies this`h, h`index
      ensures h == old(h)[i := old(h[j])][j := old(h[i])]
      ensures h[j].index == j && (h[i] != h[j] ==> h[i].index == i)
      ensures forall c :: c in old(h) && c != old(h[i]) && c != old(h[j]) ==> c.index == old(c.index)
      ensures multiset(h) == multiset(old(h)) && AllIn(h, old(h))
      ensures Refs() == HeapOrder.Swapped(old(Refs()), i, j)
      ensures old(IndexOk()) ==> IndexOk()
    {
      SwapKeepsClients(h, i, j);
      h := h[i := h[j]][j := h[i]];
      h[i].index := i;
      h[j].index := j;
    }

    method Push(s: Client)
      modifies this`h, s`index
      ensures h == old(h) + [s] && s.index == old(|h|)
      ensures forall c :: c in old(h) && c != s ==> c.index == old(c.index)
      ensures old(IndexOk()) && s !in old(h) ==> IndexOk()
    {
      s.index := |h|;
      h := h + [s];
    }

    method Pop() returns (s: Client)
      requires |h| > 0
      modifies this`h, h`index
      ensures s == old(h[|h| - 1]) && h == old(h[..|h| - 1])
      ensures s.index == -1
      ensures forall c :: c in old(h) && c != s ==> c.index == old(c.index)
      ensures old(IndexOk()) ==> IndexOk()
    {
      var l := |h|;
      s := h[l - 1];
      s.index := -1;
      h := h[..l - 1];
    }
  }
}
