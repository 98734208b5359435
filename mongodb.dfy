/**
 * The connection pool (`ConnectionContext`): a fixed set of clients kept in a min-heap on their
 * borrow counts, so that `Ref` always lends the least-used client. Every public operation in the
 * source takes the pool's mutex; the model treats each call as one atomic step.
 */
module MongoDB {
  import opened Driver
  import opened ClientHeaps
  import opened HeapOrder
  import opened IndexKeys
  import ContainerHeap

  /** Pool size used when the caller asks for zero or fewer clients. */
  const DefaultClientNum: nat := 100

  /** Connect timeout and operation timeout `Connect` uses: 10 seconds and 5 minutes, in milliseconds. */
  const DefaultConnectTimeoutMs: nat := 10_000
  const DefaultTimeoutMs: nat := 300_000

  /** The number of clients a pool opens for a requested `clientNum`. */
  function PoolSize(clientNum: int): (n: nat)
    ensures n > 0
    ensures clientNum > 0 ==> n == clientNum
    ensures clientNum <= 0 ==> n == DefaultClientNum
  {
    if clientNum <= 0 then DefaultClientNum else clientNum
  }

  /** The first of connection attempts 0 .. n-1 that fails, if any. */
  function FirstFailure(dial: nat -> Result<Conn>, n: nat): (r: Option<nat>)
    ensures r.Some? ==> r.value < n && dial(r.value).Err? && forall m :: 0 <= m < r.value ==> dial(m).Ok?
    ensures r.None? ==> forall m :: 0 <= m < n ==> dial(m).Ok?
    decreases n
  {
    if n == 0 then None
    else
      match FirstFailure(dial, n - 1)
      case Some(m) => Some(m)
      case None => if dial(n - 1).Err? then Some(n - 1) else None
  }

  /** The first failing attempt is the one that every earlier attempt succeeded before. */
  lemma FirstFailureAt(dial: nat -> Result<Conn>, n: nat, i: nat)
    requires i < n && dial(i).Err? && forall m :: 0 <= m < i ==> dial(m).Ok?
    ensures FirstFailure(dial, n) == Some(i)
  {
  }

  /** The log lines `Close` writes: the counts of the clients still lent out, in slot order. */
  function Unreleased(refs: seq<int>): (w: seq<int>)
    ensures |w| <= |refs|
    ensures forall x :: x in w ==> x != 0 && x in refs
  {
    if refs == [] then []
    else
      var last := refs[|refs| - 1];
      Unreleased(refs[..|refs| - 1]) + (if last != 0 then [last] else [])
  }

  /** `Close` logs every non-zero count of the pool, once per client, and nothing else. */
  lemma {:induction false} UnreleasedCounts(refs: seq<int>)
    ensures multiset(Unreleased(refs)) == multiset(refs)[0 := 0]
    decreases |refs|
  {
    if refs != [] {
      var init, last := refs[..|refs| - 1], refs[|refs| - 1];
      assert refs == init + [last];
      UnreleasedCounts(init);
    }
  }

  /** `Close` logs nothing exactly when every client has been given back. */
  lemma {:induction false} UnreleasedEmpty(refs: seq<int>)
    ensures Unreleased(refs) == [] <==> forall k :: 0 <= k < |refs| ==> refs[k] == 0
    decreases |refs|
  {
    if refs != [] {
      var init := refs[..|refs| - 1];
      UnreleasedEmpty(init);
      if Unreleased(refs) == [] {
        assert Unreleased(init) == [];
        forall k | 0 <= k < |refs|
          ensures refs[k] == 0
        {
          if k < |refs| - 1 {
            assert refs[k] == init[k];
          }
        }
      }
    }
  }

  /** The document `EnsureCounter` inserts: `_id` is `id`, and `counter` is the `seq` field (`seq` is reserved in Dafny). */
  datatype CounterDoc = CounterDoc(id: string, counter: int)

  /** `EnsureCounter`'s answer for an insert outcome: a counter that already exists is not an error. */
  function CounterError(inserted: Option<Error>): (e: Option<Error>)
    ensures e.None? <==> inserted.None? || inserted == Some(DuplicateKeyError)
    ensures e.Some? ==> e == inserted
  {
    if inserted == Some(DuplicateKeyError) then None else inserted
  }

  /**
   * The pool. `clients` is the heap of pooled clients; `clientOpts` the settings every
   * (re)connection uses. Outcomes of the driver (connects, pings, queries) are parameters.
   */
  class ConnectionContext {
    const clients: ClientHeap
    const clientOpts: ClientOptions

    /** The pool's invariant: at least one client, back-pointers right, and heap order on counts. */
    ghost predicate Valid()
      reads this, clients, clients.h
    {
      0 < |clients.h| && clients.IndexOk() && clients.Ordered()
    }

    /** Whether `Ref` fails now: the least-used client is idle, its ping fails and so does the reconnect. */
    ghost predicate RefFails(pingOk: bool, redial: Result<Conn>)
      reads this, clients, clients.h
    {
      0 < |clients.h| && clients.h[0].ref == 0 && !pingOk && redial.Err?
    }

    /** The session `Ref` would lend now: the least-used client's, or the fresh one if it gets reconnected. */
    ghost function Lent(pingOk: bool, redial: Result<Conn>): Conn
      requires 0 < |clients.h|
      reads this, clients, clients.h
    {
      var s := clients.h[0];
      if s.ref == 0 && !pingOk && redial.Ok? then redial.value else s.conn
    }

    constructor (opts: ClientOptions)
      ensures clientOpts == opts && fresh(clients) && clients.h == []
    {
      clientOpts := opts;
      clients := new ClientHeap();
    }

    /**
     * Opens `PoolSize(clientNum)` clients, attempt `k` yielding `dial(k)`, and heapifies them.
     * The first failed attempt aborts the whole pool with that attempt's error.
     */
    static method ConnectWithTimeout(url: string, clientNum: int, connectTimeoutMs: nat, timeoutMs: nat,
                                     dial: nat -> Result<Conn>)
      returns (c: ConnectionContext?, err: Option<Error>)
      ensures c == null <==> err.Some?
      ensures err.Some? <==> FirstFailure(dial, PoolSize(clientNum)).Some?
      ensures err.Some? ==> err.value == dial(FirstFailure(dial, PoolSize(clientNum)).value).error
      ensures c != null ==> fresh(c) && fresh(c.clients) && c.Valid()
      ensures c != null ==> c.clientOpts == ClientOptions(url, connectTimeoutMs, timeoutMs)
      ensures c != null ==> |c.clients.h| == PoolSize(clientNum)
      ensures c != null ==> forall k :: 0 <= k < |c.clients.h| ==>
        fresh(c.clients.h[k]) && c.clients.h[k].conn == dial(k).value && c.clients.h[k].ref == 0
    {
      var n := clientNum;
      if n <= 0 {
        n := DefaultClientNum;
      }
      c := new ConnectionContext(ClientOptions(url, connectTimeoutMs, timeoutMs));
      err := c.Fill(n, dial);
      if err.Some? {
        return null, err;
      }
      ghost var filled := c.clients.h;
      c.InitIdle();
      assert c.clients.h == filled;
    }

    /**
     * The fill loop of `ConnectWithTimeout`: appends one idle client per successful attempt
     * `0 .. n-1`, each recording its slot, and stops at the first failed attempt with its error.
     */
    method Fill(n: nat, dial: nat -> Result<Conn>) returns (err: Option<Error>)
      requires clients.h == []
      modifies clients`h
      ensures err.Some? <==> FirstFailure(dial, n).Some?
      ensures err.Some? ==> err.value == dial(FirstFailure(dial, n).value).error
      ensures err.None? ==> |clients.h| == n && forall k :: 0 <= k < n ==>
        fresh(clients.h[k]) && clients.h[k].conn == dial(k).value && clients.h[k].ref == 0 && clients.h[k].index == k
    {
      var i := 0;
      while i < n
        invariant 0 <= i <= n && |clients.h| == i
        invariant forall m :: 0 <= m < i ==> dial(m).Ok?
        invariant forall k :: 0 <= k < i ==>
          fresh(clients.h[k]) && clients.h[k].conn == dial(k).value && clients.h[k].ref == 0 && clients.h[k].index == k
      {
        var d := dial(i);
        if d.Err? {
          FirstFailureAt(dial, n, i);
          return Some(d.error);
        }
        var client := new Client(d.value, i);
        clients.h := clients.h + [client];
        i := i + 1;
      }
      return None;
    }

    /** `heap.Init` on a pool just filled: every count is 0, so the heap is already in order and nothing moves. */
    method InitIdle()
      requires 0 < |clients.h|
      requires forall k :: 0 <= k < |clients.h| ==> clients.h[k].index == k && clients.h[k].ref == 0
      modifies clients`h, clients.h`index
      ensures Valid() && clients.h == old(clients.h)
    {
      IdleOrdered(clients.Refs());
      ContainerHeap.Init(clients);
    }

    /** `ConnectWithTimeout` with a 10-second connect timeout and a 5-minute operation timeout. */
    static method Connect(url: string, clientNum: int, dial: nat -> Result<Conn>)
      returns (c: ConnectionContext?, err: Option<Error>)
      ensures c == null <==> err.Some?
      ensures err.Some? <==> FirstFailure(dial, PoolSize(clientNum)).Some?
      ensures err.Some? ==> err.value == dial(FirstFailure(dial, PoolSize(clientNum)).value).error
      ensures c != null ==> fresh(c) && fresh(c.clients) && c.Valid()
      ensures c != null ==> c.clientOpts == ClientOptions(url, DefaultConnectTimeoutMs, DefaultTimeoutMs)
      ensures c != null ==> |c.clients.h| == PoolSize(clientNum)
      ensures c != null ==> forall k :: 0 <= k < |c.clients.h| ==>
        fresh(c.clients.h[k]) && c.clients.h[k].conn == dial(k).value && c.clients.h[k].ref == 0
    {
      c, err := ConnectWithTimeout(url, clientNum, DefaultConnectTimeoutMs, DefaultTimeoutMs, dial);
    }

    /**
     * Disconnects every client (the returned sessions, in slot order) and reports the count of
     * each client still lent out. Nothing in the pool changes.
     */
    method Close() returns (disconnected: seq<Conn>, warned: seq<int>)
      ensures |disconnected| == |clients.h|
      ensures forall k :: 0 <= k < |clients.h| ==> disconnected[k] == clients.h[k].conn
      ensures warned == Unreleased(clients.Refs())
    {
      disconnected := [];
      warned := [];
      ghost var refs := clients.Refs();
      for i := 0 to |clients.h|
        invariant |disconnected| == i
        invariant forall k :: 0 <= k < i ==> disconnected[k] == clients.h[k].conn
        invariant warned == Unreleased(refs[..i])
      {
        var s := clients.h[i];
        disconnected := disconnected + [s.conn];
        if s.ref != 0 {
          warned := warned + [s.ref];
        }
        assert refs[..i + 1][..i] == refs[..i];
      }
      assert refs[..|clients.h|] == refs;
    }

    /** `s.ref += delta` followed by `heap.Fix` at the slot `i` that holds `s`, as `Ref` and `UnRef` both do. */
    method AddRef(s: Client, i: int, delta: int)
      requires Valid() && 0 <= i < |clients.h| && clients.h[i] == s
      modifies clients`h, clients.h`index, {s}`ref
      ensures Valid() && multiset(clients.h) == multiset(old(clients.h))
      ensures s.ref == old(s.ref) + delta
    {
      ghost var a := clients.Refs();
      s.ref := s.ref + delta;
      assert clients.Refs() == a[i := a[i] + delta];
      ChangeOne(a, i, a[i] + delta);
      ContainerHeap.Fix(clients, i);
    }

    /**
     * Lends the least-used client (slot 0). An idle one is pinged first; if the ping fails it
     * is reconnected with `redial`, and a failed reconnect fails the whole call, lending nothing.
     */
    method Ref(pingOk: bool, redial: Result<Conn>) returns (s: Client?, err: Option<Error>)
      requires Valid()
      modifies clients`h, clients.h`index, {clients.h[0]}`ref, {clients.h[0]}`conn
      ensures Valid() && multiset(clients.h) == multiset(old(clients.h))
      ensures err.Some? <==> old(RefFails(pingOk, redial))
      ensures err.Some? ==> s == null && err == Some(redial.error) && clients.h == old(clients.h)
      ensures err.Some? ==> unchanged(clients.h[0])
      ensures err.None? ==> s == old(clients.h[0]) && s.ref == old(s.ref) + 1
      ensures err.None? ==> forall c :: c in old(clients.h) ==> old(s.ref) <= old(c.ref)
      ensures err.None? ==> s.conn == if old(s.ref) == 0 && !pingOk then redial.value else old(s.conn)
    {
      s := clients.h[0];
      ghost var a := clients.Refs();
      forall c | c in clients.h
        ensures s.ref <= c.ref
      {
        var k :| 0 <= k < |a| && clients.h[k] == c;
        RootIsLeast(a, k);
      }
      if s.ref == 0 {
        // only an idle client is health-checked; a failed ping means disconnect and redial
        if !pingOk {
          if redial.Err? {
            return null, Some(redial.error);
          }
          s.conn := redial.value;
          assert clients.Refs() == a;
        }
      }
      AddRef(s, 0, 1);
      err := None;
    }

    /** Gives back a client `Ref` lent: its count drops by one, with no floor, and the heap is fixed. */
    method UnRef(s: Client?)
      requires Valid() && (s != null ==> s in clients.h)
      modifies clients`h, clients.h`index, {s}`ref
      ensures Valid() && multiset(clients.h) == multiset(old(clients.h))
      ensures s == null ==> clients.h == old(clients.h)
      ensures s != null ==> s.ref == old(s.ref) - 1
    {
      if s == null {
        return;
      }
      AddRef(s, s.index, -1);
    }

    /**
     * The `Ref`, deferred `UnRef` bracket every query method uses: borrows a client, runs `call`
     * on its session and gives the client back, so every count ends where it began.
     */
    method WithClient<T>(pingOk: bool, redial: Result<Conn>, call: Conn -> T) returns (r: Result<T>)
      requires Valid()
      modifies clients`h, clients.h`index, {clients.h[0]}`ref, {clients.h[0]}`conn
      ensures Valid() && multiset(clients.h) == multiset(old(clients.h))
      ensures forall c :: c in old(clients.h) ==> c in clients.h && c.ref == old(c.ref)
      ensures old(clients.h[0]).conn == old(Lent(pingOk, redial))
      ensures old(RefFails(pingOk, redial)) ==> clients.h == old(clients.h)
      ensures old(RefFails(pingOk, redial)) ==> r == Err(redial.error)
      ensures !old(RefFails(pingOk, redial)) ==> r == Ok(call(old(Lent(pingOk, redial))))
    {
      var s, err := Ref(pingOk, redial);
      if err.Some? {
        return Err(err.value);
      }
      r := Ok(call(s.conn));
      assert s in old(multiset(clients.h));
      SameClientsAllIn(clients.h, old(clients.h));
      UnRef(s);
      assert s.ref == old(s.ref);
      SameClientsAllIn(old(clients.h), clients.h);
    }

    /** Creates counter `id` at 0 in `collection` of `db`; a counter that already exists is success. */
    method EnsureCounter(db: string, collection: string, id: string, pingOk: bool, redial: Result<Conn>,
                         insertOne: (Conn, string, string, CounterDoc) -> Option<Error>)
      returns (err: Option<Error>)
      requires Valid()
      modifies clients`h, clients.h`index, {clients.h[0]}`ref, {clients.h[0]}`conn
      ensures Valid() && multiset(clients.h) == multiset(old(clients.h))
      ensures forall c :: c in old(clients.h) ==> c in clients.h && c.ref == old(c.ref)
      ensures old(clients.h[0]).conn == old(Lent(pingOk, redial))
      ensures old(RefFails(pingOk, redial)) ==> clients.h == old(clients.h)
      ensures old(RefFails(pingOk, redial)) ==> err == Some(redial.error)
      ensures !old(RefFails(pingOk, redial)) ==>
        err == CounterError(insertOne(old(Lent(pingOk, redial)), db, collection, CounterDoc(id, 0)))
    {
      var r := WithClient(pingOk, redial, conn => insertOne(conn, db, collection, CounterDoc(id, 0)));
      if r.Err? {
        return Some(r.error);
      }
      if r.value == Some(DuplicateKeyError) {
        err := None;
      } else {
        err := r.value;
      }
    }

    /**
     * Atomically increments counter `id` and returns its new value, as `findAndInc` reports it;
     * any failure yields 0 with the error.
     */
    method NextSeq(db: string, collection: string, id: string, pingOk: bool, redial: Result<Conn>,
                   findAndInc: (Conn, string, string, string) -> Result<int>)
      returns (next: int, err: Option<Error>)
      requires Valid()
      modifies clients`h, clients.h`index, {clients.h[0]}`ref, {clients.h[0]}`conn
      ensures Valid() && multiset(clients.h) == multiset(old(clients.h))
      ensures forall c :: c in old(clients.h) ==> c in clients.h && c.ref == old(c.ref)
      ensures old(clients.h[0]).conn == old(Lent(pingOk, redial))
      ensures old(RefFails(pingOk, redial)) ==> clients.h == old(clients.h)
      ensures old(RefFails(pingOk, redial)) ==> next == 0 && err == Some(redial.error)
      ensures !old(RefFails(pingOk, redial)) ==>
        var res := findAndInc(old(Lent(pingOk, redial)), db, collection, id);
        (res.Ok? ==> next == res.value && err.None?) && (res.Err? ==> next == 0 && err == Some(res.error))
    {
      var r := WithClient(pingOk, redial, conn => findAndInc(conn, db, collection, id));
      if r.Err? {
        return 0, Some(r.error);
      }
      var res := r.value;
      if res.Ok? {
        next, err := res.value, None;
      } else {
        next, err := 0, Some(res.error);
      }
    }

    /** Creates a sparse index on `key`, each field ascending, unique if asked. */
    method EnsureIndexWith(db: string, collection: string, key: seq<string>, unique: bool,
                           pingOk: bool, redial: Result<Conn>,
                           createOne: (Conn, string, string, IndexModel) -> Option<Error>)
      returns (err: Option<Error>)
      requires Valid()
      modifies clients`h, clients.h`index, {clients.h[0]}`ref, {clients.h[0]}`conn
      ensures Valid() && multiset(clients.h) == multiset(old(clients.h))
      ensures forall c :: c in old(clients.h) ==> c in clients.h && c.ref == old(c.ref)
      ensures old(clients.h[0]).conn == old(Lent(pingOk, redial))
      ensures old(RefFails(pingOk, redial)) ==> clients.h == old(clients.h)
      ensures old(RefFails(pingOk, redial)) ==> err == Some(redial.error)
      ensures !old(RefFails(pingOk, redial)) ==>
        err == createOne(old(Lent(pingOk, redial)), db, collection, IndexModel(AscendingKeys(key), unique, true))
    {
      var keysDoc := KeysDoc(key);
      var model := IndexModel(keysDoc, unique, true);
      var r := WithClient(pingOk, redial, conn => createOne(conn, db, collection, model));
      if r.Err? {
        return Some(r.error);
      }
      err := r.value;
    }

    /** A sparse, non-unique ascending index on `key`. */
    method EnsureIndex(db: string, collection: string, key: seq<string>, pingOk: bool, redial: Result<Conn>,
                       createOne: (Conn, string, string, IndexModel) -> Option<Error>)
      returns (err: Option<Error>)
      requires Valid()
      modifies clients`h, clients.h`index, {clients.h[0]}`ref, {clients.h[0]}`conn
      ensures Valid() && multiset(clients.h) == multiset(old(clients.h))
      ensures forall c :: c in old(clients.h) ==> c in clients.h && c.ref == old(c.ref)
      ensures old(clients.h[0]).conn == old(Lent(pingOk, redial))
      ensures old(RefFails(pingOk, redial)) ==> clients.h == old(clients.h)
      ensures old(RefFails(pingOk, redial)) ==> err == Some(redial.error)
      ensures !old(RefFails(pingOk, redial)) ==>
        err == createOne(old(Lent(pingOk, redial)), db, collection, IndexModel(AscendingKeys(key), false, true))
    {
      err := EnsureIndexWith(db, collection, key, false, pingOk, redial, createOne);
    }

    /** A sparse, unique ascending index on `key`. */
    method EnsureUniqueIndex(db: string, collection: string, key: seq<string>, pingOk: bool, redial: Result<Conn>,
                             createOne: (Conn, string, string, IndexModel) -> Option<Error>)
      returns (err: Option<Error>)
      requires Valid()
      modifies clients`h, clients.h`index, {clients.h[0]}`ref, {clients.h[0]}`conn
      ensures Valid() && multiset(clients.h) == multiset(old(clients.h))
      ensures forall c :: c in old(clients.h) ==> c in clients.h && c.ref == old(c.ref)
      ensures old(clients.h[0]).conn == old(Lent(pingOk, redial))
      ensures old(RefFails(pingOk, redial)) ==> clients.h == old(clients.h)
      ensures old(RefFails(pingOk, redial)) ==> err == Some(redial.error)
      ensures !old(RefFails(pingOk, redial)) ==>
        err == createOne(old(Lent(pingOk, redial)), db, collection, IndexModel(AscendingKeys(key), true, true))
    {
      err := EnsureIndexWith(db, collection, key, true, pingOk, redial, createOne);
    }
  }
}
