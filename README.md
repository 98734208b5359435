# MongoDB connection pool of leaf, in Dafny

This project models the connection pool in `db/mongodb/mongodb.go` of the leaf game-server
framework and proves what its bookkeeping promises.

A `ConnectionContext` opens a fixed number of driver sessions (`Client`s). It keeps them in a
binary min-heap (`ClientHeap`) ordered by each client's reference count `ref`. Every client also
carries a back-pointer `index` to its own heap slot.
- `Ref` lends the root, which is the least-used client.
- `UnRef` gives a client back.
- After each count change, Go's `heap.Fix` re-sifts the heap.

The query helpers borrow a client around one driver call each:
- `EnsureCounter` and `NextSeq` work on sequence counters.
- `EnsureIndex` and `EnsureUniqueIndex` create indexes.

Module layout, in dependency order:

- `driver.dfy` (`Driver`): what the pool sees of the MongoDB driver. A session is an opaque `Conn` token. An `Error` is either a duplicate key or any other driver failure. The file also holds `Option`/`Result` and the connection settings.
- `heap_order.dfy` (`HeapOrder`): heap order on a plain `seq<int>` of counts, plus the pure facts the sift loops need.
- `client_heap.dfy` (`ClientHeaps`): the `Client` and `ClientHeap` classes. The Go slice is a `seq<Client>` field that `Swap`, `Push` and `Pop` reassign. The three of them keep every `index` back-pointer right.
- `container_heap.dfy` (`ContainerHeap`): Go's `container/heap` `Init`, `Fix`, `down` and `up`, written as the standard sift loops over `ClientHeap.Less` and `ClientHeap.Swap` (client_heap.dfy). Each is proved against heap order on `ClientHeap.Refs()`. The source of `container/heap` is not part of this model; the loops follow Go's standard library.
- `index_keys.dfy` (`IndexKeys`): the ascending key document that `ensureIndex` fills slot by slot.
- `mongodb.dfy` (`MongoDB`): `ConnectionContext` with `ConnectWithTimeout`, `Connect`, `Close`, `Ref`, `UnRef`, and the query methods built on them.

The pool's invariant `ConnectionContext.Valid()` has three parts:
- at least one client;
- `clients.h[k].index == k` in every slot;
- heap order on the counts.

Every state-changing operation preserves `Valid()` and keeps the same clients (equal multisets). So the pool size never changes after construction.

The driver is not modelled; its outcomes are parameters:
- `dial(k)` is the result of the `k`-th `mongo.Connect` during construction.
- `pingOk` and `redial` are the results of `Ping` and of the reconnect in `Ref`.
- `insertOne`, `findAndInc` and `createOne` are the results of the three driver queries. Each receives the session of the lent client.

## Model

| member | source | states |
|---|---|---|
| ClientHeaps.Client.constructor | db/mongodb/mongodb.go:83 | a new client holds the given session, has no borrowers (`ref == 0`) and records the given slot |
| ClientHeaps.ClientHeap.constructor | db/mongodb/mongodb.go:75 | the pool starts with an empty client slice |
| ClientHeaps.ClientHeap.Swap | db/mongodb/mongodb.go:33-37 | slots `i` and `j` trade clients, and no other slot changes. The clients now in `i` and `j` record their new slots. A client sitting in both slots records `j`. Every other client's back-pointer is untouched. The slice keeps the same clients. The counts, read slot by slot, are the old counts with `i` and `j` exchanged. Index consistency is preserved |
| ClientHeaps.SwapKeepsClients | db/mongodb/mongodb.go:34 | exchanging two slots keeps the same clients, and every client of the result was in the original |
| ClientHeaps.ClientHeap.Push | db/mongodb/mongodb.go:39-42 | appends `s` after recording the old length as its slot. The other clients' back-pointers are untouched. Index consistency is preserved when `s` was not already in the slice |
| ClientHeaps.ClientHeap.Pop | db/mongodb/mongodb.go:44-50 | returns the last client with its slot set to -1. The remaining slice is exactly the old prefix, in order. The other clients' back-pointers are untouched, and index consistency is preserved |
| HeapOrder.RootIsLeast | db/mongodb/mongodb.go:107 | under heap order, slot 0 holds a count no greater than any other slot's, so `clients[0]` is a least-used client |
| HeapOrder.ChangeOne | db/mongodb/mongodb.go:133-134 | changing one slot's count, to any value, leaves every edge not touching that slot in order. The slot's parent also stays no greater than the slot's children. This is the precondition of `heap.Fix` at that slot |
| HeapOrder.DownStep | db/mongodb/mongodb.go:120 | one swap of `down` (a slot with its smaller child, when that child is smaller) moves the only possible disorder one level down |
| HeapOrder.UpStep | db/mongodb/mongodb.go:134 | one swap of `up` (a slot with a larger parent) moves the only possible disorder one level up |
| HeapOrder.Assemble | db/mongodb/mongodb.go:120 | order everywhere except around one slot, plus order at that slot's two edges, is heap order |
| HeapOrder.ChildrenOkAt | db/mongodb/mongodb.go:120 | comparing a slot with slots `2x+1` and `2x+2` settles its order against all its children |
| HeapOrder.IdleOrdered | db/mongodb/mongodb.go:83-85 | all-zero counts, as right after the fill loop, are in heap order |
| HeapOrder.LeavesOrdered | db/mongodb/mongodb.go:85 | slots from `n/2` on are leaves, so `heap.Init` may start at `n/2 - 1` |
| HeapOrder.HeapifyStep | db/mongodb/mongodb.go:85 | when the subtrees below slot `i` are heaps, `down(i)` has only slot `i` to place |
| HeapOrder.Extend | db/mongodb/mongodb.go:85 | when slot `i` is no greater than its children and the subtrees below are heaps, the subtree at `i` is a heap |
| HeapOrder.OrderedChildrenOk | db/mongodb/mongodb.go:85 | in a heap every slot is no greater than its children, so `down` moves nothing |
| ContainerHeap.Down | db/mongodb/mongodb.go:120 | Go's `down(i0)`: when `i0` is the only slot out of place under `lo`, it either moves and makes the subtrees from `lo` heaps, or stays put. Staying put leaves the slice untouched and `i0` no greater than its children. It never moves a slot already in order. It keeps the same clients and preserves index consistency |
| ContainerHeap.DownOnce | db/mongodb/mongodb.go:120 | one iteration of `down`: it stops, leaving the slice as it was, when the slot has no smaller child. Otherwise it exchanges the counts of the slot and one of its children and continues at that child (`Parent(next) == i`), keeping the loop's order invariant there |
| ContainerHeap.SwapDown | db/mongodb/mongodb.go:120 | the swap of one `down` iteration exchanges the counts of the slot and its child and keeps the loop's order invariant at the child's slot |
| ContainerHeap.Up | db/mongodb/mongodb.go:134 | Go's `up(j0)`: when `j0` is the only slot out of place against its ancestors, the result is a heap of the same clients. Index consistency is preserved |
| ContainerHeap.UpOnce | db/mongodb/mongodb.go:134 | one iteration of `up`, with Go's truncating `(j-1)/2` at the root: it stops with a heap, or it exchanges the counts of `j` and its parent and continues at the parent (`next == Parent(j)`) |
| ContainerHeap.Fix | db/mongodb/mongodb.go:120 | `heap.Fix(i)`: when only slot `i`'s count changed, the result is a heap of the same clients. Index consistency is preserved |
| ContainerHeap.Init | db/mongodb/mongodb.go:85 | `heap.Init`: the result is a heap of the same clients, and index consistency is preserved. A slice already in heap order is left exactly as it was |
| ContainerHeap.InitAt | db/mongodb/mongodb.go:85 | one round of `heap.Init`'s loop extends the heap part of the slice by one slot. It moves nothing on counts that were already in order |
| MongoDB.PoolSize | db/mongodb/mongodb.go:65-68 | the pool opens `clientNum` clients when that is positive, and otherwise 100 |
| MongoDB.FirstFailure | db/mongodb/mongodb.go:78-82 | finds the first failing connection attempt below `n`: every attempt before it succeeded. When there is none, every attempt below `n` succeeded |
| MongoDB.FirstFailureAt | db/mongodb/mongodb.go:78-82 | a failing attempt `i` after only successes is the first failure |
| MongoDB.ConnectionContext.constructor | db/mongodb/mongodb.go:70-76 | a new pool keeps the given settings and has no clients yet |
| MongoDB.ConnectionContext.ConnectWithTimeout | db/mongodb/mongodb.go:64-88 | it fails (null pool, the error of the first failing attempt) exactly when one of the `PoolSize(clientNum)` attempts fails; there is never a partial pool. On success the pool is new and valid with exactly `PoolSize(clientNum)` fresh clients. Client `k` holds session `dial(k)` with count 0, and the settings carry the URI and both timeouts |
| MongoDB.ConnectionContext.Fill | db/mongodb/mongodb.go:77-84 | the fill loop stops with the error of the first failing attempt exactly when one of attempts `0 .. n-1` fails. Otherwise the slice holds `n` fresh clients, client `k` holding session `dial(k)`, count 0 and slot `k` |
| MongoDB.ConnectionContext.InitIdle | db/mongodb/mongodb.go:85 | `heap.Init` on the freshly filled pool makes it valid without moving any client |
| MongoDB.ConnectionContext.Connect | db/mongodb/mongodb.go:59-61 | as `ConnectWithTimeout`, with a connect timeout of 10 s and an operation timeout of 5 min: the first error or a valid fresh pool of `PoolSize` fresh clients, client `k` holding `dial(k)` with count 0 |
| MongoDB.Unreleased | db/mongodb/mongodb.go:96-98 | the counts `Close` logs, in slot order: each is non-zero and taken from the pool, and there are at most as many as clients. `UnreleasedCounts` proves the converse, that every non-zero count is logged once |
| MongoDB.UnreleasedCounts | db/mongodb/mongodb.go:95-99 | `Close` logs every non-zero count of the pool once per client, and nothing else: the logged counts are the pool's counts with the zeros removed, as multisets |
| MongoDB.UnreleasedEmpty | db/mongodb/mongodb.go:91-100 | `Close` logs nothing exactly when every count is 0 |
| MongoDB.ConnectionContext.Close | db/mongodb/mongodb.go:91-100 | it disconnects every client's session, in slot order, without stopping early. It logs the count of each client still lent out. The pool is not changed |
| MongoDB.ConnectionContext.AddRef | db/mongodb/mongodb.go:119-120 | adding `delta` to one client's count, then `heap.Fix` at its slot, changes only that count. The pool stays valid with the same clients |
| MongoDB.ConnectionContext.Ref | db/mongodb/mongodb.go:103-123 | it fails exactly when the root is idle, its ping fails and the redial fails. Then it returns that error and changes nothing: same slice, same root. Otherwise it lends the old root, whose count was no greater than any client's, and raises that count by 1. A reconnect installs the new session, and only an idle root is checked. The frame allows no other count or session to change. The pool stays valid with the same clients |
| MongoDB.ConnectionContext.UnRef | db/mongodb/mongodb.go:126-135 | `nil` leaves the slice as it is. Otherwise the client's count drops by exactly 1, with no floor at 0, and the frame allows no other count to change. The pool stays valid with the same clients |
| MongoDB.ConnectionContext.WithClient | db/mongodb/mongodb.go:139-143 | `Ref`, then the driver call on the lent session, then the deferred `UnRef`. A failed `Ref` yields its error without calling. Afterwards every client is still in the pool with the count it had, and the pool stays valid with the same clients. The old root keeps the session `Ref` left in it: the redialled one or its own. A failed `Ref` leaves the slice unchanged |
| MongoDB.CounterError | db/mongodb/mongodb.go:150-154 | an insert outcome maps to success exactly when the insert succeeded or hit a duplicate key. Any other error passes through unchanged |
| MongoDB.ConnectionContext.EnsureCounter | db/mongodb/mongodb.go:138-155 | it returns the `Ref` error, or maps the result of inserting `{_id: id, seq: 0}` on the lent session through `CounterError`. Every client stays in the pool with its count restored, and the pool stays valid with the same clients. The old root keeps the session `Ref` left in it: the redialled one or its own. A failed `Ref` leaves the slice unchanged |
| MongoDB.ConnectionContext.NextSeq | db/mongodb/mongodb.go:158-176 | it returns `(0, err)` when `Ref` or the find-and-increment fails. Otherwise it returns the value the increment reports, with no error. Every client stays in the pool with its count restored, and the pool stays valid with the same clients. The old root keeps the session `Ref` left in it: the redialled one or its own. A failed `Ref` leaves the slice unchanged |
| IndexKeys.AscendingKeys | db/mongodb/mongodb.go:196-199 | the key document has one entry per key. Entry `i` is `(key[i], 1)` |
| IndexKeys.KeyNamesOfAscending | db/mongodb/mongodb.go:196-199 | reading the field names back out of the key document gives exactly the keys, in order |
| IndexKeys.AscendingKeysInjective | db/mongodb/mongodb.go:196-199 | two key lists give the same key document exactly when they are equal |
| IndexKeys.KeysDoc | db/mongodb/mongodb.go:196-199 | the slot-by-slot fill of `keysDoc` yields the ascending key document, whose names are the keys |
| MongoDB.ConnectionContext.EnsureIndexWith | db/mongodb/mongodb.go:188-207 | it returns the `Ref` error, or the result of creating the index on the lent session. The index has the ascending key document, the requested `unique` flag and `sparse` always true. Every client stays in the pool with its count restored, and the pool stays valid with the same clients. The old root keeps the session `Ref` left in it: the redialled one or its own. A failed `Ref` leaves the slice unchanged |
| MongoDB.ConnectionContext.EnsureIndex | db/mongodb/mongodb.go:179-181 | as `EnsureIndexWith` with `unique` false |
| MongoDB.ConnectionContext.EnsureUniqueIndex | db/mongodb/mongodb.go:184-186 | as `EnsureIndexWith` with `unique` true |

## Left out

- Network I/O. `mongo.Connect`, `Ping`, `InsertOne`, `FindOneAndUpdate` and `Indexes().CreateOne` are not modelled; their outcomes are parameters.
- `Disconnect`. `Close` returns the sessions it disconnects. The disconnect of the stale session in `Ref` has no modelled effect.
- The server side of the counters: the atomic increment, and the 1, 2, 3 sequence in the example test. They belong to the MongoDB server, so `findAndInc` just reports a value.
- `sync.Mutex`. It only serialises concurrent callers, so each operation is one atomic step.
- Logging. The "invalid clientNum" line is not modelled. The lines `Close` logs are its `warned` result.
- `time.Duration` timeouts and the `options.ClientOptions` builder. They are configuration only; timeouts are whole milliseconds.
- Slice capacity. `make(ClientHeap, 0, clientNum)` preallocates, and `append` may reallocate; neither changes the modelled contents.
- Sessions opened before a failed connection attempt are dropped, not disconnected. The model drops them as the code does.
- Fixed-width integers. Go's `int` could overflow in `ref++` and in `down`'s `j1 < 0` guard. Dafny integers are unbounded, so neither overflow is modelled.
- Misuse of the pool. `Ref` on an empty pool panics in Go; the model excludes it through `Valid()`, since a constructed pool always has at least one client. `UnRef` of a client from another pool is excluded by its precondition.
- `ClientHeaps.ClientHeap.Len` and `ClientHeaps.ClientHeap.Less` are plain accessors without contracts of their own. The sift loops' proofs use them directly.
- `container/heap`'s own `Push` and `Pop` are never called by the pool. `ClientHeap.Push` and `ClientHeap.Pop` are modelled as methods, but nothing calls them.
- MongoDB.ConnectionContext.Ref: the contracts do not say which of several least-used clients the next `Ref` lends, so even load spreading is neither stated nor refuted. The code does not spread load evenly. Go's `down` takes the right child only when it is strictly smaller, so on a tie it goes left, and `UnRef` leaves a client that drops back to 0 where it is. With 3 idle clients `[c0, c1, c2]`, `Ref` then `UnRef` twice returns the heap to `[c0, c1, c2]`, and `c2` is never lent. In general only the clients on slots 0, 1, 3, 7, … of an idle pool are lent by sequential borrow-and-return cycles.
- Counts can go negative: `UnRef` has no guard, so an unmatched `UnRef` drives a count below 0. The model follows the code and keeps heap order on arbitrary integers.
- Query order. `EnsureCounter`, `NextSeq` and `EnsureIndexWith` run their driver call inside `WithClient`, between `Ref` and `UnRef`, as Go's `defer` does. `EnsureIndexWith` builds its key document before `Ref`; Go's `ensureIndex` builds it after `Ref` (mongodb.go:189 and 196-199). This is harmless because building it has no effect on the pool.
- The example test (`db/mongodb/example_test.go`) needs a live server and has no logic of its own.
