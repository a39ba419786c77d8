# carray: a copy-on-write integer array, modelled in Dafny

The Go package `carray` provides `ConcurrencyArray`. It is a fixed-length array of `int` that many goroutines may read and write without locks. Its one implementation is `intArray`. It holds a `uint32` length and an `atomic.Value` with the current snapshot, a `[]int`.

- `NewConcurrencyArray(n)` stores a zero-filled slice of length `n`.
- `Set(index, elem)` checks the index, then checks that a snapshot exists. It then allocates a new slice, copies the current snapshot into it, writes one slot of the copy and stores the copy as the new snapshot. A published slice is never written again.
- `Get(index)` runs the same two checks and reads one slot of the current snapshot.
- `Len()` returns the length.

`carray.dfy` holds module `CArray`. Its class `IntArray` has these parts:

- `const length: Uint32`, where `Uint32` is the naturals below 2^32. Because it is a `const`, no operation can change the length after construction.
- `var val: array?<int>`, the current snapshot. `null` stands for an `atomic.Value` that nothing was stored in, which is what `checkValue` tests for.
- `ghost var History`, the successful `Set` calls in order.

The invariant `Valid()` says a stored snapshot has exactly `length` slots and equals `Replay(length, History)`, the result of applying those writes to the zero-filled start. `ValueAt(History, i)` gives an independent reading of the same state: the element of the last write to `i`, or 0 when there is none. `ReplayAt` proves that the two agree. `Get` is stated against `ValueAt`.

The model is sequential. An atomic load or store of the snapshot becomes a plain read or write of `val`. The two Go errors become the `Error` variants `IndexOutOfRange(length)` and `InvalidState`. Like the Go code, `Get` returns element 0 together with any error.

## Model

| member | source | states |
|---|---|---|
| `CArray.IntArray.constructor` | carray.go:26-31 | the length is `n`; a fresh zero-filled snapshot is stored; `Get(i)` gives `(0, no error)` for every `i < n` |
| `CArray.IntArray.Unpublished` | carray.go:20-23 | an instance built without storing a snapshot: every in-range `Get` fails with `InvalidState` |
| `CArray.IntArray.Len` | carray.go:69-71 | returns the length fixed at construction; `length` is a `const`, so the value is the same for the object's whole life |
| `CArray.IntArray.CheckIndex` | carray.go:74-79 | fails if and only if `index >= length`; the failure is `IndexOutOfRange` carrying the length |
| `CArray.IntArray.CheckValue` | carray.go:82-88 | fails if and only if no snapshot is stored; the failure is `InvalidState` |
| `CArray.IntArray.Get` | carray.go:57-66 | index out of range gives `(0, IndexOutOfRange(length))`, checked before the snapshot; then no snapshot gives `(0, InvalidState)`; otherwise no error, and the element is the value of the last successful `Set` at that index, or 0 |
| `CArray.IntArray.Set` | carray.go:34-54 | error exactly when the index is out of range (checked first) or no snapshot exists, and then nothing changes; on success a freshly allocated snapshot of `length` slots equals the old one with `elem` at `index`, and a following `Get(index)` returns `elem`; every other index keeps its `Get` result; the previously stored array keeps its contents in every case |
| `CArray.Replay` | carray.go:29-52 | the snapshot produced by a sequence of writes on a zero-filled start always has exactly `n` slots |
| `CArray.ReplayAt` | carray.go:49-52 | each slot of the replayed snapshot is the element of the last write to it, or the initial 0 |
| `CArray.ValueAtIsWritten` | carray.go:49-52 | a slot's value is either 0 or the element of some write to that same slot |
| `CArray.GetIsInitialOrWritten` | carray.go:57-66 | a successful `Get` returns 0 or an element that some earlier successful `Set` wrote to that same index |
| `CArray.GetInRange` | carray_test.go:56-67 | if every element written so far lies in `[lo, hi]`, a successful `Get` returns 0 or a value in `[lo, hi]` |

## Left out

- Concurrency and the semantics of `sync/atomic.Value` are out of scope: the model runs one call at a time. This includes the lost update when two `Set` calls overlap, because each stores its own copy unconditionally and the last store wins (carray.go:50-52).
- The text of the error messages from `fmt.Errorf` and `errors.New` is not modelled. Only the error kind and the length in the index error are kept.
- The `ConcurrencyArray` interface, dynamic dispatch and the `.([]int)` type assertion are not modelled. The class methods stand for the interface methods.
- Go's `copy` copies the shorter of the two lengths. Under the invariant, a stored snapshot always has `length` slots, so the model's copy loop runs over all `length` slots.
- Go's `int` width does not matter here, because elements are only stored and read, so elements are unbounded `int`.
- The test harness in `carray_test.go` is not modelled: its goroutines, `WaitGroup`, random lengths and `uint32` products. `GetInRange` states its range check for the sequential case.
