/**
  A fixed-length integer array whose contents are published as immutable
  snapshots: a write copies the current snapshot into a fresh array, changes
  one slot of the copy and then replaces the snapshot reference, so an array
  that was once published is never written again.

  The model is sequential; the atomic load and store of the snapshot
  reference are plain reads and writes of the field `val`.
 */
module CArray {

  /** The source's `uint32` lengths and indices. */
  type Uint32 = x: nat | x < 0x1_0000_0000

  datatype Option<T> = None | Some(value: T)

  /** The two failures `Get` and `Set` report; the first carries the bound
      that the source puts into its message. */
  datatype Error =
    | IndexOutOfRange(length: Uint32)
    | InvalidState

  /** One successful `Set` call. */
  datatype Write = Write(index: Uint32, elem: int)

  /** The snapshot that results from applying `writes`, in order, to a
      zero-filled array of length `n`; a write outside `[0, n)` changes nothing. */
  function Replay(n: nat, writes: seq<Write>): (s: seq<int>)
    ensures |s| == n
    decreases |writes|
  {
    if writes == [] then seq(n, _ => 0)
    else
      var s := Replay(n, writes[..|writes| - 1]);
      var w := writes[|writes| - 1];
      if w.index < n then s[w.index := w.elem] else s
  }

  /** Reference meaning of an index after `writes`: the element of the last
      write to it, or the initial 0 when nothing was written there. */
  function ValueAt(writes: seq<Write>, index: nat): int
    decreases |writes|
  {
    if writes == [] then 0
    else if writes[|writes| - 1].index == index then writes[|writes| - 1].elem
    else ValueAt(writes[..|writes| - 1], index)
  }

  /** Replaying the writes agrees slot by slot with the last-write reference. */
  lemma {:induction false} ReplayAt(n: nat, writes: seq<Write>, k: nat)
    requires k < n
    ensures Replay(n, writes)[k] == ValueAt(writes, k)
    decreases |writes|
  {
    if writes != [] {
      ReplayAt(n, writes[..|writes| - 1], k);
    }
  }

  /** Every value an index can hold is the initial 0 or the element of some
      write to that very index. */
  lemma {:induction false} ValueAtIsWritten(writes: seq<Write>, index: nat)
    ensures ValueAt(writes, index) == 0
         || exists j :: 0 <= j < |writes| && writes[j].index == index && writes[j].elem == ValueAt(writes, index)
    decreases |writes|
  {
    if writes != [] && writes[|writes| - 1].index != index {
      var prefix := writes[..|writes| - 1];
      ValueAtIsWritten(prefix, index);
      if ValueAt(prefix, index) != 0 {
        var j :| 0 <= j < |prefix| && prefix[j].index == index && prefix[j].elem == ValueAt(prefix, index);
        assert writes[j] == prefix[j];
      }
    }
  }

  /** The integer array. `length` is fixed when the object is built; `val` is
      the current snapshot, `null` while none has been stored. */
  class IntArray {
    const length: Uint32
    var val: array?<int>
    /** The successful `Set` calls so far, oldest first. */
    ghost var History: seq<Write>

    /** A stored snapshot has exactly `length` slots and holds what the
        successful writes so far produce from the zero-filled start. */
    ghost predicate Valid()
      reads this, val
    {
      val != null ==> val.Length == length && val[..] == Replay(length, History)
    }

    /** Builds an array of `n` zeros and publishes it as the first snapshot. */
    constructor (n: Uint32)
      ensures Valid() && fresh(val)
      ensures length == n && val != null && History == []
      ensures forall i: Uint32 :: i < n ==> Get(i) == (0, None)
    {
      length := n;
      val := new int[n](_ => 0);
      History := [];
    }

    /** An instance whose snapshot was never stored (the struct built directly
        instead of through the constructor above). */
    constructor Unpublished(n: Uint32)
      ensures Valid()
      ensures length == n && val == null && History == []
      ensures forall i: Uint32 :: i < n ==> Get(i) == (0, Some(InvalidState))
    {
      length := n;
      val := null;
      History := [];
    }

    /** The length fixed at construction. */
    function Len(): (n: Uint32)
      ensures n == length
    {
      length
    }

    /** Fails exactly when `index` lies outside `[0, length)`. */
    function CheckIndex(index: Uint32): (err: Option<Error>)
      ensures err.None? <==> index < length
      ensures err.Some? ==> err.value == IndexOutOfRange(length)
    {
      if index >= length then Some(IndexOutOfRange(length)) else None
    }

    /** Fails exactly when no snapshot has been stored. */
    function CheckValue(): (err: Option<Error>)
      reads this
      ensures err.None? <==> val != null
      ensures err.Some? ==> err.value == InvalidState
    {
      if val == null then Some(InvalidState) else None
    }

    /** Reads one slot of the current snapshot; on failure the element is 0. */
    function Get(index: Uint32): (r: (int, Option<Error>))
      reads this, val
      requires Valid()
      ensures index >= length ==> r == (0, Some(IndexOutOfRange(length)))
      ensures index < length && val == null ==> r == (0, Some(InvalidState))
      ensures index < length && val != null ==> r == (ValueAt(History, index), None)
    {
      var e := CheckIndex(index);
      if e.Some? then (0, e)
      else
        var e' := CheckValue();
        if e'.Some? then (0, e')
        else
          ReplayAt(length, History, index);
          (val[index], None)
    }

    /** Copy-on-write update of one slot: copy the current snapshot into a
        fresh array, write `elem` at `index` in the copy, publish the copy. */
    method Set(index: Uint32, elem: int) returns (err: Option<Error>)
      requires Valid()
      modifies this
      ensures Valid()
      ensures err == if index >= length then Some(IndexOutOfRange(length))
                     else if old(val) == null then Some(InvalidState)
                     else None
      ensures err.Some? ==> val == old(val) && History == old(History)
      ensures err.None? ==> fresh(val) && History == old(History) + [Write(index, elem)]
      ensures err.None? ==> val[..] == old(val[..])[index := elem]
      ensures old(val) != null ==> old(val)[..] == old(val[..])
      ensures err.None? ==> Get(index) == (elem, None)
      ensures forall j: Uint32 :: j != index ==> Get(j) == old(Get(j))
    {
      err := CheckIndex(index);
      if err.Some? {
        return;
      }
      err := CheckValue();
      if err.Some? {
        return;
      }
      var current := val;
      var next := new int[length](_ => 0);
      var k := 0;
      while k < length
        modifies next
        invariant 0 <= k <= length
        invariant forall m :: 0 <= m < k ==> next[m] == current[m]
      {
        next[k] := current[k];
        k := k + 1;
      }
      next[index] := elem;
      val := next;
      ghost var before := History;
      History := History + [Write(index, elem)];
      assert History[..|History| - 1] == before;
    }
  }

  /** A successful `Get` returns the initial 0 or the element some earlier
      successful `Set` wrote to that same index. */
  lemma GetIsInitialOrWritten(a: IntArray, index: Uint32)
    requires a.Valid()
    ensures a.Get(index).1 == None ==>
              a.Get(index).0 == 0
              || exists j :: 0 <= j < |a.History| && a.History[j].index == index
                             && a.History[j].elem == a.Get(index).0
  {
    ValueAtIsWritten(a.History, index);
  }

  /** When every element written so far lies in `[lo, hi]`, a successful
      `Get` returns 0 or a value in `[lo, hi]`. */
  lemma GetInRange(a: IntArray, index: Uint32, lo: int, hi: int)
    requires a.Valid()
    requires forall j :: 0 <= j < |a.History| ==> lo <= a.History[j].elem <= hi
    ensures a.Get(index).1 == None ==> a.Get(index).0 == 0 || lo <= a.Get(index).0 <= hi
  {
    GetIsInitialOrWritten(a, index);
  }

  /** A caller's view: every property below follows from the contracts alone. */
  method Usage(v: int)
  {
    var a := new IntArray(5);
    assert a.Get(0) == (0, None);
    var err := a.Set(2, 42);
    assert err == None;
    assert a.Get(2) == (42, None);
    assert a.Get(10) == (0, Some(IndexOutOfRange(5)));
    assert a.Len() == 5;
    err := a.Set(7, v);
    assert err == Some(IndexOutOfRange(5));
    assert a.Get(2) == (42, None);
  }
}
