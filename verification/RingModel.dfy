// The memory of a ready-queue ring as a value, the single stores its operations
// are made of, and what a garbage-collector traversal sees after any of them.

module RingModel {
  import opened Bits
  import opened Common
  import opened CallbackPayload

  /** `func` and `cleanup` stand for function pointers. */
  datatype Callback = Callback(func: nat, cleanup: Option<nat>, data: CallbackData)

  datatype Ring = Ring(
    callbacks: seq<Callback>, executed: seq<bool>,
    capacity: nat, readIdx: nat, writeIdx: nat)

  function Slot(i: nat, capacity: nat): nat
    requires capacity > 0
  {
    And(i, capacity - 1)
  }

  lemma SlotIsMod(i: nat, capacity: nat)
    requires IsPow2(capacity)
    ensures Slot(i, capacity) == i % capacity < capacity
  {
    var k: nat :| capacity == Pow2(k);
    MaskIsMod(i, k);
  }

  /** No two indices less than a capacity apart share a slot. */
  lemma SlotsApart(i: nat, j: nat, capacity: nat)
    requires IsPow2(capacity)
    requires i < j < i + capacity
    ensures Slot(i, capacity) != Slot(j, capacity)
  {
    SlotIsMod(i, capacity);
    SlotIsMod(j, capacity);
    ModApart(i, j, capacity);
  }

  lemma ModApart(i: nat, j: nat, c: nat)
    requires i < j < i + c
    ensures i % c != j % c
  {
    var a, b := i / c, j / c;
    if a < b {
      MulMonotone(a + 1, b, c);
    } else {
      MulMonotone(b, a, c);
    }
  }

  ghost predicate Shape(r: Ring) {
    && IsPow2(r.capacity)
    && |r.callbacks| == |r.executed| == r.capacity
    && r.readIdx <= r.writeIdx <= r.readIdx + r.capacity
    && forall i: nat {:trigger Slot(i, r.capacity)} :: Slot(i, r.capacity) < r.capacity
  }

  /** The callbacks at indices `lo` up to `hi`. */
  function Window(r: Ring, lo: nat, hi: nat): (s: seq<Callback>)
    requires Shape(r) && lo <= hi
    ensures |s| == hi - lo
    ensures forall k :: 0 <= k < hi - lo ==> s[k] == r.callbacks[Slot(lo + k, r.capacity)]
    decreases hi
  {
    if lo == hi then []
    else Window(r, lo, hi - 1) + [r.callbacks[Slot(hi - 1, r.capacity)]]
  }

  /** The queue a ring at rest holds. */
  function Items(r: Ring): seq<Callback>
    requires Shape(r)
  {
    Window(r, r.readIdx, r.writeIdx)
  }

  ghost predicate AtRest(r: Ring) {
    && Shape(r)
    && forall i :: r.readIdx <= i < r.writeIdx ==> !r.executed[Slot(i, r.capacity)]
  }

  // ---- single stores ----

  function StoreCallback(r: Ring, w: nat, cb: Callback): Ring
    requires Shape(r)
  {
    r.(callbacks := r.callbacks[Slot(w, r.capacity) := cb])
  }

  function StoreExecuted(r: Ring, i: nat, flag: bool): Ring
    requires Shape(r)
  {
    r.(executed := r.executed[Slot(i, r.capacity) := flag])
  }

  /** All stores of a push that found room. */
  function Pushed(r: Ring, cb: Callback): Ring
    requires Shape(r)
  {
    StoreExecuted(StoreCallback(r, r.writeIdx, cb), r.writeIdx, false).(writeIdx := r.writeIdx + 1)
  }

  /** All stores of a consume. */
  function Consumed(r: Ring): Ring
    requires Shape(r)
  {
    StoreExecuted(r, r.readIdx, true).(readIdx := r.readIdx + 1)
  }

  /** The ring after growing; `rest` is the uninitialised part of the new allocation. */
  function Grown(r: Ring, rest: seq<Callback>): Ring
    requires Shape(r)
  {
    var n := r.writeIdx - r.readIdx;
    Ring(
      Items(r) + rest,
      Flags(r, r.readIdx, r.writeIdx) + seq(2 * r.capacity - n, _ => false),
      2 * r.capacity, 0, n)
  }

  function Flags(r: Ring, lo: nat, hi: nat): (s: seq<bool>)
    requires Shape(r) && lo <= hi
    ensures |s| == hi - lo
    ensures forall k :: 0 <= k < hi - lo ==> s[k] == r.executed[Slot(lo + k, r.capacity)]
    decreases hi
  {
    if lo == hi then []
    else Flags(r, lo, hi - 1) + [r.executed[Slot(hi - 1, r.capacity)]]
  }

  lemma IsGrown(r: Ring, callbacks: seq<Callback>, executed: seq<bool>)
    requires Shape(r)
    requires r.writeIdx - r.readIdx <= |callbacks|
    requires callbacks[..r.writeIdx - r.readIdx] == Items(r)
    requires executed ==
             Flags(r, r.readIdx, r.writeIdx) + seq(2 * r.capacity - (r.writeIdx - r.readIdx), _ => false)
    ensures Ring(callbacks, executed, 2 * r.capacity, 0, r.writeIdx - r.readIdx)
         == Grown(r, callbacks[r.writeIdx - r.readIdx..])
  {
    var n := r.writeIdx - r.readIdx;
    assert callbacks == callbacks[..n] + callbacks[n..];
  }

  /** The ring after a reset. */
  function Cleared(r: Ring): Ring
    requires Shape(r)
  {
    r.(executed := seq(r.capacity, _ => false), readIdx := 0, writeIdx := 0)
  }

  // ---- what a traversal visits ----

  /** The callbacks a traversal reaches: those in the window not marked executed. */
  function Live(r: Ring, lo: nat, hi: nat): seq<Callback>
    requires Shape(r) && lo <= hi
    decreases hi - lo
  {
    if lo == hi then []
    else
      var rest := Live(r, lo + 1, hi);
      if r.executed[Slot(lo, r.capacity)] then rest
      else [r.callbacks[Slot(lo, r.capacity)]] + rest
  }

  lemma {:induction false} LiveAtRest(r: Ring, lo: nat, hi: nat)
    requires Shape(r) && lo <= hi
    requires forall i :: lo <= i < hi ==> !r.executed[Slot(i, r.capacity)]
    ensures Live(r, lo, hi) == Window(r, lo, hi)
    decreases hi - lo
  {
    if lo < hi {
      LiveAtRest(r, lo + 1, hi);
      assert Window(r, lo, hi) == [r.callbacks[Slot(lo, r.capacity)]] + Window(r, lo + 1, hi);
    }
  }

  /** A window depends only on the slots inside it. */
  lemma WindowFrame(r: Ring, r': Ring, lo: nat, hi: nat)
    requires Shape(r) && Shape(r') && r.capacity == r'.capacity && lo <= hi
    requires forall i :: lo <= i < hi ==>
               r.callbacks[Slot(i, r.capacity)] == r'.callbacks[Slot(i, r.capacity)]
    ensures Window(r, lo, hi) == Window(r', lo, hi)
  {
  }

  /** Leaving out the first index of a window drops its first callback. */
  lemma WindowTail(r: Ring, r': Ring, lo: nat, hi: nat)
    requires Shape(r) && Shape(r') && r.capacity == r'.capacity && lo < hi
    requires r.callbacks == r'.callbacks
    ensures Window(r, lo, hi) == [r.callbacks[Slot(lo, r.capacity)]] + Window(r', lo + 1, hi)
  {
  }

  /** Extending a window by one index appends its callback. */
  lemma WindowGrows(r: Ring, r': Ring, lo: nat, hi: nat)
    requires Shape(r) && Shape(r') && r.capacity == r'.capacity && lo <= hi
    requires r.callbacks == r'.callbacks
    ensures Window(r', lo, hi + 1) == Window(r, lo, hi) + [r.callbacks[Slot(hi, r.capacity)]]
  {
  }

  lemma Pow2Doubles(c: nat)
    requires IsPow2(c)
    ensures IsPow2(2 * c)
  {
    var k: nat :| c == Pow2(k);
    assert 2 * c == Pow2(k + 1);
  }

  lemma ShapeHolds(r: Ring)
    requires IsPow2(r.capacity)
    requires |r.callbacks| == |r.executed| == r.capacity
    requires r.readIdx <= r.writeIdx <= r.readIdx + r.capacity
    ensures Shape(r)
  {
    forall i: nat ensures Slot(i, r.capacity) < r.capacity {
      SlotIsMod(i, r.capacity);
    }
  }

  lemma PushedQueue(r: Ring, cb: Callback)
    requires AtRest(r) && r.writeIdx - r.readIdx < r.capacity
    ensures AtRest(Pushed(r, cb)) && Items(Pushed(r, cb)) == Items(r) + [cb]
  {
    var r' := Pushed(r, cb);
    forall i | r.readIdx <= i < r.writeIdx
      ensures Slot(i, r.capacity) != Slot(r.writeIdx, r.capacity)
    {
      SlotsApart(i, r.writeIdx, r.capacity);
    }
    WindowFrame(r, r', r.readIdx, r.writeIdx);
  }

  lemma ConsumedQueue(r: Ring)
    requires AtRest(r) && r.readIdx < r.writeIdx
    ensures Items(r)[0] == r.callbacks[Slot(r.readIdx, r.capacity)]
    ensures AtRest(Consumed(r)) && Items(Consumed(r)) == Items(r)[1..]
  {
    forall i | r.readIdx < i < r.writeIdx
      ensures Slot(i, r.capacity) != Slot(r.readIdx, r.capacity)
    {
      SlotsApart(r.readIdx, i, r.capacity);
    }
  }

  /** Re-basing the indices to zero keeps the queue and its order. */
  lemma GrownQueue(r: Ring, rest: seq<Callback>)
    requires AtRest(r) && |rest| == 2 * r.capacity - (r.writeIdx - r.readIdx)
    ensures AtRest(Grown(r, rest)) && Items(Grown(r, rest)) == Items(r)
  {
    var r' := Grown(r, rest);
    var n := r.writeIdx - r.readIdx;
    Pow2Doubles(r.capacity);
    ShapeHolds(r');
    forall i | 0 <= i < n
      ensures Slot(i, r'.capacity) == i
    {
      SlotIsMod(i, r'.capacity);
      DivModUnique(i, r'.capacity, 0, i);
    }
  }
}
