// What a ready queue is for its callers: a first-in first-out sequence with a
// capacity that doubles.

module QueueSpec {
  import opened Bits
  import opened Common
  import opened RingModel

  datatype Queue = Queue(items: seq<Callback>, capacity: nat)

  /** `memory` tells whether the allocator satisfies a request to grow. */
  datatype Op =
    | TryPush(cb: Callback)
    | Push(cb: Callback)
    | PushOrGrow(cb: Callback, memory: bool)
    | Next
    | Take
    | Reset

  datatype PushResult = Stored | RingBufferOverflow | OutOfMemory

  datatype Answer =
    | Tried(ok: bool)
    | Result(pushed: PushResult)
    | Front(cb: Option<Callback>)
    | Done

  predicate CanGrow(capacity: nat, memory: bool) {
    memory && capacity <= MAX_WORD / 2
  }

  function Enqueue(q: Queue, cb: Callback): Queue {
    q.(items := q.items + [cb])
  }

  function Head(q: Queue): Option<Callback> {
    if q.items == [] then None else Some(q.items[0])
  }

  function Apply(q: Queue, op: Op): (Queue, Answer) {
    var full := |q.items| == q.capacity;
    match op
    case TryPush(cb) => (if full then q else Enqueue(q, cb), Tried(!full))
    case Push(cb) =>
      if full then (q, Result(RingBufferOverflow)) else (Enqueue(q, cb), Result(Stored))
    case PushOrGrow(cb, memory) =>
      if !full then (Enqueue(q, cb), Result(Stored))
      else if CanGrow(q.capacity, memory) then
        (Enqueue(q.(capacity := 2 * q.capacity), cb), Result(Stored))
      else (q, Result(OutOfMemory))
    case Next => (q, Front(Head(q)))
    case Take => (if q.items == [] then q else q.(items := q.items[1..]), Front(Head(q)))
    case Reset => (q.(items := []), Done)
  }

  /** The queue after `ops`. */
  function After(q: Queue, ops: seq<Op>): Queue {
    if ops == [] then q
    else Apply(After(q, ops[..|ops| - 1]), ops[|ops| - 1]).0
  }

  /** The answers to `ops`, in order. */
  function Answers(q: Queue, ops: seq<Op>): seq<Answer> {
    if ops == [] then []
    else
      var before := ops[..|ops| - 1];
      Answers(q, before) + [Apply(After(q, before), ops[|ops| - 1]).1]
  }

  lemma {:induction false} AfterConcat(q: Queue, a: seq<Op>, b: seq<Op>)
    ensures After(q, a + b) == After(After(q, a), b)
    decreases |b|
  {
    if b == [] {
      assert a + b == a;
    } else {
      var before := b[..|b| - 1];
      AfterConcat(q, a, before);
      assert (a + b)[..|a + b| - 1] == a + before;
    }
  }

  // ---- first in, first out ----

  function Accepted(q: Queue, ops: seq<Op>): seq<Callback> {
    if ops == [] then []
    else
      var before := ops[..|ops| - 1];
      Accepted(q, before) + StoredBy(After(q, before), ops[|ops| - 1])
  }

  function StoredBy(q: Queue, op: Op): seq<Callback> {
    var (q', answer) := Apply(q, op);
    match op
    case TryPush(cb) => if answer.ok then [cb] else []
    case Push(cb) => if answer.pushed.Stored? then [cb] else []
    case PushOrGrow(cb, _) => if answer.pushed.Stored? then [cb] else []
    case _ => []
  }

  function Taken(q: Queue, ops: seq<Op>): seq<Callback> {
    if ops == [] then []
    else
      var before := ops[..|ops| - 1];
      Taken(q, before) + TakenBy(After(q, before), ops[|ops| - 1])
  }

  function TakenBy(q: Queue, op: Op): seq<Callback> {
    if op.Take? && q.items != [] then [q.items[0]] else []
  }

  lemma OneStepConserves(q: Queue, op: Op)
    requires !op.Reset?
    ensures q.items + StoredBy(q, op) == TakenBy(q, op) + Apply(q, op).0.items
  {
  }

  predicate NoReset(ops: seq<Op>) {
    forall k :: 0 <= k < |ops| ==> !ops[k].Reset?
  }

  /** Nothing is lost, duplicated or reordered between the pushes that succeeded and the takes. */
  lemma {:induction false} FirstInFirstOut(q: Queue, ops: seq<Op>)
    requires NoReset(ops)
    ensures q.items + Accepted(q, ops) == Taken(q, ops) + After(q, ops).items
  {
    if ops != [] {
      var before, op := ops[..|ops| - 1], ops[|ops| - 1];
      FirstInFirstOut(q, before);
      var now := After(q, before);
      var stored := StoredBy(now, op);
      assert !op.Reset?;
      var out := TakenBy(now, op);
      OneStepConserves(now, op);
      Regroup(q.items, Accepted(q, before), stored, Taken(q, before), now.items,
              out, Apply(now, op).0.items);
    }
  }

  lemma Regroup<T>(a: seq<T>, b: seq<T>, s: seq<T>, t: seq<T>, n: seq<T>, o: seq<T>, r: seq<T>)
    requires a + b == t + n && n + s == o + r
    ensures a + (b + s) == (t + o) + r
  {
    Associate(a, b, s);
    Associate(t, n, s);
    Associate(t, o, r);
  }

  // ---- what is accepted ----

  /** Pushes that may grow the ring, with memory to be had. */
  function PushAll(cbs: seq<Callback>): (ops: seq<Op>)
    ensures |ops| == |cbs|
    ensures forall k :: 0 <= k < |ops| ==> ops[k] == PushOrGrow(cbs[k], true)
  {
    seq(|cbs|, k requires 0 <= k < |cbs| => PushOrGrow(cbs[k], true))
  }

  /** No such push is refused before half the address space is queued: the queue then holds
      what it held, followed by everything pushed. */
  lemma {:induction false} EveryPushStored(q: Queue, cbs: seq<Callback>)
    requires |q.items| + |cbs| <= MAX_WORD / 2 + 1
    ensures Accepted(q, PushAll(cbs)) == cbs
    ensures After(q, PushAll(cbs)).items == q.items + cbs
    ensures Answers(q, PushAll(cbs)) == seq(|cbs|, _ => Result(Stored))
  {
    if cbs == [] {
      assert q.items + cbs == q.items;
    } else {
      var before, cb := cbs[..|cbs| - 1], cbs[|cbs| - 1];
      EveryPushStored(q, before);
      LastPush(q, before, cb);
      OnePushStored(After(q, PushAll(before)), cb);
      assert before + [cb] == cbs;
      Associate(q.items, before, [cb]);
      assert Answers(q, PushAll(cbs)) == Answers(q, PushAll(before)) + [Result(Stored)];
    }
  }

  lemma OnePushStored(q: Queue, cb: Callback)
    requires |q.items| <= MAX_WORD / 2
    ensures Apply(q, PushOrGrow(cb, true)).1 == Result(Stored)
    ensures Apply(q, PushOrGrow(cb, true)).0.items == q.items + [cb]
    ensures StoredBy(q, PushOrGrow(cb, true)) == [cb]
  {
  }

  lemma LastPush(q: Queue, before: seq<Callback>, cb: Callback)
    ensures var ops, now, op := PushAll(before + [cb]), After(q, PushAll(before)), PushOrGrow(cb, true);
            && After(q, ops) == Apply(now, op).0
            && Accepted(q, ops) == Accepted(q, PushAll(before)) + StoredBy(now, op)
            && Answers(q, ops) == Answers(q, PushAll(before)) + [Apply(now, op).1]
  {
    var ops := PushAll(before + [cb]);
    assert ops[..|ops| - 1] == PushAll(before);
  }

  // ---- what growing costs ----

  /** Slots copied by the grow steps of a run: a grow happens when the queue is full. */
  function Copied(q: Queue, ops: seq<Op>): nat {
    if ops == [] then 0
    else
      var now := After(q, ops[..|ops| - 1]);
      Copied(q, ops[..|ops| - 1]) +
      if Apply(now, ops[|ops| - 1]).0.capacity != now.capacity then |now.items| else 0
  }

  /** The largest number of callbacks queued at once. */
  function Peak(q: Queue, ops: seq<Op>): nat {
    if ops == [] then |q.items|
    else
      var before := Peak(q, ops[..|ops| - 1]);
      if before < |After(q, ops).items| then |After(q, ops).items| else before
  }

  /** Over a run from an empty queue the grow steps copy at most twice as many slots
      as there were pushes, and the capacity stays within its initial value or twice
      the peak number of callbacks. */
  lemma {:induction false} GrowthIsBounded(q: Queue, ops: seq<Op>)
    requires q.items == []
    ensures After(q, ops).capacity == q.capacity + Copied(q, ops)
    ensures After(q, ops).capacity == q.capacity || After(q, ops).capacity <= 2 * Peak(q, ops)
    ensures |After(q, ops).items| <= Peak(q, ops) <= |Accepted(q, ops)|
    ensures |After(q, ops).items| <= |Accepted(q, ops)|
    ensures Copied(q, ops) <= 2 * |Accepted(q, ops)|
  {
    if ops != [] {
      var before, op := ops[..|ops| - 1], ops[|ops| - 1];
      GrowthIsBounded(q, before);
      OneStepGrowth(After(q, before), op);
    }
  }

  lemma OneStepGrowth(q: Queue, op: Op)
    ensures var q' := Apply(q, op).0;
            && q'.capacity == q.capacity + (if q'.capacity != q.capacity then |q.items| else 0)
            && (q'.capacity != q.capacity ==> |q'.items| == |q.items| + 1)
            && |q'.items| <= |q.items| + |StoredBy(q, op)|
  {
  }

  /** The capacity stays a power of two, and no operation overfills it. */
  lemma {:induction false} CapacityStaysPow2(q: Queue, ops: seq<Op>)
    requires IsPow2(q.capacity) && |q.items| <= q.capacity
    ensures IsPow2(After(q, ops).capacity) && |After(q, ops).items| <= After(q, ops).capacity
    ensures After(q, ops).capacity >= q.capacity
  {
    if ops != [] {
      var before := ops[..|ops| - 1];
      CapacityStaysPow2(q, before);
      Pow2Doubles(After(q, before).capacity);
    }
  }
}
