// The ready-queue ring buffer: two arrays, a power-of-two capacity and two
// indices that only grow until the ring is reallocated or reset.

module RingBuffer {
  import opened Bits
  import opened Common
  import opened CallbackPayload
  import opened RingModel
  import opened QueueSpec

  /** What a traversal hands to the collector's visit function. */
  datatype Referent = Hook(userData: Object) | Module(obj: Object) | CallbackObject(obj: Object)

  function Referents(cb: Callback, mem: Memory): seq<Referent> {
    (if cb.data.Traverses(mem) then [Hook(cb.data.userData)] else []) +
    (match cb.data.ModulePtr(mem) case Some(o) => [Module(o)] case None => []) +
    (match cb.data.CallbackPtr(mem) case Some(o) => [CallbackObject(o)] case None => [])
  }

  /** What is visited for one callback, from its payload: in order, a hook if the payload
      has one, the module, the callable; nothing for an io completion or no payload. */
  lemma ReferentsExactly(cb: Callback, mem: Memory)
    requires Packed(cb.data.payload)
    ensures match Decode(cb.data.payload).body
            case Io(_, _) => Referents(cb, mem) == []
            case Python(None) => Referents(cb, mem) == []
            case Python(Some(ptr)) =>
              var visited, found := Referents(cb, mem), mem(ptr);
              && (Hook(cb.data.userData) in visited <==> found.traverses)
              && (forall o: Object :: Module(o) in visited <==> found.module_ == Some(o))
              && (forall o: Object :: CallbackObject(o) in visited <==> found.callback == Some(o))
              && (forall o: Object :: Hook(o) in visited ==> o == cb.data.userData)
              && (forall i, j :: 0 <= i < j < |visited| ==> Rank(visited[i]) < Rank(visited[j]))
  {
    AccessorsReadDecoded(cb.data, {});
    PayloadFieldsRead(cb.data, mem);
  }

  /** Hooks are visited first, then modules, then callables. */
  function Rank(r: Referent): nat {
    match r case Hook(_) => 0 case Module(_) => 1 case CallbackObject(_) => 2
  }

  function AllReferents(cbs: seq<Callback>, mem: Memory): seq<Referent> {
    if cbs == [] then [] else Referents(cbs[0], mem) + AllReferents(cbs[1..], mem)
  }

  /** What the collector answers to the n-th visit of a traversal. */
  type Visit = (nat, Referent) -> int

  /** The visits numbered from `first` on were all answered with zero. */
  ghost predicate Allowed(visited: seq<Referent>, visit: Visit, first: nat) {
    forall k :: 0 <= k < |visited| ==> visit(first + k, visited[k]) == 0
  }

  /** `visited`, numbered from `first` on, went through `all` in order until `visit` first
      answered non-zero. */
  ghost predicate StoppedAtFirstRefusal(
    visited: seq<Referent>, ret: int, all: seq<Referent>, visit: Visit, first: nat)
  {
    && visited <= all
    && if ret == 0 then visited == all && Allowed(visited, visit, first)
       else
         && visited != [] && Allowed(visited[..|visited| - 1], visit, first)
         && visit(first + |visited| - 1, visited[|visited| - 1]) == ret
  }

  /** Visits that all answered zero, continued by those of one more callback. */
  lemma StopExtends(visited: seq<Referent>, seen: seq<Referent>, ret: int,
                    here: seq<Referent>, rest: seq<Referent>, visit: Visit)
    requires Allowed(visited, visit, 0)
    requires StoppedAtFirstRefusal(seen, ret, here, visit, |visited|)
    ensures ret != 0 ==> StoppedAtFirstRefusal(visited + seen, ret, visited + (here + rest), visit, 0)
    ensures ret == 0 ==> visited + (here + rest) == (visited + seen) + rest
    ensures ret == 0 ==> Allowed(visited + seen, visit, 0)
  {
    if ret == 0 {
      AllowedOn(visited, seen, visit);
      Associate(visited, here, rest);
    } else {
      var last := seen[|seen| - 1];
      AllowedOn(visited, seen[..|seen| - 1], visit);
      assert (visited + seen)[..|visited + seen| - 1] == visited + seen[..|seen| - 1];
      assert visited + (here + rest) == (visited + seen) + (here[|seen|..] + rest);
    }
  }

  lemma AllowedOn(visited: seq<Referent>, seen: seq<Referent>, visit: Visit)
    requires Allowed(visited, visit, 0) && Allowed(seen, visit, |visited|)
    ensures Allowed(visited + seen, visit, 0)
  {
    forall k | 0 <= k < |visited + seen| ensures visit(k, (visited + seen)[k]) == 0 {
      if k >= |visited| {
        assert visit(|visited| + (k - |visited|), seen[k - |visited|]) == 0;
      }
    }
  }

  lemma LiveReferents(r: Ring, i: nat, w: nat, mem: Memory)
    requires Shape(r) && i < w
    ensures var rest := AllReferents(Live(r, i + 1, w), mem);
            AllReferents(Live(r, i, w), mem) ==
            if r.executed[Slot(i, r.capacity)] then rest
            else Referents(r.callbacks[Slot(i, r.capacity)], mem) + rest
  {
    var cb := r.callbacks[Slot(i, r.capacity)];
    assert ([cb] + Live(r, i + 1, w))[1..] == Live(r, i + 1, w);
  }

  /** One index of a traversal: what its callback adds to the visits made before it. */
  lemma TraverseIndex(r: Ring, i: nat, w: nat, mem: Memory, visited: seq<Referent>,
                      seen: seq<Referent>, ret: int, visit: Visit)
    requires Shape(r) && i < w
    requires Allowed(visited, visit, 0)
    requires if r.executed[Slot(i, r.capacity)] then ret == 0 && seen == []
             else StoppedAtFirstRefusal(
               seen, ret, Referents(r.callbacks[Slot(i, r.capacity)], mem), visit, |visited|)
    ensures ret != 0 ==>
              StoppedAtFirstRefusal(visited + seen, ret, visited + AllReferents(Live(r, i, w), mem), visit, 0)
    ensures ret == 0 ==>
              && visited + AllReferents(Live(r, i, w), mem)
                 == (visited + seen) + AllReferents(Live(r, i + 1, w), mem)
              && Allowed(visited + seen, visit, 0)
  {
    LiveReferents(r, i, w, mem);
    var next := AllReferents(Live(r, i + 1, w), mem);
    if r.executed[Slot(i, r.capacity)] {
      assert visited + seen == visited;
    } else {
      StopExtends(visited, seen, ret, Referents(r.callbacks[Slot(i, r.capacity)], mem), next, visit);
    }
  }

  class DynamicRingBuffer {
    var callbacks: array<Callback>
    var executed: array<bool>
    var capacity: nat
    var readIdx: nat
    var writeIdx: nat

    /** An uninitialised ring. */
    constructor ()
      ensures fresh(callbacks) && fresh(executed) && capacity == 0
    {
      callbacks := new Callback[0];
      executed := new bool[0];
      capacity, readIdx, writeIdx := 0, 0, 0;
    }

    ghost function Snapshot(): Ring
      reads this, callbacks, executed
    {
      Ring(callbacks[..], executed[..], capacity, readIdx, writeIdx)
    }

    ghost predicate Valid()
      reads this, callbacks, executed
    {
      AtRest(Snapshot())
    }

    /** The queue the ring implements. */
    ghost function Contents(): Queue
      requires Valid()
      reads this, callbacks, executed
    {
      Queue(Items(Snapshot()), capacity)
    }

    /** `first` and `second` tell whether the two allocations succeed. When only the second
        fails, its array is given back but `callbacks` still refers to it. */
    method Init(wanted: nat, first: bool, second: bool) returns (ok: bool)
      requires wanted <= MAX_WORD
      modifies this
      ensures ok <==> first && second && wanted <= TOP_BIT
      ensures ok ==> fresh(callbacks) && fresh(executed)
      ensures ok ==> Valid() && Contents().items == [] && wanted <= capacity
      ensures ok ==> forall k: nat :: wanted <= Pow2(k) ==> capacity <= Pow2(k)
      ensures !ok ==> unchanged(`executed) && unchanged(`capacity) && unchanged(`readIdx) && unchanged(`writeIdx)
      ensures !ok ==> if first && wanted <= TOP_BIT then fresh(callbacks) else unchanged(`callbacks)
    {
      var actual := CeilPowerOfTwo(wanted);
      if actual.TooLarge? || !first {
        return false;
      }
      callbacks := new Callback[actual.value];
      if !second {
        return false;
      }
      executed := new bool[actual.value](_ => false);
      capacity, readIdx, writeIdx := actual.value, 0, 0;
      ShapeHolds(Snapshot());
      return true;
    }

    predicate IsFull()
      reads this
    {
      writeIdx - readIdx == capacity
    }

    predicate IsEmpty()
      reads this
    {
      readIdx == writeIdx
    }

    /** `memory` tells whether both allocations succeed; neither field is touched before. */
    method Grow(memory: bool) returns (ok: bool)
      requires Valid()
      modifies this
      ensures ok == CanGrow(old(capacity), memory)
      ensures !ok ==> unchanged(this)
      ensures ok ==> fresh(callbacks) && fresh(executed)
      ensures ok ==> |Snapshot().callbacks| == 2 * old(capacity)
      ensures ok ==> Snapshot() == Grown(old(Snapshot()), callbacks[old(writeIdx - readIdx)..])
    {
      if capacity > MAX_WORD / 2 || !memory {
        return false;
      }
      ghost var r := Snapshot();
      var newCallbacks, newExecuted := NewArrays();
      IsGrown(r, newCallbacks[..], newExecuted[..]);
      callbacks, executed := newCallbacks, newExecuted;
      capacity, readIdx, writeIdx := 2 * capacity, 0, writeIdx - readIdx;
      return true;
    }

    /** The two allocations of `Grow`, filled. */
    method NewArrays() returns (newCallbacks: array<Callback>, newExecuted: array<bool>)
      requires Valid()
      ensures fresh(newCallbacks) && fresh(newExecuted)
      ensures newCallbacks.Length == newExecuted.Length == 2 * capacity
      ensures newCallbacks[..][..writeIdx - readIdx] == Items(Snapshot())
      ensures newExecuted[..] == Flags(Snapshot(), readIdx, writeIdx)
                               + seq(2 * capacity - (writeIdx - readIdx), _ => false)
    {
      newCallbacks := new Callback[2 * capacity];
      newExecuted := new bool[2 * capacity];
      CopyWindow(newCallbacks, newExecuted);
      ClearFrom(newExecuted, writeIdx - readIdx);
      assert newCallbacks[..][..writeIdx - readIdx] == newCallbacks[..writeIdx - readIdx];
    }

    /** The copying loop of `Grow`: the live slots move to the front. */
    method CopyWindow(newCallbacks: array<Callback>, newExecuted: array<bool>)
      requires Valid()
      requires newCallbacks != callbacks && newExecuted != executed
      requires newCallbacks.Length == newExecuted.Length == 2 * capacity
      modifies newCallbacks, newExecuted
      ensures newCallbacks[..writeIdx - readIdx] == Items(Snapshot())
      ensures newExecuted[..writeIdx - readIdx] == Flags(Snapshot(), readIdx, writeIdx)
    {
      ghost var items := Items(Snapshot());
      ghost var flags := Flags(Snapshot(), readIdx, writeIdx);
      var n := writeIdx - readIdx;
      var i, idx := 0, readIdx;
      while i < n
        invariant 0 <= i <= n && idx == readIdx + i
        invariant forall k :: 0 <= k < i ==> newCallbacks[k] == items[k] && newExecuted[k] == flags[k]
      {
        var oldIdx := Slot(idx, capacity);
        newCallbacks[i] := callbacks[oldIdx];
        newExecuted[i] := executed[oldIdx];
        i, idx := i + 1, idx + 1;
      }
    }

    /** The flags of the slots from `n` on are cleared. */
    static method ClearFrom(flags: array<bool>, n: nat)
      requires n <= flags.Length
      modifies flags
      ensures flags[..] == old(flags[..n]) + seq(flags.Length - n, _ => false)
    {
      var j := n;
      while j < flags.Length
        invariant n <= j <= flags.Length
        invariant flags[..n] == old(flags[..n])
        invariant forall k :: n <= k < j ==> !flags[k]
      {
        flags[j] := false;
        j := j + 1;
      }
    }

    method TryPush(cb: Callback) returns (ok: bool)
      requires Valid()
      modifies this`writeIdx, callbacks, executed
      ensures ok == !old(IsFull())
      ensures Snapshot() == if ok then Pushed(old(Snapshot()), cb) else old(Snapshot())
      ensures Valid() && (Contents(), Tried(ok)) == Apply(old(Contents()), QueueSpec.TryPush(cb))
      ensures Contents().items == old(Contents()).items + if ok then [cb] else []
      ensures Contents().capacity == old(capacity)
    {
      var w := writeIdx;
      var r := readIdx;
      if w - r == capacity {
        return false;
      }
      PushedQueue(Snapshot(), cb);
      var idx := Slot(w, capacity);
      callbacks[idx] := cb;
      executed[idx] := false;
      writeIdx := w + 1;
      return true;
    }

    method Push(cb: Callback) returns (result: PushResult)
      requires Valid()
      modifies this`writeIdx, callbacks, executed
      ensures Valid() && (Contents(), Result(result)) == Apply(old(Contents()), QueueSpec.Push(cb))
      ensures result == if old(IsFull()) then RingBufferOverflow else Stored
      ensures Contents().items == old(Contents()).items + if result.Stored? then [cb] else []
      ensures Contents().capacity == old(capacity)
    {
      var ok := TryPush(cb);
      return if ok then Stored else RingBufferOverflow;
    }

    method PushOrGrow(cb: Callback, memory: bool) returns (result: PushResult)
      requires Valid()
      modifies this, callbacks, executed
      ensures callbacks == old(callbacks) || fresh(callbacks)
      ensures executed == old(executed) || fresh(executed)
      ensures Valid()
      ensures (Contents(), Result(result)) == Apply(old(Contents()), QueueSpec.PushOrGrow(cb, memory))
      ensures result.Stored? <==> !old(IsFull()) || (memory && old(capacity) <= MAX_WORD / 2)
      ensures result.Stored? ==>
                && Contents().items == old(Contents()).items + [cb]
                && capacity == if old(IsFull()) then 2 * old(capacity) else old(capacity)
      ensures !result.Stored? ==> result.OutOfMemory? && unchanged(this) && Contents() == old(Contents())
    {
      var ok := TryPush(cb);
      if !ok {
        ghost var q, r := Contents(), Snapshot();
        var grown := Grow(memory);
        if !grown {
          return OutOfMemory;
        }
        GrownQueue(r, callbacks[r.writeIdx - r.readIdx..]);
        ok := TryPush(cb);
        if !ok {
          return RingBufferOverflow;
        }
      }
      return Stored;
    }

    /** The callback at the head of the ring, if any. */
    method Next() returns (cb: Option<Callback>)
      requires Valid()
      ensures cb == Head(Contents())
      ensures cb.None? <==> Contents().items == []
      ensures cb.Some? ==> cb.value == Contents().items[0]
    {
      var r := readIdx;
      var w := writeIdx;
      if r == w {
        return None;
      }
      return Some(callbacks[Slot(r, capacity)]);
    }

    method Consume()
      requires Valid() && !IsEmpty()
      modifies this`readIdx, executed
      ensures Snapshot() == Consumed(old(Snapshot()))
      ensures Valid() && Contents() == Apply(old(Contents()), Take).0
      ensures Contents().items == old(Contents()).items[1..] && Contents().capacity == old(capacity)
    {
      ConsumedQueue(Snapshot());
      var r := readIdx;
      executed[Slot(r, capacity)] := true;
      readIdx := r + 1;
    }

    method Reset()
      requires Valid()
      modifies this`readIdx, this`writeIdx, executed
      ensures Snapshot() == Cleared(old(Snapshot()))
      ensures Valid() && Contents() == Apply(old(Contents()), QueueSpec.Reset).0
      ensures Contents().items == [] && Contents().capacity == old(capacity)
    {
      ClearFrom(executed, 0);
      readIdx := 0;
      writeIdx := 0;
      ShapeHolds(Snapshot());
    }

    /** Needs the ring's shape only, so that it may run in the middle of a push or a
        consume: it visits what every callback not marked executed refers to. */
    method Traverse(visit: Visit, mem: Memory) returns (ret: int, visited: seq<Referent>)
      requires Shape(Snapshot())
      ensures StoppedAtFirstRefusal(
                visited, ret, AllReferents(Live(Snapshot(), readIdx, writeIdx), mem), visit, 0)
    {
      var r := readIdx;
      var w := writeIdx;
      ghost var ring := Snapshot();
      ghost var all := AllReferents(Live(ring, r, w), mem);
      visited := [];
      var i := r;
      while i < w
        invariant r <= i <= w
        invariant all == visited + AllReferents(Live(ring, i, w), mem)
        invariant Allowed(visited, visit, 0)
      {
        ret, visited := VisitIndex(i, w, visited, visit, mem);
        if ret != 0 {
          return;
        }
        i := i + 1;
      }
      return 0, visited;
    }

    /** The traversal of one index, after the visits `before`. */
    method VisitIndex(i: nat, ghost w: nat, before: seq<Referent>, visit: Visit, mem: Memory)
      returns (ret: int, visited: seq<Referent>)
      requires Shape(Snapshot()) && i < w
      requires Allowed(before, visit, 0)
      ensures ret != 0 ==>
                StoppedAtFirstRefusal(visited, ret, before + AllReferents(Live(Snapshot(), i, w), mem), visit, 0)
      ensures ret == 0 ==>
                && before + AllReferents(Live(Snapshot(), i, w), mem)
                   == visited + AllReferents(Live(Snapshot(), i + 1, w), mem)
                && Allowed(visited, visit, 0)
    {
      var idx := Slot(i, capacity);
      var seen;
      ret, seen := 0, [];
      if !executed[idx] {
        ret, seen := VisitCallback(callbacks[idx], visit, |before|, mem);
      }
      TraverseIndex(Snapshot(), i, w, mem, before, seen, ret, visit);
      visited := before + seen;
    }

    /** The visits of one callback, numbered from `first` on. */
    static method VisitCallback(callback: Callback, visit: Visit, first: nat, mem: Memory)
      returns (ret: int, seen: seq<Referent>)
      ensures StoppedAtFirstRefusal(seen, ret, Referents(callback, mem), visit, first)
    {
      ret, seen := 0, [];
      if callback.data.Traverses(mem) {
        ret, seen := VisitObject(Hook(callback.data.userData), seen, visit, first);
        if ret != 0 { return; }
      }
      var module_ := callback.data.ModulePtr(mem);
      if module_.Some? {
        ret, seen := VisitObject(Module(module_.value), seen, visit, first);
        if ret != 0 { return; }
      }
      var object_ := callback.data.CallbackPtr(mem);
      if object_.Some? {
        ret, seen := VisitObject(CallbackObject(object_.value), seen, visit, first);
      }
    }

    /** One more visit, after those of the same callback. */
    static method VisitObject(x: Referent, before: seq<Referent>, visit: Visit, first: nat)
      returns (ret: int, seen: seq<Referent>)
      requires Allowed(before, visit, first)
      ensures seen == before + [x]
      ensures forall all :: seen <= all && (ret != 0 || seen == all) ==>
                StoppedAtFirstRefusal(seen, ret, all, visit, first)
      ensures ret == 0 ==> Allowed(seen, visit, first)
    {
      ret := visit(first + |before|, x);
      seen := before + [x];
      assert seen[..|before|] == before;
    }

    /** Carries out one operation; taking is `Next` followed by `Consume`. */
    method Perform(op: Op) returns (answer: Answer)
      requires Valid()
      modifies this, callbacks, executed
      ensures callbacks == old(callbacks) || fresh(callbacks)
      ensures executed == old(executed) || fresh(executed)
      ensures Valid() && (Contents(), answer) == Apply(old(Contents()), op)
    {
      match op {
        case TryPush(cb) =>
          var ok := TryPush(cb);
          answer := Tried(ok);
        case Push(cb) =>
          var result := Push(cb);
          answer := Result(result);
        case PushOrGrow(cb, memory) =>
          var result := PushOrGrow(cb, memory);
          answer := Result(result);
        case Next =>
          var head := Next();
          answer := Front(head);
        case Take =>
          var head := Next();
          if head.Some? {
            Consume();
          }
          answer := Front(head);
        case Reset =>
          Reset();
          answer := Done;
      }
    }

    /** Any run of operations: the ring answers and ends as the queue does. */
    method Run(ops: seq<Op>) returns (answers: seq<Answer>)
      requires Valid()
      modifies this, callbacks, executed
      ensures callbacks == old(callbacks) || fresh(callbacks)
      ensures executed == old(executed) || fresh(executed)
      ensures Valid()
      ensures answers == Answers(old(Contents()), ops)
      ensures Contents() == After(old(Contents()), ops)
    {
      answers := [];
      ghost var q := Contents();
      for k := 0 to |ops|
        invariant Valid()
        invariant callbacks == old(callbacks) || fresh(callbacks)
        invariant executed == old(executed) || fresh(executed)
        invariant answers == Answers(q, ops[..k])
        invariant Contents() == After(q, ops[..k])
      {
        assert ops[..k + 1][..k] == ops[..k];
        var answer := Perform(ops[k]);
        answers := answers + [answer];
      }
      assert ops[..|ops|] == ops;
    }
  }
}
