// One writer and one reader share a ring. Their operations are cut into single
// loads and stores, interleaved arbitrarily, and a garbage collector may stop
// both between any two of them and traverse the ring.

module StopTheWorld {
  import opened RingModel

  /** How far a push has come; `w` is the write index it loaded. */
  datatype Writer =
    | Idle
    | LoadedWrite(cb: Callback, w: nat)
    | FoundRoom(cb: Callback, w: nat)
    | StoredCallback(cb: Callback, w: nat)
    | ClearedFlag(cb: Callback, w: nat)

  /** How far `next` followed by `consume` has come; `r` is the read index loaded. */
  datatype Reader =
    | Resting
    | LoadedRead(r: nat)
    | FoundItem(r: nat)
    | Copied(r: nat, cb: Callback)
    | MarkedExecuted(r: nat)

  /** `queue` changes at the publishing store of a push and at the flag store of a
      consume; `pushed` and `taken` are what went in and out since the last reset. */
  datatype System = System(
    ring: Ring, writer: Writer, reader: Reader,
    queue: seq<Callback>, pushed: seq<Callback>, taken: seq<Callback>)

  datatype Action =
    | BeginPush(cb: Callback)
    | CheckRoom
    | StoreSlot
    | ClearFlag
    | Publish
    | BeginTake
    | CheckItem
    | Copy
    | Mark
    | Advance
    | Grow(rest: seq<Callback>)
    | Reset

  ghost predicate Enabled(s: System, a: Action) {
    match a
    case BeginPush(_) => s.writer.Idle?
    case CheckRoom => s.writer.LoadedWrite?
    case StoreSlot => s.writer.FoundRoom?
    case ClearFlag => s.writer.StoredCallback?
    case Publish => s.writer.ClearedFlag?
    case BeginTake => s.reader.Resting?
    case CheckItem => s.reader.LoadedRead?
    case Copy => s.reader.FoundItem?
    case Mark => s.reader.Copied?
    case Advance => s.reader.MarkedExecuted?
    case Grow(rest) =>
      s.writer.Idle? && s.reader.Resting? && |rest| == 2 * s.ring.capacity - Count(s.ring)
    case Reset => s.writer.Idle? && s.reader.Resting?
  }

  function Count(r: Ring): int {
    r.writeIdx - r.readIdx
  }

  function Tail(q: seq<Callback>): seq<Callback> {
    if q == [] then [] else q[1..]
  }

  /** One load or store; `grow` and `reset` are single steps. */
  ghost function Step(s: System, a: Action): System
    requires Shape(s.ring) && Enabled(s, a)
  {
    var ring := s.ring;
    match a
    case BeginPush(cb) => s.(writer := LoadedWrite(cb, ring.writeIdx))
    case CheckRoom =>
      if s.writer.w - ring.readIdx == ring.capacity then s.(writer := Idle)
      else s.(writer := FoundRoom(s.writer.cb, s.writer.w))
    case StoreSlot =>
      s.(ring := StoreCallback(ring, s.writer.w, s.writer.cb),
         writer := StoredCallback(s.writer.cb, s.writer.w))
    case ClearFlag =>
      s.(ring := StoreExecuted(ring, s.writer.w, false),
         writer := ClearedFlag(s.writer.cb, s.writer.w))
    case Publish =>
      s.(ring := ring.(writeIdx := s.writer.w + 1), writer := Idle,
         queue := s.queue + [s.writer.cb], pushed := s.pushed + [s.writer.cb])
    case BeginTake => s.(reader := LoadedRead(ring.readIdx))
    case CheckItem =>
      if s.reader.r == ring.writeIdx then s.(reader := Resting)
      else s.(reader := FoundItem(s.reader.r))
    case Copy => s.(reader := Copied(s.reader.r, ring.callbacks[Slot(s.reader.r, ring.capacity)]))
    case Mark =>
      s.(ring := StoreExecuted(ring, s.reader.r, true), reader := MarkedExecuted(s.reader.r),
         queue := Tail(s.queue), taken := s.taken + [s.reader.cb])
    case Advance => s.(ring := ring.(readIdx := s.reader.r + 1), reader := Resting)
    case Grow(rest) => s.(ring := Grown(ring, rest))
    case Reset => s.(ring := Cleared(ring), queue := [], pushed := [], taken := [])
  }

  ghost predicate WriterHolds(s: System)
    requires Shape(s.ring)
  {
    match s.writer
    case Idle => true
    case LoadedWrite(cb, w) => w == s.ring.writeIdx
    case FoundRoom(cb, w) => w == s.ring.writeIdx && w - s.ring.readIdx < s.ring.capacity
    case StoredCallback(cb, w) =>
      && w == s.ring.writeIdx && w - s.ring.readIdx < s.ring.capacity
      && s.ring.callbacks[Slot(w, s.ring.capacity)] == cb
    case ClearedFlag(cb, w) =>
      && w == s.ring.writeIdx && w - s.ring.readIdx < s.ring.capacity
      && s.ring.callbacks[Slot(w, s.ring.capacity)] == cb
      && !s.ring.executed[Slot(w, s.ring.capacity)]
  }

  ghost predicate ReaderHolds(s: System)
    requires Shape(s.ring)
  {
    match s.reader
    case Resting => true
    case LoadedRead(r) => r == s.ring.readIdx
    case FoundItem(r) => r == s.ring.readIdx < s.ring.writeIdx
    case Copied(r, cb) =>
      r == s.ring.readIdx < s.ring.writeIdx && s.ring.callbacks[Slot(r, s.ring.capacity)] == cb
    case MarkedExecuted(r) => r == s.ring.readIdx < s.ring.writeIdx
  }

  /** The first index whose callback is still queued. */
  function Head(s: System): nat {
    if s.reader.MarkedExecuted? then s.ring.readIdx + 1 else s.ring.readIdx
  }

  /** Every slot in the window has its flag clear, except the one being consumed. */
  ghost predicate FlagsHold(s: System)
    requires Shape(s.ring)
  {
    forall i :: s.ring.readIdx <= i < s.ring.writeIdx ==>
      s.ring.executed[Slot(i, s.ring.capacity)] == (i < Head(s))
  }

  ghost predicate Inv(s: System) {
    && Shape(s.ring)
    && WriterHolds(s) && ReaderHolds(s)
    && FlagsHold(s)
    && Head(s) <= s.ring.writeIdx
    && s.queue == Window(s.ring, Head(s), s.ring.writeIdx)
    && s.pushed == s.taken + s.queue
  }

  lemma WindowApart(s: System, j: nat)
    requires Shape(s.ring)
    requires s.ring.readIdx <= j <= s.ring.writeIdx
    requires j == s.ring.writeIdx ==> j - s.ring.readIdx < s.ring.capacity
    ensures forall i :: s.ring.readIdx <= i < s.ring.writeIdx && i != j ==>
              Slot(i, s.ring.capacity) != Slot(j, s.ring.capacity)
  {
    forall i | s.ring.readIdx <= i < s.ring.writeIdx && i != j
      ensures Slot(i, s.ring.capacity) != Slot(j, s.ring.capacity)
    {
      if i < j {
        SlotsApart(i, j, s.ring.capacity);
      } else {
        SlotsApart(j, i, s.ring.capacity);
      }
    }
  }

  /** Every load and store of either thread keeps the invariant; a take marks the
      oldest callback of the queue, which is the one it copied. */
  lemma StepKeepsInv(s: System, a: Action)
    requires Inv(s) && Enabled(s, a)
    ensures a.Mark? ==> s.queue != [] && s.reader.cb == s.queue[0]
    ensures Inv(Step(s, a))
  {
    match a
    case StoreSlot => StoreSlotKeepsInv(s);
    case ClearFlag => ClearFlagKeepsInv(s);
    case Publish => PublishKeepsInv(s);
    case Mark => MarkKeepsInv(s);
    case Advance => AdvanceKeepsInv(s);
    case Grow(rest) => GrowKeepsInv(s, rest);
    case Reset => ResetKeepsInv(s);
    case _ => LoadKeepsInv(s, a);
  }

  /** Loads change nothing in the ring. */
  lemma LoadKeepsInv(s: System, a: Action)
    requires Inv(s) && Enabled(s, a)
    requires a.BeginPush? || a.CheckRoom? || a.BeginTake? || a.CheckItem? || a.Copy?
    ensures Inv(Step(s, a))
  {
    assert Step(s, a).ring == s.ring && Head(Step(s, a)) == Head(s);
  }

  lemma ResetKeepsInv(s: System)
    requires Inv(s) && Enabled(s, Reset)
    ensures Inv(Step(s, Reset))
  {
    ShapeHolds(Cleared(s.ring));
  }

  lemma StoreSlotKeepsInv(s: System)
    requires Inv(s) && s.writer.FoundRoom?
    ensures Inv(Step(s, StoreSlot))
  {
    WindowApart(s, s.writer.w);
    WindowFrame(s.ring, Step(s, StoreSlot).ring, Head(s), s.ring.writeIdx);
  }

  lemma ClearFlagKeepsInv(s: System)
    requires Inv(s) && s.writer.StoredCallback?
    ensures Inv(Step(s, ClearFlag))
  {
    WindowApart(s, s.writer.w);
    WindowFrame(s.ring, Step(s, ClearFlag).ring, Head(s), s.ring.writeIdx);
  }

  lemma PublishKeepsInv(s: System)
    requires Inv(s) && s.writer.ClearedFlag?
    ensures Inv(Step(s, Publish))
  {
    QueueAfterPublish(s);
    assert FlagsHold(Step(s, Publish));
  }

  lemma QueueAfterPublish(s: System)
    requires Inv(s) && s.writer.ClearedFlag?
    ensures var s' := Step(s, Publish);
            && Shape(s'.ring)
            && s'.queue == Window(s'.ring, Head(s'), s'.ring.writeIdx)
            && s'.pushed == s'.taken + s'.queue
  {
    WindowGrows(s.ring, Step(s, Publish).ring, Head(s), s.ring.writeIdx);
  }

  lemma MarkKeepsInv(s: System)
    requires Inv(s) && s.reader.Copied?
    ensures s.queue != [] && s.reader.cb == s.queue[0]
    ensures Inv(Step(s, Mark))
  {
    QueueAfterMark(s);
    FlagsAfterMark(s);
    WriterAfterMark(s);
  }

  lemma QueueAfterMark(s: System)
    requires Inv(s) && s.reader.Copied?
    ensures s.queue != [] && s.reader.cb == s.queue[0]
    ensures var s' := Step(s, Mark);
            && Shape(s'.ring) && Head(s') <= s'.ring.writeIdx
            && s'.queue == Window(s'.ring, Head(s'), s'.ring.writeIdx)
            && s'.pushed == s'.taken + s'.queue
  {
    var s' := Step(s, Mark);
    assert s'.ring.callbacks == s.ring.callbacks;
    WindowTail(s.ring, s'.ring, s.ring.readIdx, s.ring.writeIdx);
    MoveHead(s.taken, s.reader.cb, s.queue);
  }

  lemma MoveHead(taken: seq<Callback>, cb: Callback, queue: seq<Callback>)
    requires queue != [] && queue[0] == cb
    ensures (taken + [cb]) + Tail(queue) == taken + queue
  {
  }

  lemma WriterAfterMark(s: System)
    requires Inv(s) && s.reader.Copied?
    ensures Shape(Step(s, Mark).ring) && WriterHolds(Step(s, Mark))
  {
    if s.writer.ClearedFlag? {
      SlotsApart(s.ring.readIdx, s.writer.w, s.ring.capacity);
    }
  }

  lemma FlagsAfterMark(s: System)
    requires Inv(s) && s.reader.Copied?
    ensures Shape(Step(s, Mark).ring) && FlagsHold(Step(s, Mark))
  {
    WindowApart(s, s.reader.r);
  }

  lemma AdvanceKeepsInv(s: System)
    requires Inv(s) && s.reader.MarkedExecuted?
    ensures Inv(Step(s, Advance))
  {
    WindowFrame(s.ring, Step(s, Advance).ring, Head(s), s.ring.writeIdx);
  }

  lemma GrowKeepsInv(s: System, rest: seq<Callback>)
    requires Inv(s) && Enabled(s, Grow(rest))
    ensures Inv(Step(s, Grow(rest)))
  {
    GrownQueue(s.ring, rest);
  }

  /** A stopped ring shows the traversal exactly the queue. */
  lemma TraversalSeesQueue(s: System)
    requires Inv(s)
    ensures Live(s.ring, s.ring.readIdx, s.ring.writeIdx) == s.queue
  {
    LiveAtRest(s.ring, Head(s), s.ring.writeIdx);
  }

  /** A push that finds room is these five loads and stores, taken with nothing between. */
  lemma PushIsItsStores(s: System, cb: Callback)
    requires Inv(s) && s.writer.Idle? && Count(s.ring) < s.ring.capacity
    ensures var s1 := Step(s, BeginPush(cb));
            var s2 := Step(s1, CheckRoom);
            var s3 := Step(s2, StoreSlot);
            var s4 := Step(s3, ClearFlag);
            var s5 := Step(s4, Publish);
            s5.ring == Pushed(s.ring, cb) && s5.queue == s.queue + [cb] && s5.writer.Idle?
  {
  }

  /** Taking the head is these five. */
  lemma TakeIsItsStores(s: System)
    requires Inv(s) && s.reader.Resting? && Count(s.ring) > 0
    ensures var s1 := Step(s, BeginTake);
            var s2 := Step(s1, CheckItem);
            var s3 := Step(s2, Copy);
            var s4 := Step(s3, Mark);
            var s5 := Step(s4, Advance);
            s5.ring == Consumed(s.ring) && s5.reader.Resting? && s.queue == [s3.reader.cb] + s5.queue
  {
    var r := s.ring.readIdx;
    HeadIsCopied(s);
    assert Step(Step(Step(s, BeginTake), CheckItem), Copy)
        == s.(reader := Copied(r, s.ring.callbacks[Slot(r, s.ring.capacity)]));
  }

  lemma HeadIsCopied(s: System)
    requires Inv(s) && s.reader.Resting? && Count(s.ring) > 0
    ensures s.queue == [s.ring.callbacks[Slot(s.ring.readIdx, s.ring.capacity)]] + Tail(s.queue)
  {
    WindowTail(s.ring, s.ring, s.ring.readIdx, s.ring.writeIdx);
  }

  // ---- whole runs ----

  ghost predicate Initial(s: System) {
    && Shape(s.ring) && s.ring.readIdx == s.ring.writeIdx == 0
    && s.writer.Idle? && s.reader.Resting?
    && s.queue == s.pushed == s.taken == []
  }

  /** `run` starts in an initial state and takes the steps `actions`. */
  ghost predicate IsRun(run: seq<System>, actions: seq<Action>) {
    && |run| == |actions| + 1
    && Initial(run[0])
    && forall k :: 0 <= k < |actions| ==> IsStep(run[k], actions[k], run[k + 1])
  }

  /** The shape a step relies on always holds, by `StepKeepsInv`, so it bars no run. */
  ghost predicate IsStep(s: System, a: Action, s': System) {
    Shape(s.ring) && Enabled(s, a) && s' == Step(s, a)
  }

  lemma {:induction false} RunKeepsInv(run: seq<System>, actions: seq<Action>, k: nat)
    requires IsRun(run, actions) && k < |run|
    ensures Inv(run[k])
    decreases k
  {
    if k > 0 {
      RunKeepsInv(run, actions, k - 1);
      assert IsStep(run[k - 1], actions[k - 1], run[k]);
      StepKeepsInv(run[k - 1], actions[k - 1]);
    }
  }

  /** Stop the world after any number of loads and stores of any run: the traversal
      visits the queue in order, each live callback once and no consumed one; the
      queue is what was pushed less what was taken; and a single step leaves it
      alone, completes one push, or completes one take of its oldest callback. */
  lemma StoppedAnywhere(run: seq<System>, actions: seq<Action>, k: nat)
    requires IsRun(run, actions) && k < |run|
    ensures var s := run[k];
            && Shape(s.ring)
            && Live(s.ring, s.ring.readIdx, s.ring.writeIdx) == s.queue
            && s.pushed == s.taken + s.queue
    ensures k < |actions| && actions[k] != Reset ==>
              var s, s' := run[k], run[k + 1];
              || s'.queue == s.queue
              || (s.writer.ClearedFlag? && s'.queue == s.queue + [s.writer.cb])
              || (s.reader.Copied? && s.queue == [s.reader.cb] + s'.queue)
  {
    RunKeepsInv(run, actions, k);
    TraversalSeesQueue(run[k]);
    if k < |actions| {
      assert IsStep(run[k], actions[k], run[k + 1]);
      StepKeepsInv(run[k], actions[k]);
    }
  }
}
