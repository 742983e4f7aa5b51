// Draining the ready queue, as a function of the queue and of what the world does:
// each callback invoked may push, fail, be reported and be cleaned up.

module DrainSpec {
  import opened Bits
  import opened Common
  import opened CallbackPayload
  import opened RingModel
  import opened QueueSpec

  /** `fatal`: a Python error with KeyboardInterrupt or SystemExit pending. */
  datatype Failure = Failure(fatal: bool)

  predicate OnlyPushes(ops: seq<Op>) {
    forall k :: 0 <= k < |ops| ==> ops[k].TryPush? || ops[k].Push? || ops[k].PushOrGrow?
  }

  /** Pushes that other code makes on the ring being drained. */
  type Pushes = ops: seq<Op> | OnlyPushes(ops)

  /** What one invocation does: pushes made by the callback, by the exception handler
      if it runs, and afterwards by destructors or by threads let in at a yield. */
  datatype Outcome = Outcome(
    pushes: Pushes, failure: Option<Failure>,
    handlerPushes: Pushes, handlerFails: bool,
    latePushes: Pushes, slow: bool)

  const QUIET := Outcome([], None, [], false, [], false)

  /** The world answers the first invocations as listed; later ones succeed and push nothing. */
  type World = seq<Outcome>

  function Now(world: World): Outcome {
    if world == [] then QUIET else world[0]
  }

  function Later(world: World): World {
    if world == [] then [] else world[1..]
  }

  datatype Config = Config(handler: bool, debug: bool, warns: bool, threshold: nat)

  datatype Event =
    | Incref(obj: Object)
    | Decref(obj: Object)
    | Called(cb: Callback)
    | Handled(cb: Callback)
    | Warned(cb: Callback)
    | Cleaned(cleanup: nat, userData: Object)
    | Yielded

  datatype Result = Finished(executed: nat) | CallbackError(failure: Failure) | HandlerError

  datatype Verdict = Continue | Stop(result: Result)

  function YieldThreshold(initialCount: nat): nat {
    if initialCount <= 64 then 64
    else if initialCount <= 256 then 128
    else if initialCount <= 1024 then 256
    else 512
  }

  // ---- one iteration ----

  function Acquired(cb: Callback, debug: bool, mem: Memory): seq<Event> {
    var m, c := cb.data.ModulePtr(mem), cb.data.CallbackPtr(mem);
    if !debug || m.None? then []
    else [Incref(m.value)] + if c.Some? then [Incref(c.value)] else []
  }

  function Released(cb: Callback, debug: bool, mem: Memory): seq<Event> {
    var m, c := cb.data.ModulePtr(mem), cb.data.CallbackPtr(mem);
    if !debug || m.None? then []
    else [Decref(m.value)] + if c.Some? then [Decref(c.value)] else []
  }

  function CleanedUp(cb: Callback): seq<Event> {
    if cb.cleanup.Some? then [Cleaned(cb.cleanup.value, cb.data.userData)] else []
  }

  function Handles(o: Outcome, cfg: Config): bool {
    o.failure.Some? && !o.failure.value.fatal && cfg.handler
  }

  function VerdictOn(o: Outcome, cfg: Config): Verdict {
    if o.failure.None? then Continue
    else if o.failure.value.fatal || !cfg.handler then Stop(CallbackError(o.failure.value))
    else if o.handlerFails then Stop(HandlerError)
    else Continue
  }

  function HandlerPushes(o: Outcome, cfg: Config): Pushes {
    if Handles(o, cfg) then o.handlerPushes else []
  }

  function PushesOf(o: Outcome, cfg: Config): Pushes {
    o.pushes + HandlerPushes(o, cfg) + o.latePushes
  }

  predicate Yields(o: Outcome, cfg: Config, counter: nat) {
    o.failure.None? && counter + 1 >= cfg.threshold
  }

  function NextCounter(o: Outcome, cfg: Config, counter: nat): nat {
    if o.failure.Some? then counter
    else if Yields(o, cfg, counter) then 0 else counter + 1
  }

  function EventsOf(cb: Callback, o: Outcome, cfg: Config, counter: nat, mem: Memory): seq<Event> {
    Acquired(cb, cfg.debug, mem) + [Called(cb)] + EventsAfter(cb, o, cfg, counter, mem)
  }

  /** What follows the call. */
  function EventsAfter(cb: Callback, o: Outcome, cfg: Config, counter: nat, mem: Memory): seq<Event> {
    if o.failure.Some? then
      (if Handles(o, cfg) then [Handled(cb)] else []) +
      Released(cb, cfg.debug, mem) + CleanedUp(cb)
    else
      (if cfg.debug && o.slow && cfg.warns then [Warned(cb)] else []) +
      Released(cb, cfg.debug, mem) +
      (if Yields(o, cfg, counter) then [Yielded] else [])
  }

  // ---- the whole drain ----

  datatype Log = Log(invoked: seq<Callback>, events: seq<Event>, result: Result)

  datatype Drained = Drained(log: Log, accepted: seq<Callback>, left: Queue)

  function Drop(q: Queue): Queue
    requires q.items != []
  {
    q.(items := q.items[1..])
  }

  function Drain(q: Queue, world: World, cfg: Config, executed: nat, counter: nat, mem: Memory): Drained
    decreases |world|, |q.items|
  {
    if q.items == [] then Drained(Log([], [], Finished(executed)), [], q)
    else
      var cb, o := q.items[0], Now(world);
      var q' := After(Drop(q), PushesOf(o, cfg));
      var accepted := Accepted(Drop(q), PushesOf(o, cfg));
      var events := EventsOf(cb, o, cfg, counter, mem);
      match VerdictOn(o, cfg)
      case Stop(result) => Drained(Log([cb], events, result), accepted, q')
      case Continue =>
        var rest := Drain(q', Later(world), cfg, executed + 1, NextCounter(o, cfg, counter), mem);
        Drained(
          Log([cb] + rest.log.invoked, events + rest.log.events, rest.log.result),
          accepted + rest.accepted, rest.left)
  }

  // ---- teardown ----

  /** The copy of a callback that teardown calls. */
  function AsCancelled(cb: Callback): Callback {
    cb.(data := cb.data.(payload := WithCancelled(cb.data.payload, true)))
  }

  function TeardownEvents(cb: Callback, o: Outcome): seq<Event> {
    [Called(AsCancelled(cb))] + if o.failure.Some? then CleanedUp(cb) else []
  }

  function TeardownPushes(o: Outcome): Pushes {
    o.pushes + o.latePushes
  }

  function Teardown(q: Queue, world: World): Drained
    decreases |world|, |q.items|
  {
    if q.items == [] then Drained(Log([], [], Finished(0)), [], q)
    else
      var cb, o := q.items[0], Now(world);
      var q' := After(Drop(q), TeardownPushes(o));
      var accepted := Accepted(Drop(q), TeardownPushes(o));
      var rest := Teardown(q', Later(world));
      Drained(
        Log([cb] + rest.log.invoked, TeardownEvents(cb, o) + rest.log.events, Finished(0)),
        accepted + rest.accepted, rest.left)
  }

  // ---- conservation ----

  lemma {:induction false} PushesAppend(q: Queue, ops: seq<Op>)
    requires OnlyPushes(ops)
    ensures After(q, ops).items == q.items + Accepted(q, ops)
  {
    if ops != [] {
      var before := ops[..|ops| - 1];
      PushesAppend(q, before);
      var now, op := After(q, before), ops[|ops| - 1];
      assert Apply(now, op).0.items == now.items + StoredBy(now, op);
    }
  }

  /** One iteration: the head leaves, what is pushed is appended. */
  lemma IterationConserves(q: Queue, ops: seq<Op>, invoked: seq<Callback>, more: seq<Callback>, left: seq<Callback>)
    requires q.items != [] && OnlyPushes(ops)
    requires After(Drop(q), ops).items + more == invoked + left
    ensures q.items + (Accepted(Drop(q), ops) + more) == ([q.items[0]] + invoked) + left
  {
    PushesAppend(Drop(q), ops);
    var a := Accepted(Drop(q), ops);
    assert q.items == [q.items[0]] + Drop(q).items;
    assert q.items + (a + more) == [q.items[0]] + ((Drop(q).items + a) + more);
    assert [q.items[0]] + (invoked + left) == ([q.items[0]] + invoked) + left;
  }

  /** Every drain: what was queued and what was pushed meanwhile is invoked in order
      or is left in order. A normal return leaves nothing and counts the invocations;
      an error leaves exactly the callbacks not yet invoked. */
  lemma {:induction false} DrainConserves(
    q: Queue, world: World, cfg: Config, executed: nat, counter: nat, mem: Memory)
    ensures var d := Drain(q, world, cfg, executed, counter, mem);
            && q.items + d.accepted == d.log.invoked + d.left.items
            && (d.log.result.Finished? ==>
                  d.left.items == [] && d.log.result.executed == executed + |d.log.invoked|)
            && (!d.log.result.Finished? ==> d.log.invoked != [])
    decreases |world|, |q.items|
  {
    if q.items != [] {
      var o := Now(world);
      var ops := PushesOf(o, cfg);
      var q' := After(Drop(q), ops);
      match VerdictOn(o, cfg)
      case Stop(_) =>
        var invoked: seq<Callback> := [];
        assert q'.items + invoked == invoked + q'.items;
        IterationConserves(q, ops, invoked, [], q'.items);
        assert Accepted(Drop(q), ops) + [] == Accepted(Drop(q), ops);
        assert [q.items[0]] + invoked == [q.items[0]];
      case Continue =>
        DrainConserves(q', Later(world), cfg, executed + 1, NextCounter(o, cfg, counter), mem);
        var rest := Drain(q', Later(world), cfg, executed + 1, NextCounter(o, cfg, counter), mem);
        IterationConserves(q, ops, rest.log.invoked, rest.accepted, rest.left.items);
    }
  }

  /** A drain that reports nothing executed found nothing and left nothing, so the
      reset that follows it in the loop's iteration drops no callback. */
  lemma ResetAfterIdleDropsNothing(q: Queue, world: World, cfg: Config, mem: Memory)
    requires Drain(q, world, cfg, 0, 0, mem).log.result == Finished(0)
    ensures q.items == [] && Drain(q, world, cfg, 0, 0, mem).left == q
  {
    DrainConserves(q, world, cfg, 0, 0, mem);
  }

  lemma {:induction false} TeardownConserves(q: Queue, world: World)
    ensures var d := Teardown(q, world);
            q.items + d.accepted == d.log.invoked && d.left.items == []
    decreases |world|, |q.items|
  {
    if q.items != [] {
      var ops := TeardownPushes(Now(world));
      var q' := After(Drop(q), ops);
      TeardownConserves(q', Later(world));
      var rest := Teardown(q', Later(world));
      IterationConserves(q, ops, rest.log.invoked, rest.accepted, []);
    }
  }

  // ---- who is called, who is cleaned up ----

  function CalledIn(events: seq<Event>): seq<Callback> {
    if events == [] then []
    else (if events[0].Called? then [events[0].cb] else []) + CalledIn(events[1..])
  }

  function CleanedIn(events: seq<Event>): seq<(nat, Object)> {
    if events == [] then []
    else (if events[0].Cleaned? then [(events[0].cleanup, events[0].userData)] else [])
         + CleanedIn(events[1..])
  }

  /** The cleanups owed: those of the invocations that failed. */
  function FailedOnes(invoked: seq<Callback>, world: World): seq<(nat, Object)> {
    if invoked == [] then []
    else
      var cb := invoked[0];
      (if Now(world).failure.Some? && cb.cleanup.Some?
       then [(cb.cleanup.value, cb.data.userData)] else [])
      + FailedOnes(invoked[1..], Later(world))
  }

  function AllCancelled(cbs: seq<Callback>): seq<Callback> {
    if cbs == [] then [] else [AsCancelled(cbs[0])] + AllCancelled(cbs[1..])
  }

  lemma {:induction false} CalledConcat(a: seq<Event>, b: seq<Event>)
    ensures CalledIn(a + b) == CalledIn(a) + CalledIn(b)
  {
    if a == [] {
      assert a + b == b;
    } else {
      CalledConcat(a[1..], b);
      assert (a + b)[0] == a[0] && (a + b)[1..] == a[1..] + b;
      Associate(if a[0].Called? then [a[0].cb] else [], CalledIn(a[1..]), CalledIn(b));
    }
  }

  lemma {:induction false} CleanedConcat(a: seq<Event>, b: seq<Event>)
    ensures CleanedIn(a + b) == CleanedIn(a) + CleanedIn(b)
  {
    if a == [] {
      assert a + b == b;
    } else {
      CleanedConcat(a[1..], b);
      assert (a + b)[0] == a[0] && (a + b)[1..] == a[1..] + b;
      Associate(if a[0].Cleaned? then [(a[0].cleanup, a[0].userData)] else [], CleanedIn(a[1..]), CleanedIn(b));
    }
  }

  lemma EventsConcat(a: seq<Event>, b: seq<Event>)
    ensures CalledIn(a + b) == CalledIn(a) + CalledIn(b)
    ensures CleanedIn(a + b) == CleanedIn(a) + CleanedIn(b)
  {
    CalledConcat(a, b);
    CleanedConcat(a, b);
  }

  /** Events that neither call nor clean up. */
  ghost predicate Silent(events: seq<Event>) {
    forall k :: 0 <= k < |events| ==> !events[k].Called? && !events[k].Cleaned?
  }

  lemma {:induction false} SilentEvents(events: seq<Event>)
    requires Silent(events)
    ensures CalledIn(events) == [] && CleanedIn(events) == []
  {
    if events != [] {
      SilentEvents(events[1..]);
    }
  }

  lemma IterationEvents(cb: Callback, o: Outcome, cfg: Config, counter: nat, mem: Memory)
    ensures CalledIn(EventsOf(cb, o, cfg, counter, mem)) == [cb]
    ensures CleanedIn(EventsOf(cb, o, cfg, counter, mem)) ==
            if o.failure.Some? && cb.cleanup.Some?
            then [(cb.cleanup.value, cb.data.userData)] else []
  {
    var mid, tail := AfterCall(cb, o, cfg, counter, mem);
    SilentAround(cb, cfg.debug, mem, mid);
    CallAmidSilence(Acquired(cb, cfg.debug, mem), cb, mid + Released(cb, cfg.debug, mem), tail);
    TailEvents(cb, o, tail);
  }

  lemma SilentAround(cb: Callback, debug: bool, mem: Memory, mid: seq<Event>)
    requires Silent(mid)
    ensures Silent(Acquired(cb, debug, mem)) && Silent(mid + Released(cb, debug, mem))
  {
    assert Silent(Released(cb, debug, mem));
  }

  lemma TailEvents(cb: Callback, o: Outcome, tail: seq<Event>)
    requires if o.failure.Some? then tail == CleanedUp(cb) else tail == [] || tail == [Yielded]
    ensures CalledIn(tail) == []
    ensures CleanedIn(tail) ==
            if o.failure.Some? && cb.cleanup.Some?
            then [(cb.cleanup.value, cb.data.userData)] else []
  {
    if o.failure.Some? {
      SingleCleanup(cb);
    } else {
      SilentEvents(tail);
    }
  }

  lemma CallAmidSilence(a: seq<Event>, cb: Callback, rest: seq<Event>, tail: seq<Event>)
    requires Silent(a) && Silent(rest)
    ensures var events := (a + [Called(cb)]) + (rest + tail);
            CalledIn(events) == [cb] + CalledIn(tail) && CleanedIn(events) == CleanedIn(tail)
  {
    SilentEvents(a);
    SilentEvents(rest);
    SingleCall(cb);
    EventsConcat(a, [Called(cb)]);
    EventsConcat(a + [Called(cb)], rest + tail);
    EventsConcat(rest, tail);
  }

  lemma SingleCall(cb: Callback)
    ensures CalledIn([Called(cb)]) == [cb] && CleanedIn([Called(cb)]) == []
  {
    assert [Called(cb)][1..] == [];
  }

  lemma SingleCleanup(cb: Callback)
    ensures CalledIn(CleanedUp(cb)) == []
    ensures CleanedIn(CleanedUp(cb)) ==
            if cb.cleanup.Some? then [(cb.cleanup.value, cb.data.userData)] else []
  {
    if cb.cleanup.Some? {
      assert CleanedUp(cb)[1..] == [];
    }
  }

  /** The parts of an iteration's events after the call. */
  lemma AfterCall(cb: Callback, o: Outcome, cfg: Config, counter: nat, mem: Memory)
    returns (mid: seq<Event>, tail: seq<Event>)
    ensures EventsOf(cb, o, cfg, counter, mem)
         == (Acquired(cb, cfg.debug, mem) + [Called(cb)]) + (mid + Released(cb, cfg.debug, mem) + tail)
    ensures Reports(cb, mid)
    ensures tail == if o.failure.Some? then CleanedUp(cb)
                    else if Yields(o, cfg, counter) then [Yielded] else []
  {
    if o.failure.Some? {
      mid, tail := if Handles(o, cfg) then [Handled(cb)] else [], CleanedUp(cb);
    } else {
      mid := if cfg.debug && o.slow && cfg.warns then [Warned(cb)] else [];
      tail := if Yields(o, cfg, counter) then [Yielded] else [];
    }
  }

  /** Cleanup runs once for each invocation that failed, whatever the exit, and never
      for one that succeeded. */
  lemma {:induction false} DrainCleansFailures(
    q: Queue, world: World, cfg: Config, executed: nat, counter: nat, mem: Memory)
    ensures var log := Drain(q, world, cfg, executed, counter, mem).log;
            && CalledIn(log.events) == log.invoked
            && CleanedIn(log.events) == FailedOnes(log.invoked, world)
    decreases |world|, |q.items|
  {
    if q.items != [] {
      var cb, o := q.items[0], Now(world);
      IterationEvents(cb, o, cfg, counter, mem);
      match VerdictOn(o, cfg)
      case Stop(_) =>
        assert FailedOnes([cb][1..], Later(world)) == [];
      case Continue =>
        var q' := After(Drop(q), PushesOf(o, cfg));
        DrainCleansFailures(q', Later(world), cfg, executed + 1, NextCounter(o, cfg, counter), mem);
        var rest := Drain(q', Later(world), cfg, executed + 1, NextCounter(o, cfg, counter), mem).log;
        EventsConcat(EventsOf(cb, o, cfg, counter, mem), rest.events);
        assert ([cb] + rest.invoked)[1..] == rest.invoked;
    }
  }

  /** Teardown calls each remaining callback once, in order, with `cancelled` set, and
      cleans up exactly those that fail. */
  lemma {:induction false} TeardownCallsCancelled(q: Queue, world: World)
    ensures var log := Teardown(q, world).log;
            && CalledIn(log.events) == AllCancelled(log.invoked)
            && CleanedIn(log.events) == FailedOnes(log.invoked, world)
    decreases |world|, |q.items|
  {
    if q.items != [] {
      var cb, o := q.items[0], Now(world);
      var q' := After(Drop(q), TeardownPushes(o));
      TeardownCallsCancelled(q', Later(world));
      var rest := Teardown(q', Later(world)).log;
      TeardownIterationEvents(cb, o);
      EventsConcat(TeardownEvents(cb, o), rest.events);
      assert ([cb] + rest.invoked)[1..] == rest.invoked;
    }
  }

  lemma TeardownIterationEvents(cb: Callback, o: Outcome)
    ensures CalledIn(TeardownEvents(cb, o)) == [AsCancelled(cb)]
    ensures CleanedIn(TeardownEvents(cb, o)) ==
            if o.failure.Some? && cb.cleanup.Some?
            then [(cb.cleanup.value, cb.data.userData)] else []
  {
    var tail := if o.failure.Some? then CleanedUp(cb) else [];
    SingleCall(AsCancelled(cb));
    TailEvents(cb, o, tail);
    EventsConcat([Called(AsCancelled(cb))], tail);
  }

  /** Teardown sets the cancelled bit and leaves the rest of the payload alone. */
  lemma CancelledCopy(cb: Callback)
    requires Packed(cb.data.payload)
    ensures var d, d' := cb.data, AsCancelled(cb).data;
            && Packed(d'.payload) && d'.Cancelled() && d'.userData == d.userData
            && d'.BatchDispatched() == d.BatchDispatched()
            && BodyOf(d'.payload) == BodyOf(d.payload)
  {
    WithCancelledDecodes(cb.data.payload, true);
  }

  // ---- references taken in debug mode ----

  /** Objects held after `events`, starting with `held`. */
  function Held(held: multiset<Object>, events: seq<Event>): multiset<Object>
    decreases |events|
  {
    if events == [] then held
    else
      match events[0]
      case Incref(o) => Held(held + multiset{o}, events[1..])
      case Decref(o) => Held(held - multiset{o}, events[1..])
      case _ => Held(held, events[1..])
  }

  /** No reference is dropped that is not held; in debug mode the module and the callback
      object are held whenever a callback runs, is reported or is warned about; and none is
      held when a cleanup runs or the interpreter lock is given up. */
  predicate Sound(held: multiset<Object>, events: seq<Event>, debug: bool, mem: Memory)
    decreases |events|
  {
    events != [] ==>
      match events[0]
      case Incref(o) => Sound(held + multiset{o}, events[1..], debug, mem)
      case Decref(o) => o in held && Sound(held - multiset{o}, events[1..], debug, mem)
      case Called(cb) => (debug ==> Protected(cb, held, mem)) && Sound(held, events[1..], debug, mem)
      case Handled(cb) => (debug ==> Protected(cb, held, mem)) && Sound(held, events[1..], debug, mem)
      case Warned(cb) => (debug ==> Protected(cb, held, mem)) && Sound(held, events[1..], debug, mem)
      case Cleaned(_, _) => held == multiset{} && Sound(held, events[1..], debug, mem)
      case Yielded => held == multiset{} && Sound(held, events[1..], debug, mem)
  }

  predicate Protected(cb: Callback, held: multiset<Object>, mem: Memory) {
    var m, c := cb.data.ModulePtr(mem), cb.data.CallbackPtr(mem);
    m.Some? ==> m.value in held && (c.Some? ==> c.value in held)
  }

  lemma {:induction false} HeldConcat(held: multiset<Object>, a: seq<Event>, b: seq<Event>, debug: bool, mem: Memory)
    ensures Held(held, a + b) == Held(Held(held, a), b)
    ensures Sound(held, a + b, debug, mem) <==>
            Sound(held, a, debug, mem) && Sound(Held(held, a), b, debug, mem)
    decreases |a|
  {
    if a == [] {
      assert a + b == b;
    } else {
      assert (a + b)[1..] == a[1..] + b;
      match a[0]
      case Incref(o) => HeldConcat(held + multiset{o}, a[1..], b, debug, mem);
      case Decref(o) => HeldConcat(held - multiset{o}, a[1..], b, debug, mem);
      case _ => HeldConcat(held, a[1..], b, debug, mem);
    }
  }

  /** Objects a debug-mode iteration holds while the callback runs. */
  function Guards(cb: Callback, debug: bool, mem: Memory): multiset<Object> {
    var m, c := cb.data.ModulePtr(mem), cb.data.CallbackPtr(mem);
    if !debug || m.None? then multiset{}
    else multiset{m.value} + if c.Some? then multiset{c.value} else multiset{}
  }

  lemma AcquireRelease(cb: Callback, debug: bool, mem: Memory)
    ensures var g := Guards(cb, debug, mem);
            && Sound(multiset{}, Acquired(cb, debug, mem), debug, mem)
            && Held(multiset{}, Acquired(cb, debug, mem)) == g
            && Sound(g, Released(cb, debug, mem), debug, mem)
            && Held(g, Released(cb, debug, mem)) == multiset{}
            && (debug ==> Protected(cb, g, mem))
  {
    var m, c := cb.data.ModulePtr(mem), cb.data.CallbackPtr(mem);
    if debug && m.Some? {
      if c.Some? {
        TwoRefs(m.value, c.value, debug, mem);
      } else {
        OneRef(m.value, debug, mem);
      }
    }
  }

  lemma OneRef(m: Object, debug: bool, mem: Memory)
    ensures Sound(multiset{}, [Incref(m)], debug, mem) && Held(multiset{}, [Incref(m)]) == multiset{m}
    ensures Sound(multiset{m}, [Decref(m)], debug, mem) && Held(multiset{m}, [Decref(m)]) == multiset{}
  {
    var none: multiset<Object> := multiset{};
    assert none + multiset{m} == multiset{m};
    assert Held(multiset{}, [Incref(m)]) == Held(multiset{} + multiset{m}, [Incref(m)][1..]);
    assert Held(multiset{m}, [Decref(m)]) == Held(multiset{m} - multiset{m}, [Decref(m)][1..]);
  }

  lemma TwoRefs(m: Object, c: Object, debug: bool, mem: Memory)
    ensures var g := multiset{m} + multiset{c};
            && Sound(multiset{}, [Incref(m)] + [Incref(c)], debug, mem)
            && Held(multiset{}, [Incref(m)] + [Incref(c)]) == g
            && Sound(g, [Decref(m)] + [Decref(c)], debug, mem)
            && Held(g, [Decref(m)] + [Decref(c)]) == multiset{}
  {
    var g := multiset{m} + multiset{c};
    OneRef(m, debug, mem);
    OneRef(c, debug, mem);
    HeldConcat(multiset{}, [Incref(m)], [Incref(c)], debug, mem);
    HeldConcat(g, [Decref(m)], [Decref(c)], debug, mem);
    assert g - multiset{m} == multiset{c};
    assert Held(g, [Decref(m)]) == Held(g - multiset{m}, [Decref(m)][1..]);
    assert Held(multiset{m}, [Incref(c)]) == Held(multiset{m} + multiset{c}, [Incref(c)][1..]);
  }

  /** Reports about `cb`. */
  ghost predicate Reports(cb: Callback, events: seq<Event>) {
    forall k :: 0 <= k < |events| ==> events[k] == Handled(cb) || events[k] == Warned(cb)
  }

  lemma {:induction false} ReportsKeep(
    cb: Callback, held: multiset<Object>, events: seq<Event>, debug: bool, mem: Memory)
    requires Reports(cb, events) && (debug ==> Protected(cb, held, mem))
    ensures Held(held, events) == held && Sound(held, events, debug, mem)
    decreases |events|
  {
    if events != [] {
      assert events[0] == Handled(cb) || events[0] == Warned(cb);
      ReportsKeep(cb, held, events[1..], debug, mem);
    }
  }

  lemma TailKeeps(tail: seq<Event>, debug: bool, mem: Memory)
    requires |tail| <= 1 && forall k :: 0 <= k < |tail| ==> tail[k].Cleaned? || tail[k].Yielded?
    ensures Held(multiset{}, tail) == multiset{} && Sound(multiset{}, tail, debug, mem)
  {
    if tail != [] {
      assert tail[1..] == [];
      assert Sound(multiset{}, tail[1..], debug, mem);
    }
  }

  lemma CallKeeps(cb: Callback, held: multiset<Object>, debug: bool, mem: Memory)
    requires debug ==> Protected(cb, held, mem)
    ensures Sound(held, [Called(cb)], debug, mem) && Held(held, [Called(cb)]) == held
  {
    var rest := [Called(cb)][1..];
    assert rest == [];
    assert Held(held, rest) == held;
  }

  lemma IterationBalances(cb: Callback, o: Outcome, cfg: Config, counter: nat, mem: Memory)
    ensures var events := EventsOf(cb, o, cfg, counter, mem);
            Sound(multiset{}, events, cfg.debug, mem) && Held(multiset{}, events) == multiset{}
  {
    var g := Guards(cb, cfg.debug, mem);
    AcquireRelease(cb, cfg.debug, mem);
    var a, r := Acquired(cb, cfg.debug, mem), Released(cb, cfg.debug, mem);
    CallKeeps(cb, g, cfg.debug, mem);
    HeldConcat(multiset{}, a, [Called(cb)], cfg.debug, mem);
    var mid, tail := AfterCall(cb, o, cfg, counter, mem);
    Sandwich(cb, g, mid, r, tail, cfg.debug, mem);
    HeldConcat(multiset{}, a + [Called(cb)], mid + r + tail, cfg.debug, mem);
  }

  lemma Sandwich(
    cb: Callback, g: multiset<Object>, mid: seq<Event>, r: seq<Event>, tail: seq<Event>, debug: bool, mem: Memory)
    requires Reports(cb, mid) && (debug ==> Protected(cb, g, mem))
    requires |tail| <= 1 && forall k :: 0 <= k < |tail| ==> tail[k].Cleaned? || tail[k].Yielded?
    requires Sound(g, r, debug, mem) && Held(g, r) == multiset{}
    ensures Sound(g, mid + r + tail, debug, mem) && Held(g, mid + r + tail) == multiset{}
  {
    ReportsKeep(cb, g, mid, debug, mem);
    TailKeeps(tail, debug, mem);
    HeldConcat(g, mid, r, debug, mem);
    HeldConcat(g, mid + r, tail, debug, mem);
  }

  /** On every exit each reference taken is dropped, none is dropped before it is taken, and
      in debug mode the module and callback object are held during the call and the reports
      about it, and let go of before its cleanup and before a yield. */
  lemma {:induction false} DrainBalancesReferences(
    q: Queue, world: World, cfg: Config, executed: nat, counter: nat, mem: Memory)
    ensures var events := Drain(q, world, cfg, executed, counter, mem).log.events;
            Sound(multiset{}, events, cfg.debug, mem) && Held(multiset{}, events) == multiset{}
    decreases |world|, |q.items|
  {
    if q.items != [] {
      var cb, o := q.items[0], Now(world);
      IterationBalances(cb, o, cfg, counter, mem);
      if VerdictOn(o, cfg).Continue? {
        var q' := After(Drop(q), PushesOf(o, cfg));
        DrainBalancesReferences(q', Later(world), cfg, executed + 1, NextCounter(o, cfg, counter), mem);
        var rest := Drain(q', Later(world), cfg, executed + 1, NextCounter(o, cfg, counter), mem).log;
        HeldConcat(multiset{}, EventsOf(cb, o, cfg, counter, mem), rest.events, cfg.debug, mem);
      }
    }
  }

  // ---- yielding ----

  function YieldsIn(events: seq<Event>): nat {
    if events == [] then 0
    else (if events[0].Yielded? then 1 else 0) + YieldsIn(events[1..])
  }

  function Successes(invoked: seq<Callback>, world: World): nat {
    if invoked == [] then 0
    else (if Now(world).failure.None? then 1 else 0) + Successes(invoked[1..], Later(world))
  }

  lemma {:induction false} YieldsConcat(a: seq<Event>, b: seq<Event>)
    ensures YieldsIn(a + b) == YieldsIn(a) + YieldsIn(b)
  {
    if a == [] {
      assert a + b == b;
    } else {
      YieldsConcat(a[1..], b);
      assert (a + b)[1..] == a[1..] + b;
    }
  }

  lemma {:induction false} NoYields(events: seq<Event>)
    requires forall k :: 0 <= k < |events| ==> !events[k].Yielded?
    ensures YieldsIn(events) == 0
  {
    if events != [] {
      NoYields(events[1..]);
    }
  }

  lemma IterationYields(cb: Callback, o: Outcome, cfg: Config, counter: nat, mem: Memory)
    ensures YieldsIn(EventsOf(cb, o, cfg, counter, mem)) == if Yields(o, cfg, counter) then 1 else 0
  {
    var mid, tail := AfterCall(cb, o, cfg, counter, mem);
    TailYields(Acquired(cb, cfg.debug, mem) + [Called(cb)], mid + Released(cb, cfg.debug, mem), tail);
    if Yields(o, cfg, counter) {
      OneYield();
    } else {
      NoYields(tail);
    }
  }

  lemma OneYield()
    ensures YieldsIn([Yielded]) == 1
  {
    assert [Yielded][1..] == [];
  }

  lemma TailYields(before: seq<Event>, rest: seq<Event>, tail: seq<Event>)
    requires forall k :: 0 <= k < |before| ==> !before[k].Yielded?
    requires forall k :: 0 <= k < |rest| ==> !rest[k].Yielded?
    ensures YieldsIn(before + (rest + tail)) == YieldsIn(tail)
  {
    YieldsConcat(before, rest + tail);
    YieldsConcat(rest, tail);
    NoYields(before);
    NoYields(rest);
  }

  /** `n * t`, by repeated addition. */
  function Rounds(n: nat, t: nat): nat {
    if n == 0 then 0 else t + Rounds(n - 1, t)
  }

  lemma {:induction false} RoundsIsProduct(n: nat, t: nat)
    ensures Rounds(n, t) == n * t
  {
    if n > 0 {
      RoundsIsProduct(n - 1, t);
      assert n * t == (n - 1) * t + t;
    }
  }

  /** The yields due for these invocations, by counting. */
  function YieldsDue(invoked: seq<Callback>, world: World, cfg: Config, counter: nat): nat {
    if invoked == [] then 0
    else
      (if Yields(Now(world), cfg, counter) then 1 else 0)
      + YieldsDue(invoked[1..], Later(world), cfg, NextCounter(Now(world), cfg, counter))
  }

  lemma {:induction false} DrainYieldsWhenDue(
    q: Queue, world: World, cfg: Config, executed: nat, counter: nat, mem: Memory)
    ensures var log := Drain(q, world, cfg, executed, counter, mem).log;
            YieldsIn(log.events) == YieldsDue(log.invoked, world, cfg, counter)
    decreases |world|, |q.items|
  {
    if q.items != [] {
      var cb, o := q.items[0], Now(world);
      IterationYields(cb, o, cfg, counter, mem);
      match VerdictOn(o, cfg)
      case Stop(_) => assert [cb][1..] == [];
      case Continue =>
        var q', next := After(Drop(q), PushesOf(o, cfg)), NextCounter(o, cfg, counter);
        DrainYieldsWhenDue(q', Later(world), cfg, executed + 1, next, mem);
        var rest := Drain(q', Later(world), cfg, executed + 1, next, mem).log;
        YieldsConcat(EventsOf(cb, o, cfg, counter, mem), rest.events);
        assert ([cb] + rest.invoked)[1..] == rest.invoked;
    }
  }

  lemma {:induction false} YieldsDueCount(invoked: seq<Callback>, world: World, cfg: Config, counter: nat)
    returns (rest: nat)
    requires counter < cfg.threshold
    ensures counter + Successes(invoked, world)
         == Rounds(YieldsDue(invoked, world, cfg, counter), cfg.threshold) + rest
    ensures rest < cfg.threshold
    decreases |invoked|
  {
    if invoked == [] {
      rest := counter;
    } else {
      rest := YieldsDueCount(invoked[1..], Later(world), cfg, NextCounter(Now(world), cfg, counter));
    }
  }

  /** The interpreter lock is given up once for every `threshold` successes. */
  lemma DrainYieldsRegularly(q: Queue, world: World, cfg: Config, mem: Memory)
    requires cfg.threshold > 0
    ensures var log := Drain(q, world, cfg, 0, 0, mem).log;
            YieldsIn(log.events) == Successes(log.invoked, world) / cfg.threshold
  {
    var log := Drain(q, world, cfg, 0, 0, mem).log;
    DrainYieldsWhenDue(q, world, cfg, 0, 0, mem);
    var rest := YieldsDueCount(log.invoked, world, cfg, 0);
    RoundsIsProduct(YieldsIn(log.events), cfg.threshold);
    DivModUnique(Successes(log.invoked, world), cfg.threshold, YieldsIn(log.events), rest);
  }
}
