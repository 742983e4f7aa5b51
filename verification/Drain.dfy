// The two loops that drain a ready-queue ring.

module Drain {
  import opened Common
  import opened CallbackPayload
  import opened RingModel
  import opened QueueSpec
  import opened RingBuffer
  import opened DrainSpec

  /** The events of a drain recorded so far, followed by what the rest will do. */
  ghost function Then(invoked: seq<Callback>, events: seq<Event>, accepted: seq<Callback>, d: Drained): Drained {
    Drained(
      Log(invoked + d.log.invoked, events + d.log.events, d.log.result),
      accepted + d.accepted, d.left)
  }

  lemma NothingBefore(d: Drained)
    ensures Then([], [], [], d) == d
  {
  }

  lemma NothingAfter(invoked: seq<Callback>, events: seq<Event>, accepted: seq<Callback>, result: Result, left: Queue)
    ensures Then(invoked, events, accepted, Drained(Log([], [], result), [], left))
         == Drained(Log(invoked, events, result), accepted, left)
  {
  }

  /** Lets other code push on the ring. */
  method LetPush(ring: DynamicRingBuffer, pushes: Pushes)
    requires ring.Valid()
    modifies ring, ring.callbacks, ring.executed
    ensures ring.callbacks == old(ring.callbacks) || fresh(ring.callbacks)
    ensures ring.executed == old(ring.executed) || fresh(ring.executed)
    ensures ring.Valid() && ring.Contents() == After(old(ring.Contents()), pushes)
  {
    var _ := ring.Run(pushes);
  }

  /** Takes the callback at the head out of the ring and calls it. */
  method Invoke(ring: DynamicRingBuffer, callback: Callback, o: Outcome, cfg: Config, mem: Memory)
    returns (events: seq<Event>)
    requires ring.Valid() && Head(ring.Contents()) == Some(callback)
    modifies ring, ring.callbacks, ring.executed
    ensures ring.callbacks == old(ring.callbacks) || fresh(ring.callbacks)
    ensures ring.executed == old(ring.executed) || fresh(ring.executed)
    ensures ring.Valid()
    ensures ring.Contents() == After(Drop(old(ring.Contents())), o.pushes)
    ensures events == Acquired(callback, cfg.debug, mem) + [Called(callback)]
  {
    events := Acquired(callback, cfg.debug, mem);
    ring.Consume();
    events := events + [Called(callback)];
    LetPush(ring, o.pushes);
  }

  /** A callback failed: report it unless the failure is fatal, then release and clean up. */
  method Fail(ring: DynamicRingBuffer, callback: Callback, o: Outcome, cfg: Config, mem: Memory)
    returns (events: seq<Event>, verdict: Verdict)
    requires ring.Valid() && o.failure.Some?
    modifies ring, ring.callbacks, ring.executed
    ensures ring.callbacks == old(ring.callbacks) || fresh(ring.callbacks)
    ensures ring.executed == old(ring.executed) || fresh(ring.executed)
    ensures ring.Valid()
    ensures ring.Contents() == After(old(ring.Contents()), HandlerPushes(o, cfg))
    ensures events == (if Handles(o, cfg) then [Handled(callback)] else [])
                    + Released(callback, cfg.debug, mem) + CleanedUp(callback)
    ensures verdict == VerdictOn(o, cfg)
  {
    events := [];
    var failure := o.failure.value;
    if failure.fatal || !cfg.handler {
      verdict := Stop(CallbackError(failure));
    } else {
      events := [Handled(callback)];
      LetPush(ring, o.handlerPushes);
      verdict := if o.handlerFails then Stop(HandlerError) else Continue;
    }
    events := events + Released(callback, cfg.debug, mem);
    events := events + CleanedUp(callback);
  }

  /** A callback succeeded: warn if it was slow, release, and perhaps yield. */
  method Succeed(callback: Callback, o: Outcome, cfg: Config, counter: nat, mem: Memory)
    returns (events: seq<Event>)
    requires o.failure.None?
    ensures events == (if cfg.debug && o.slow && cfg.warns then [Warned(callback)] else [])
                    + Released(callback, cfg.debug, mem)
                    + (if Yields(o, cfg, counter) then [Yielded] else [])
  {
    events := [];
    if cfg.debug {
      if o.slow && cfg.warns {
        events := [Warned(callback)];
      }
      events := events + Released(callback, true, mem);
    }
    if counter + 1 >= cfg.threshold {
      events := events + [Yielded];
    }
  }

  /** What follows the call, up to the pushes made on the way out. */
  method Finish(ring: DynamicRingBuffer, callback: Callback, o: Outcome, cfg: Config, counter: nat, mem: Memory)
    returns (events: seq<Event>, verdict: Verdict)
    requires ring.Valid()
    modifies ring, ring.callbacks, ring.executed
    ensures ring.callbacks == old(ring.callbacks) || fresh(ring.callbacks)
    ensures ring.executed == old(ring.executed) || fresh(ring.executed)
    ensures ring.Valid()
    ensures ring.Contents() == After(After(old(ring.Contents()), HandlerPushes(o, cfg)), o.latePushes)
    ensures events == EventsAfter(callback, o, cfg, counter, mem)
    ensures verdict == VerdictOn(o, cfg)
  {
    if o.failure.Some? {
      events, verdict := Fail(ring, callback, o, cfg, mem);
    } else {
      events := Succeed(callback, o, cfg, counter, mem);
      verdict := Continue;
    }
    LetPush(ring, o.latePushes);
  }

  /** One iteration for the callback at the head of the ring. The references taken in
      debug mode are dropped and the cleanup of a failure runs on every way out. */
  method Iterate(ring: DynamicRingBuffer, callback: Callback, o: Outcome, cfg: Config, counter: nat, mem: Memory)
    returns (events: seq<Event>, verdict: Verdict)
    requires ring.Valid() && Head(ring.Contents()) == Some(callback)
    modifies ring, ring.callbacks, ring.executed
    ensures ring.callbacks == old(ring.callbacks) || fresh(ring.callbacks)
    ensures ring.executed == old(ring.executed) || fresh(ring.executed)
    ensures ring.Valid()
    ensures ring.Contents() == After(Drop(old(ring.Contents())), PushesOf(o, cfg))
    ensures events == EventsOf(callback, o, cfg, counter, mem)
    ensures verdict == VerdictOn(o, cfg)
  {
    PushesInTurn(Drop(ring.Contents()), o, cfg);
    var before := Invoke(ring, callback, o, cfg, mem);
    var after;
    after, verdict := Finish(ring, callback, o, cfg, counter, mem);
    events := before + after;
  }

  lemma PushesInTurn(q: Queue, o: Outcome, cfg: Config)
    ensures After(q, PushesOf(o, cfg))
         == After(After(After(q, o.pushes), HandlerPushes(o, cfg)), o.latePushes)
  {
    AfterConcat(q, o.pushes, HandlerPushes(o, cfg));
    AfterConcat(q, o.pushes + HandlerPushes(o, cfg), o.latePushes);
  }

  /** Runs every callback of the ring, those pushed meanwhile included. */
  method Execute(
      ring: DynamicRingBuffer, world: World, handler: bool, debug: bool, warns: bool, mem: Memory)
    returns (log: Log)
    requires ring.Valid()
    modifies ring, ring.callbacks, ring.executed
    ensures ring.Valid()
    ensures var q := old(ring.Contents());
            var cfg := Config(handler, debug, warns, YieldThreshold(|q.items|));
            var d := DrainSpec.Drain(q, world, cfg, 0, 0, mem);
            log == d.log && ring.Contents() == d.left
  {
    if ring.IsEmpty() {
      return Log([], [], Finished(0));
    }
    var threshold := YieldThreshold(ring.writeIdx - ring.readIdx);
    var cfg := Config(handler, debug, warns, threshold);
    ghost var whole := DrainSpec.Drain(ring.Contents(), world, cfg, 0, 0, mem);
    ghost var accepted: seq<Callback> := [];
    var invoked: seq<Callback>, events: seq<Event> := [], [];
    var rest, executed, counter := world, 0, 0;
    NothingBefore(whole);
    var head := ring.Next();
    while head.Some?
      invariant ring.Valid()
      invariant ring.callbacks == old(ring.callbacks) || fresh(ring.callbacks)
      invariant ring.executed == old(ring.executed) || fresh(ring.executed)
      invariant head == Head(ring.Contents())
      invariant whole == Then(invoked, events, accepted,
        DrainSpec.Drain(ring.Contents(), rest, cfg, executed, counter, mem))
      decreases |rest|, |ring.Contents().items|
    {
      ghost var q := ring.Contents();
      var o := Now(rest);
      var now, verdict := Iterate(ring, head.value, o, cfg, counter, mem);
      ThenStep(invoked, events, accepted, q, rest, cfg, executed, counter, mem);
      invoked, events := invoked + [head.value], events + now;
      accepted := accepted + Accepted(Drop(q), PushesOf(o, cfg));
      if verdict.Stop? {
        NothingAfter(invoked, events, accepted, verdict.result, ring.Contents());
        return Log(invoked, events, verdict.result);
      }
      executed, counter := executed + 1, NextCounter(o, cfg, counter);
      rest := Later(rest);
      head := ring.Next();
    }
    NothingAfter(invoked, events, accepted, Finished(executed), ring.Contents());
    return Log(invoked, events, Finished(executed));
  }

  /** What remains to happen after the first iteration. */
  ghost function Remaining(q: Queue, world: World, cfg: Config, executed: nat, counter: nat, mem: Memory): Drained
    requires q.items != []
  {
    var o := Now(world);
    var q' := After(Drop(q), PushesOf(o, cfg));
    match VerdictOn(o, cfg)
    case Stop(result) => Drained(Log([], [], result), [], q')
    case Continue =>
      DrainSpec.Drain(q', Later(world), cfg, executed + 1, NextCounter(o, cfg, counter), mem)
  }

  /** Folding one more iteration into what has been recorded. */
  lemma ThenStep(
    invoked: seq<Callback>, events: seq<Event>, accepted: seq<Callback>,
    q: Queue, world: World, cfg: Config, executed: nat, counter: nat, mem: Memory)
    requires q.items != []
    ensures Then(invoked, events, accepted, DrainSpec.Drain(q, world, cfg, executed, counter, mem)) ==
            Then(invoked + [q.items[0]],
              events + EventsOf(q.items[0], Now(world), cfg, counter, mem),
              accepted + Accepted(Drop(q), PushesOf(Now(world), cfg)),
              Remaining(q, world, cfg, executed, counter, mem))
  {
    var now := EventsOf(q.items[0], Now(world), cfg, counter, mem);
    var pushed := Accepted(Drop(q), PushesOf(Now(world), cfg));
    var d := DrainSpec.Drain(q, world, cfg, executed, counter, mem);
    var rest := Remaining(q, world, cfg, executed, counter, mem);
    assert d == Then([q.items[0]], now, pushed, rest);
    Associate(invoked, [q.items[0]], rest.log.invoked);
    Associate(events, now, rest.log.events);
    Associate(accepted, pushed, rest.accepted);
  }

  /** Calls what is left in the ring with `cancelled` set, at loop teardown. */
  method Release(ring: DynamicRingBuffer, world: World) returns (invoked: seq<Callback>, events: seq<Event>)
    requires ring.Valid()
    modifies ring, ring.callbacks, ring.executed
    ensures ring.Valid()
    ensures var d := Teardown(old(ring.Contents()), world);
            invoked == d.log.invoked && events == d.log.events && ring.Contents() == d.left
  {
    ghost var whole := Teardown(ring.Contents(), world);
    ghost var accepted: seq<Callback> := [];
    invoked, events := [], [];
    var rest := world;
    NothingBefore(whole);
    var head := ring.Next();
    while head.Some?
      invariant ring.Valid()
      invariant ring.callbacks == old(ring.callbacks) || fresh(ring.callbacks)
      invariant ring.executed == old(ring.executed) || fresh(ring.executed)
      invariant head == Head(ring.Contents())
      invariant whole == Then(invoked, events, accepted, Teardown(ring.Contents(), rest))
      decreases |rest|, |ring.Contents().items|
    {
      ghost var q := ring.Contents();
      var o := Now(rest);
      var now := ReleaseHead(ring, head.value, o);
      TeardownStep(invoked, events, accepted, q, rest);
      invoked, events := invoked + [head.value], events + now;
      accepted := accepted + Accepted(Drop(q), TeardownPushes(o));
      rest := Later(rest);
      head := ring.Next();
    }
    NothingAfter(invoked, events, accepted, Finished(0), ring.Contents());
  }

  /** One iteration of `Release`: the flag is set on a copy of the callback. */
  method ReleaseHead(ring: DynamicRingBuffer, head: Callback, o: Outcome) returns (events: seq<Event>)
    requires ring.Valid() && Head(ring.Contents()) == Some(head)
    modifies ring, ring.callbacks, ring.executed
    ensures ring.callbacks == old(ring.callbacks) || fresh(ring.callbacks)
    ensures ring.executed == old(ring.executed) || fresh(ring.executed)
    ensures ring.Valid()
    ensures ring.Contents() == After(Drop(old(ring.Contents())), TeardownPushes(o))
    ensures events == TeardownEvents(head, o)
  {
    ring.Consume();
    var callback := CopyCancelled(head);
    AfterConcat(ring.Contents(), o.pushes, o.latePushes);
    events := [Called(callback)];
    LetPush(ring, o.pushes);
    if o.failure.Some? {
      events := events + CleanedUp(callback);
    }
    LetPush(ring, o.latePushes);
  }

  method CopyCancelled(head: Callback) returns (callback: Callback)
    ensures callback == AsCancelled(head)
  {
    var data := new CallbackDataVar(head.data);
    data.SetCancelled(true);
    callback := head.(data := data.Data());
  }

  lemma TeardownStep(
    invoked: seq<Callback>, events: seq<Event>, accepted: seq<Callback>, q: Queue, world: World)
    requires q.items != []
    ensures Then(invoked, events, accepted, Teardown(q, world)) ==
            Then(invoked + [q.items[0]], events + TeardownEvents(q.items[0], Now(world)),
              accepted + Accepted(Drop(q), TeardownPushes(Now(world))),
              Teardown(After(Drop(q), TeardownPushes(Now(world))), Later(world)))
  {
    var now, pushed := TeardownEvents(q.items[0], Now(world)), Accepted(Drop(q), TeardownPushes(Now(world)));
    var rest := Teardown(After(Drop(q), TeardownPushes(Now(world))), Later(world));
    TeardownUnfolds(q, world);
    Associate(invoked, [q.items[0]], rest.log.invoked);
    Associate(events, now, rest.log.events);
    Associate(accepted, pushed, rest.accepted);
  }

  lemma TeardownUnfolds(q: Queue, world: World)
    requires q.items != []
    ensures Teardown(q, world) ==
            Then([q.items[0]], TeardownEvents(q.items[0], Now(world)),
              Accepted(Drop(q), TeardownPushes(Now(world))),
              Teardown(After(Drop(q), TeardownPushes(Now(world))), Later(world)))
    ensures Teardown(q, world).log.result == Finished(0)
  {
  }
}
