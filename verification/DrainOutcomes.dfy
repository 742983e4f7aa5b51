// What decides how a drain goes on: which failures stop it and with what result, which
// are reported, and that nothing pushed meanwhile is forgotten.

module DrainOutcomes {
  import opened Bits
  import opened Common
  import opened CallbackPayload
  import opened RingModel
  import opened QueueSpec
  import opened DrainSpec

  /** What the world does on invocation `k` of a drain. */
  function At(world: World, k: nat): Outcome {
    if k < |world| then world[k] else QUIET
  }

  lemma AtLater(world: World, k: nat)
    ensures At(Later(world), k) == At(world, k + 1)
    ensures At(world, 0) == Now(world)
  {
  }

  // ---- when a drain stops ----

  /** The callback succeeded, or it failed with an error that is not fatal and that an
      exception handler dealt with. */
  ghost predicate Survived(o: Outcome, handler: bool) {
    o.failure.None? || (!o.failure.value.fatal && handler && !o.handlerFails)
  }

  /** What became of the last invocation. */
  ghost predicate Decided(last: Outcome, result: Result, handler: bool) {
    && (result.Finished? <==> Survived(last, handler))
    && (result.CallbackError? <==> last.failure.Some? && (last.failure.value.fatal || !handler))
    && (result.CallbackError? ==> Some(result.failure) == last.failure)
    && (result.HandlerError? <==>
          last.failure.Some? && !last.failure.value.fatal && handler && last.handlerFails)
  }

  /** `n` invocations were made, all but the last survived, and the last one decided. */
  ghost predicate EndsAsDecided(n: nat, result: Result, world: World, handler: bool) {
    if n == 0 then result.Finished?
    else if n == 1 then Decided(Now(world), result, handler)
    else Survived(Now(world), handler) && EndsAsDecided(n - 1, result, Later(world), handler)
  }

  lemma {:induction false} EndsAt(n: nat, result: Result, world: World, handler: bool)
    requires EndsAsDecided(n, result, world, handler) && n > 0
    ensures forall k: nat {:trigger At(world, k)} :: k + 1 < n ==> Survived(At(world, k), handler)
    ensures Decided(At(world, n - 1), result, handler)
  {
    AtLater(world, 0);
    if n > 1 {
      EndsAt(n - 1, result, Later(world), handler);
      AtLater(world, n - 2);
      forall k: nat | k + 1 < n ensures Survived(At(world, k), handler) {
        if k > 0 {
          AtLater(world, k - 1);
        }
      }
    }
  }

  lemma VerdictDecides(o: Outcome, cfg: Config, executed: nat)
    ensures match VerdictOn(o, cfg)
            case Stop(result) => Decided(o, result, cfg.handler)
            case Continue => Survived(o, cfg.handler) && Decided(o, Finished(executed), cfg.handler)
  {
  }

  lemma {:induction false} DrainEndsAsDecided(
    q: Queue, world: World, cfg: Config, executed: nat, counter: nat, mem: Memory)
    ensures var log := Drain(q, world, cfg, executed, counter, mem).log;
            EndsAsDecided(|log.invoked|, log.result, world, cfg.handler)
    decreases |world|, |q.items|
  {
    if q.items != [] {
      VerdictDecides(Now(world), cfg, executed + 1);
      if VerdictOn(Now(world), cfg).Continue? {
        var q', next := After(Drop(q), PushesOf(Now(world), cfg)), NextCounter(Now(world), cfg, counter);
        DrainEndsAsDecided(q', Later(world), cfg, executed + 1, next, mem);
        DrainGoesOn(q, world, cfg, executed, counter, mem);
      } else {
        DrainStops(q, world, cfg, executed, counter, mem);
      }
    }
  }

  lemma DrainStops(q: Queue, world: World, cfg: Config, executed: nat, counter: nat, mem: Memory)
    requires q.items != [] && VerdictOn(Now(world), cfg).Stop?
    ensures var log := Drain(q, world, cfg, executed, counter, mem).log;
            |log.invoked| == 1 && log.result == VerdictOn(Now(world), cfg).result
  {
  }

  lemma DrainGoesOn(q: Queue, world: World, cfg: Config, executed: nat, counter: nat, mem: Memory)
    requires q.items != [] && VerdictOn(Now(world), cfg).Continue?
    ensures var q', next := After(Drop(q), PushesOf(Now(world), cfg)), NextCounter(Now(world), cfg, counter);
            var log := Drain(q, world, cfg, executed, counter, mem).log;
            var rest := Drain(q', Later(world), cfg, executed + 1, next, mem).log;
            && |log.invoked| == |rest.invoked| + 1 && log.result == rest.result
            && (rest.invoked == [] ==> rest.result == Finished(executed + 1))
  {
  }

  /** Exactly how a drain ends. Every invocation but the last survived. The drain returns the
      callback's own failure if and only if the last one failed fatally or without a handler;
      the handler's failure if and only if the last one failed without being fatal and its
      handler failed; and it runs to the end if and only if the last one survived too. */
  lemma DrainStopsExactly(q: Queue, world: World, cfg: Config, mem: Memory)
    ensures var log := Drain(q, world, cfg, 0, 0, mem).log;
            var n := |log.invoked|;
            && (forall k: nat {:trigger At(world, k)} :: k + 1 < n ==> Survived(At(world, k), cfg.handler))
            && (forall f :: log.result == CallbackError(f) <==>
                  n > 0 && At(world, n - 1).failure == Some(f) && (f.fatal || !cfg.handler))
            && (log.result == HandlerError <==>
                  n > 0 && At(world, n - 1).failure.Some? && !At(world, n - 1).failure.value.fatal
                  && cfg.handler && At(world, n - 1).handlerFails)
            && (log.result.Finished? <==> n == 0 || Survived(At(world, n - 1), cfg.handler))
  {
    var log := Drain(q, world, cfg, 0, 0, mem).log;
    DrainEndsAsDecided(q, world, cfg, 0, 0, mem);
    EndsExactly(|log.invoked|, log.result, world, cfg.handler);
  }

  lemma EndsExactly(n: nat, result: Result, world: World, handler: bool)
    requires EndsAsDecided(n, result, world, handler)
    ensures forall k: nat {:trigger At(world, k)} :: k + 1 < n ==> Survived(At(world, k), handler)
    ensures forall f :: result == CallbackError(f) <==>
              n > 0 && At(world, n - 1).failure == Some(f) && (f.fatal || !handler)
    ensures result == HandlerError <==>
              n > 0 && At(world, n - 1).failure.Some? && !At(world, n - 1).failure.value.fatal
              && handler && At(world, n - 1).handlerFails
    ensures result.Finished? <==> n == 0 || Survived(At(world, n - 1), handler)
  {
    if n > 0 {
      EndsAt(n, result, world, handler);
    }
  }

  // ---- what is reported ----

  /** The calls of the exception handler and the slow-callback warnings among `events`. */
  function ReportsIn(events: seq<Event>): seq<Event> {
    if events == [] then []
    else (if events[0].Handled? || events[0].Warned? then [events[0]] else []) + ReportsIn(events[1..])
  }

  /** The reports owed for these invocations: each failure that is not fatal, if there is a
      handler; each slow success, if debugging with a warning handler. */
  function ReportsDue(invoked: seq<Callback>, world: World, cfg: Config): seq<Event> {
    if invoked == [] then []
    else DueFor(invoked[0], Now(world), cfg) + ReportsDue(invoked[1..], Later(world), cfg)
  }

  function DueFor(cb: Callback, o: Outcome, cfg: Config): seq<Event> {
    match o.failure
    case Some(failure) => if cfg.handler && !failure.fatal then [Handled(cb)] else []
    case None => if o.slow && cfg.debug && cfg.warns then [Warned(cb)] else []
  }

  lemma {:induction false} ReportsConcat(a: seq<Event>, b: seq<Event>)
    ensures ReportsIn(a + b) == ReportsIn(a) + ReportsIn(b)
  {
    if a == [] {
      assert a + b == b;
    } else {
      ReportsConcat(a[1..], b);
      assert (a + b)[0] == a[0] && (a + b)[1..] == a[1..] + b;
      Associate(if a[0].Handled? || a[0].Warned? then [a[0]] else [], ReportsIn(a[1..]), ReportsIn(b));
    }
  }

  ghost predicate Unreported(events: seq<Event>) {
    forall k :: 0 <= k < |events| ==> !events[k].Handled? && !events[k].Warned?
  }

  lemma {:induction false} NoReports(events: seq<Event>)
    requires Unreported(events)
    ensures ReportsIn(events) == []
  {
    if events != [] {
      NoReports(events[1..]);
    }
  }

  lemma IterationReports(cb: Callback, o: Outcome, cfg: Config, counter: nat, mem: Memory)
    ensures ReportsIn(EventsOf(cb, o, cfg, counter, mem)) == DueFor(cb, o, cfg)
  {
    var first, last := IterationParts(cb, o, cfg, counter, mem);
    ReportsAmid(first, DueFor(cb, o, cfg), last);
  }

  lemma IterationParts(cb: Callback, o: Outcome, cfg: Config, counter: nat, mem: Memory)
    returns (first: seq<Event>, last: seq<Event>)
    ensures EventsOf(cb, o, cfg, counter, mem) == first + (DueFor(cb, o, cfg) + last)
    ensures Unreported(first) && Unreported(last)
  {
    first := Acquired(cb, cfg.debug, mem) + [Called(cb)];
    last := Released(cb, cfg.debug, mem);
    assert Unreported(first) && Unreported(last);
    var tail := if o.failure.Some? then CleanedUp(cb) else if Yields(o, cfg, counter) then [Yielded] else [];
    Associate(DueFor(cb, o, cfg), last, tail);
    last := last + tail;
  }

  lemma ReportsAmid(first: seq<Event>, due: seq<Event>, last: seq<Event>)
    requires Unreported(first) && Unreported(last)
    requires |due| <= 1 && forall k :: 0 <= k < |due| ==> due[k].Handled? || due[k].Warned?
    ensures ReportsIn(first + (due + last)) == due
  {
    NoReports(first);
    NoReports(last);
    ReportsConcat(due, last);
    ReportsConcat(first, due + last);
    OneReport(due);
  }

  lemma OneReport(due: seq<Event>)
    requires |due| <= 1 && forall k :: 0 <= k < |due| ==> due[k].Handled? || due[k].Warned?
    ensures ReportsIn(due) == due
  {
    if due != [] {
      assert due[1..] == [];
    }
  }

  /** In every drain the exception handler is called for exactly the failures that are not
      fatal, in order, if there is a handler, the one that stops the drain included; and a
      warning is given for exactly the slow successes. */
  lemma {:induction false} DrainReportsExactly(
    q: Queue, world: World, cfg: Config, executed: nat, counter: nat, mem: Memory)
    ensures var log := Drain(q, world, cfg, executed, counter, mem).log;
            ReportsIn(log.events) == ReportsDue(log.invoked, world, cfg)
    decreases |world|, |q.items|
  {
    if q.items != [] {
      var cb, o := q.items[0], Now(world);
      IterationReports(cb, o, cfg, counter, mem);
      match VerdictOn(o, cfg)
      case Stop(_) => assert ReportsDue([cb][1..], Later(world), cfg) == [];
      case Continue =>
        var q', next := After(Drop(q), PushesOf(o, cfg)), NextCounter(o, cfg, counter);
        DrainReportsExactly(q', Later(world), cfg, executed + 1, next, mem);
        var rest := Drain(q', Later(world), cfg, executed + 1, next, mem).log;
        ReportsConcat(EventsOf(cb, o, cfg, counter, mem), rest.events);
        assert ([cb] + rest.invoked)[1..] == rest.invoked;
    }
  }

  // ---- how often the lock is given up ----

  /** The threshold is 64 doubled once for every factor of four by which the queue found at
      the start exceeds 64, up to three times. */
  lemma ThresholdGrowsWithQueue(initialCount: nat)
    ensures exists k: nat {:trigger Pow2(k)} ::
              && k <= 3 && YieldThreshold(initialCount) == 64 * Pow2(k)
              && (k < 3 ==> initialCount <= 64 * Pow2(2 * k))
              && (k > 0 ==> initialCount > 64 * Pow2(2 * (k - 1)))
  {
    var k := if initialCount <= 64 then 0 else if initialCount <= 256 then 1 else if initialCount <= 1024 then 2 else 3;
    assert Pow2(0) == 1 && Pow2(1) == 2 && Pow2(2) == 4 && Pow2(3) == 8 && Pow2(4) == 16;
    assert YieldThreshold(initialCount) == 64 * Pow2(k);
  }

  // ---- nothing pushed meanwhile is forgotten ----

  /** The callbacks that one invocation's surroundings push: the callback itself, then the
      exception handler if it is called, then the rest. */
  function PushedAt(o: Outcome, handler: bool): seq<Op> {
    o.pushes
    + (if o.failure.Some? && !o.failure.value.fatal && handler then o.handlerPushes else [])
    + o.latePushes
  }

  /** The callbacks that `ops` push. */
  function CallbacksOf(ops: seq<Op>): seq<Callback> {
    if ops == [] then [] else CallbacksOf(ops[..|ops| - 1]) + CallbackOf(ops[|ops| - 1])
  }

  function CallbackOf(op: Op): seq<Callback> {
    match op
    case TryPush(cb) => [cb]
    case Push(cb) => [cb]
    case PushOrGrow(cb, _) => [cb]
    case _ => []
  }

  /** The pushes made during each of the first `n` invocations. */
  function Rounds(world: World, handler: bool, n: nat): seq<seq<Op>>
    decreases n
  {
    if n == 0 then [] else [PushedAt(Now(world), handler)] + Rounds(Later(world), handler, n - 1)
  }

  function Together(rounds: seq<seq<Op>>): seq<Op> {
    if rounds == [] then [] else rounds[0] + Together(rounds[1..])
  }

  /** Pushes that grow the ring when they must, with memory to be had, and few enough. */
  ghost predicate Roomy(ops: seq<Op>, limit: int) {
    && |ops| <= limit
    && forall k :: 0 <= k < |ops| ==> ops[k].PushOrGrow? && ops[k].memory
  }

  lemma RoomySplit(a: seq<Op>, b: seq<Op>, limit: int)
    requires Roomy(a + b, limit)
    ensures Roomy(a, limit) && Roomy(b, limit - |a|)
  {
    assert forall k :: 0 <= k < |a| ==> (a + b)[k] == a[k];
    assert forall k :: 0 <= k < |b| ==> (a + b)[|a| + k] == b[k];
  }

  lemma {:induction false} RoomyStored(q: Queue, ops: seq<Op>)
    requires Roomy(ops, MAX_WORD / 2 + 1 - |q.items|)
    ensures Accepted(q, ops) == CallbacksOf(ops)
    ensures |After(q, ops).items| == |q.items| + |ops|
  {
    if ops != [] {
      var before := ops[..|ops| - 1];
      RoomyStored(q, before);
      OnePushStored(After(q, before), ops[|ops| - 1].cb);
    }
  }

  lemma {:induction false} CallbacksConcat(a: seq<Op>, b: seq<Op>)
    ensures CallbacksOf(a + b) == CallbacksOf(a) + CallbacksOf(b)
  {
    if b == [] {
      assert a + b == a;
    } else {
      CallbacksConcat(a, b[..|b| - 1]);
      assert (a + b)[..|a + b| - 1] == a + b[..|b| - 1];
      Associate(CallbacksOf(a), CallbacksOf(b[..|b| - 1]), CallbackOf(b[|b| - 1]));
    }
  }

  /** What a ring accepts in iterations that push `rounds`. */
  function AcceptedOver(q: Queue, rounds: seq<seq<Op>>): seq<Callback>
    decreases |rounds|
  {
    if rounds == [] || q.items == [] then []
    else Accepted(Drop(q), rounds[0]) + AcceptedOver(After(Drop(q), rounds[0]), rounds[1..])
  }

  /** The ring does not run empty before the last of these iterations. */
  predicate Lasts(q: Queue, rounds: seq<seq<Op>>)
    decreases |rounds|
  {
    rounds == [] || (q.items != [] && Lasts(After(Drop(q), rounds[0]), rounds[1..]))
  }

  lemma {:induction false} EverythingAccepted(q: Queue, rounds: seq<seq<Op>>)
    requires Lasts(q, rounds) && Roomy(Together(rounds), MAX_WORD / 2 + 1 - |q.items|)
    ensures AcceptedOver(q, rounds) == CallbacksOf(Together(rounds))
    decreases |rounds|
  {
    if rounds != [] {
      RoomySplit(rounds[0], Together(rounds[1..]), MAX_WORD / 2 + 1 - |q.items|);
      RoomyStored(Drop(q), rounds[0]);
      CallbacksConcat(rounds[0], Together(rounds[1..]));
      EverythingAccepted(After(Drop(q), rounds[0]), rounds[1..]);
    }
  }

  // The same for the iterations of a drain.

  function AcceptedDuring(q: Queue, world: World, cfg: Config, n: nat): seq<Callback>
    decreases n
  {
    if n == 0 || q.items == [] then []
    else
      var ops := PushesOf(Now(world), cfg);
      Accepted(Drop(q), ops) + AcceptedDuring(After(Drop(q), ops), Later(world), cfg, n - 1)
  }

  predicate LastsDuring(q: Queue, world: World, cfg: Config, n: nat)
    decreases n
  {
    n == 0 || (q.items != [] && LastsDuring(After(Drop(q), PushesOf(Now(world), cfg)), Later(world), cfg, n - 1))
  }

  lemma {:induction false} DrainAccepts(
    q: Queue, world: World, cfg: Config, executed: nat, counter: nat, mem: Memory)
    ensures var d := Drain(q, world, cfg, executed, counter, mem);
            d.accepted == AcceptedDuring(q, world, cfg, |d.log.invoked|)
    decreases |world|, |q.items|
  {
    if q.items != [] {
      var q', next := After(Drop(q), PushesOf(Now(world), cfg)), NextCounter(Now(world), cfg, counter);
      if VerdictOn(Now(world), cfg).Continue? {
        DrainAccepts(q', Later(world), cfg, executed + 1, next, mem);
      } else {
        var accepted := Accepted(Drop(q), PushesOf(Now(world), cfg));
        assert AcceptedDuring(q, world, cfg, 1) == accepted + [] == accepted;
      }
    }
  }

  lemma {:induction false} DrainLasts(
    q: Queue, world: World, cfg: Config, executed: nat, counter: nat, mem: Memory)
    ensures LastsDuring(q, world, cfg, |Drain(q, world, cfg, executed, counter, mem).log.invoked|)
    decreases |world|, |q.items|
  {
    if q.items != [] && VerdictOn(Now(world), cfg).Continue? {
      var q', next := After(Drop(q), PushesOf(Now(world), cfg)), NextCounter(Now(world), cfg, counter);
      DrainLasts(q', Later(world), cfg, executed + 1, next, mem);
    }
  }

  lemma {:induction false} AcceptedInRounds(q: Queue, world: World, cfg: Config, n: nat)
    ensures AcceptedDuring(q, world, cfg, n) == AcceptedOver(q, Rounds(world, cfg.handler, n))
    decreases n
  {
    if n > 0 && q.items != [] {
      var ops := FirstRound(q, world, cfg, n);
      AcceptedInRounds(After(Drop(q), ops), Later(world), cfg, n - 1);
      OneMoreRound(q, ops, Rounds(Later(world), cfg.handler, n - 1));
    }
  }

  lemma {:induction false} LastsInRounds(q: Queue, world: World, cfg: Config, n: nat)
    ensures LastsDuring(q, world, cfg, n) <==> Lasts(q, Rounds(world, cfg.handler, n))
    decreases n
  {
    if n > 0 && q.items != [] {
      var ops := FirstRound(q, world, cfg, n);
      LastsInRounds(After(Drop(q), ops), Later(world), cfg, n - 1);
      OneMoreRound(q, ops, Rounds(Later(world), cfg.handler, n - 1));
    }
  }

  lemma FirstRound(q: Queue, world: World, cfg: Config, n: nat) returns (ops: seq<Op>)
    requires n > 0 && q.items != []
    ensures Rounds(world, cfg.handler, n) == [ops] + Rounds(Later(world), cfg.handler, n - 1)
    ensures AcceptedDuring(q, world, cfg, n)
         == Accepted(Drop(q), ops) + AcceptedDuring(After(Drop(q), ops), Later(world), cfg, n - 1)
    ensures LastsDuring(q, world, cfg, n) <==> LastsDuring(After(Drop(q), ops), Later(world), cfg, n - 1)
  {
    ops := PushesOf(Now(world), cfg);
    assert ops == PushedAt(Now(world), cfg.handler);
  }

  lemma OneMoreRound(q: Queue, ops: seq<Op>, rounds: seq<seq<Op>>)
    requires q.items != []
    ensures AcceptedOver(q, [ops] + rounds) == Accepted(Drop(q), ops) + AcceptedOver(After(Drop(q), ops), rounds)
    ensures Lasts(q, [ops] + rounds) <==> Lasts(After(Drop(q), ops), rounds)
  {
    assert ([ops] + rounds)[1..] == rounds;
  }

  /** A drain, however it ends, in which every push may grow the ring: what it invoked
      followed by what it left is what it found followed by everything pushed while it ran. */
  lemma DrainForgetsNothing(q: Queue, world: World, cfg: Config, mem: Memory)
    requires var n := |Drain(q, world, cfg, 0, 0, mem).log.invoked|;
             Roomy(Together(Rounds(world, cfg.handler, n)), MAX_WORD / 2 + 1 - |q.items|)
    ensures var d := Drain(q, world, cfg, 0, 0, mem);
            var pushed := Together(Rounds(world, cfg.handler, |d.log.invoked|));
            q.items + CallbacksOf(pushed) == d.log.invoked + d.left.items
  {
    var n := |Drain(q, world, cfg, 0, 0, mem).log.invoked|;
    DrainAccepts(q, world, cfg, 0, 0, mem);
    DrainLasts(q, world, cfg, 0, 0, mem);
    AcceptedInRounds(q, world, cfg, n);
    LastsInRounds(q, world, cfg, n);
    EverythingAccepted(q, Rounds(world, cfg.handler, n));
    DrainConserves(q, world, cfg, 0, 0, mem);
  }
}
