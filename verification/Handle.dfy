// A scheduled Python callback: dispatching it from the ready queue, cancelling it,
// and who drops the queue's reference to it.

module Handle {
  import opened Common
  import opened CallbackPayload
  import opened RingModel
  import opened QueueSpec
  import D = DrainSpec

  datatype State = Pending | Executed | Cancelled

  /** How the interpreter answers during one dispatch. */
  datatype Interpreter = Interpreter(
    entersContext: bool, makesTuple: bool, setItemFailsAt: Option<nat>, callSucceeds: bool)

  /** A dispatch that returns without error drops the reference itself; one that fails
      leaves that to the cleanup the drain runs. */
  function DroppedInside(ok: bool): nat {
    if ok then 1 else 0
  }

  /** References a cleanup drops. */
  const DROPPED_BY_RELEASE: nat := 1

  /** A dispatch may run the callback: nobody cancelled it first. */
  predicate MayRun(threadSafe: bool, flagged: bool, state: State) {
    !flagged && if threadSafe then state == Pending else state != Cancelled
  }

  /** The state a dispatch leaves. */
  function StateAfter(threadSafe: bool, flagged: bool, state: State): State {
    if MayRun(threadSafe, flagged, state) then Executed
    else if threadSafe && state == Pending then Cancelled
    else state
  }

  /** The state a cancel leaves, and the timer cancellations it queues. */
  function StateAfterCancel(state: State): State {
    if state == Pending then Cancelled else state
  }

  function TimersCancelled(state: State, timerId: nat, queueAccepts: bool): seq<nat> {
    if state == Pending && timerId > 0 && queueAccepts then [timerId] else []
  }

  /** Known before a dispatch: a cancelled handle stays so; a pending one must be reachable
      to run, or thread-safe to be marked when it is flagged; a thread-safe handle that has
      been executed is not run again. */
  predicate ReadsRight(threadSafe: bool, flagged: bool, state: State, reaches: bool) {
    || state == Cancelled
    || (threadSafe && state == Pending && (flagged || reaches))
    || (!threadSafe && !flagged && reaches)
  }

  /** Exactly when, after a dispatch, the handle reads as cancelled if and only if the
      dispatch did not run the callback. `reaches`: a claimed dispatch reaches the call. */
  lemma CancelledMeansNotRun(threadSafe: bool, flagged: bool, state: State, reaches: bool)
    ensures var cancelled := StateAfter(threadSafe, flagged, state) == Cancelled;
            var run := MayRun(threadSafe, flagged, state) && reaches;
            cancelled == !run <==> ReadsRight(threadSafe, flagged, state, reaches)
  {
  }

  /** Teardown neither runs a pending handle that is not thread-safe nor marks it cancelled. */
  lemma TeardownLeavesPending(reaches: bool)
    ensures !MayRun(false, true, Pending) && StateAfter(false, true, Pending) == Pending
    ensures !ReadsRight(false, true, Pending, reaches)
  {
  }

  class PythonHandle {
    const hasContext: bool
    const pyCallback: Option<Object>
    const pyArgs: Option<seq<Object>>
    const threadSafe: bool
    var state: State
    var blockingTaskId: nat

    /** References to the handle dropped so far, calls made with their arguments, contexts
        entered and not left, and timer cancellations queued. */
    ghost var dropped: nat
    ghost var calls: seq<seq<Object>>
    ghost var contextDepth: nat
    ghost var cancelTimers: seq<nat>

    constructor (hasContext: bool, pyCallback: Option<Object>, pyArgs: Option<seq<Object>>,
                 threadSafe: bool, blockingTaskId: nat)
      ensures state == Pending && this.blockingTaskId == blockingTaskId
      ensures this.hasContext == hasContext && this.pyCallback == pyCallback
      ensures this.pyArgs == pyArgs && this.threadSafe == threadSafe
      ensures dropped == 0 && calls == [] && contextDepth == 0 && cancelTimers == []
    {
      this.hasContext, this.pyCallback, this.pyArgs := hasContext, pyCallback, pyArgs;
      this.threadSafe, state, this.blockingTaskId := threadSafe, Pending, blockingTaskId;
      dropped, calls, contextDepth, cancelTimers := 0, [], 0, [];
    }

    /** The interpreter lets a claimed dispatch reach the call. */
    predicate Reaches(py: Interpreter) {
      && hasContext && py.entersContext && pyCallback.Some?
      && (pyArgs.Some? ==>
            && py.makesTuple && AllItemsSet(py))
    }

    /** No item of the stored arguments fails to be put into the tuple. */
    predicate AllItemsSet(py: Interpreter) {
      pyArgs.Some? && py.setItemFailsAt.Some? ==> py.setItemFailsAt.value >= |pyArgs.value|
    }

    /** A dispatch that may run and cannot be stopped by the interpreter before the call
        makes the call, once, with the stored arguments in order; no other dispatch does. */
    method Dispatch(flagged: bool, py: Interpreter) returns (ok: bool)
      modifies this
      ensures dropped == old(dropped) + DroppedInside(ok)
      ensures blockingTaskId == 0 && contextDepth == old(contextDepth)
      ensures cancelTimers == old(cancelTimers)
      ensures state == StateAfter(threadSafe, flagged, old(state))
      ensures !flagged && old(state) == Pending && hasContext && py.entersContext
              && pyCallback.Some? && pyArgs.None? ==>
                calls == old(calls) + [[]] && (ok <==> py.callSucceeds)
      ensures !flagged && old(state) == Pending && hasContext && py.entersContext
              && pyCallback.Some? && pyArgs.Some? && py.makesTuple && AllItemsSet(py) ==>
                calls == old(calls) + [pyArgs.value] && (ok <==> py.callSucceeds)
      ensures flagged || old(state) == Cancelled || (threadSafe && old(state) != Pending) ==> calls == old(calls) && ok
      ensures !hasContext ==> calls == old(calls) && ok
      ensures hasContext && MayRun(threadSafe, flagged, old(state)) && !py.entersContext ==> calls == old(calls) && !ok
      ensures calls == old(calls) +
                if MayRun(threadSafe, flagged, old(state)) && Reaches(py)
                then [if pyArgs.Some? then pyArgs.value else []] else []
      ensures ok <==> (!MayRun(threadSafe, flagged, old(state)) || !hasContext
                       || (py.entersContext && pyCallback.None?)
                       || (Reaches(py) && py.callSucceeds))
    {
      if threadSafe {
        if flagged {
          if state == Pending { state := Cancelled; }
          blockingTaskId := 0;
          dropped := dropped + 1;
          return true;
        }
        if state != Pending {
          blockingTaskId := 0;
          dropped := dropped + 1;
          return true;
        }
        state := Executed;
        blockingTaskId := 0;
      } else {
        if flagged || state == Cancelled {
          blockingTaskId := 0;
          dropped := dropped + 1;
          return true;
        }
        state := Executed;
        blockingTaskId := 0;
      }
      if !hasContext {
        dropped := dropped + 1;
        return true;
      }
      if !py.entersContext {
        return false;
      }
      contextDepth := contextDepth + 1;
      ok := RunInContext(py);
      contextDepth := contextDepth - 1;
      if ok {
        dropped := dropped + 1;
      }
    }

    /** The part of a dispatch between entering and leaving the context. */
    method RunInContext(py: Interpreter) returns (ok: bool)
      requires hasContext && py.entersContext
      modifies this`calls
      ensures calls == old(calls) +
                if Reaches(py) then [if pyArgs.Some? then pyArgs.value else []] else []
      ensures ok <==> pyCallback.None? || (Reaches(py) && py.callSucceeds)
    {
      if pyCallback.None? {
        return true;
      }
      if pyArgs.Some? {
        var args := pyArgs.value;
        if !py.makesTuple {
          return false;
        }
        var tuple: seq<Object> := [];
        for i := 0 to |args|
          invariant tuple == args[..i]
          invariant py.setItemFailsAt.Some? ==> py.setItemFailsAt.value >= i
        {
          if py.setItemFailsAt == Some(i) {
            return false;
          }
          tuple := tuple + [args[i]];
        }
        assert args[..|args|] == args;
        calls := calls + [tuple];
      } else {
        calls := calls + [[]];
      }
      return py.callSucceeds;
    }

    /** Only the first cancel of a pending handle has an effect: it decides the state and
        queues the cancellation of the timer that would dispatch the handle, if any. */
    method FastCancel(queueAccepts: bool) returns (ok: bool)
      modifies this`state, this`cancelTimers
      ensures state == StateAfterCancel(old(state))
      ensures state == if old(state) == Pending then Cancelled else old(state)
      ensures cancelTimers == old(cancelTimers) + TimersCancelled(old(state), blockingTaskId, queueAccepts)
      ensures cancelTimers == old(cancelTimers) +
                if old(state) == Pending && blockingTaskId > 0 && queueAccepts
                then [blockingTaskId] else []
      ensures ok <==> !(old(state) == Pending && blockingTaskId > 0 && !queueAccepts)
    {
      if state != Pending {
        return true;
      }
      state := Cancelled;
      var id := blockingTaskId;
      if id > 0 {
        if !queueAccepts {
          return false;
        }
        cancelTimers := cancelTimers + [id];
      }
      return true;
    }

    /** The cleanup the drain runs when a dispatch failed. */
    method Release()
      modifies this`dropped
      ensures dropped == old(dropped) + DROPPED_BY_RELEASE
    {
      dropped := dropped + 1;
    }

    /** A dispatch with the cleanup that a drain runs after a failure: whichever way the
        dispatch ended, one reference is gone and the context has been left. */
    method Serve(flagged: bool, py: Interpreter)
      modifies this
      ensures calls == old(calls) +
                if MayRun(threadSafe, flagged, old(state)) && Reaches(py)
                then [if pyArgs.Some? then pyArgs.value else []] else []
      ensures dropped == old(dropped) + 1 && contextDepth == old(contextDepth)
      ensures state == StateAfter(threadSafe, flagged, old(state)) && blockingTaskId == 0
      ensures (state == Cancelled) == (calls == old(calls))
         <==> ReadsRight(threadSafe, flagged, old(state), Reaches(py))
    {
      CancelledMeansNotRun(threadSafe, flagged, state, Reaches(py));
      var ok := Dispatch(flagged, py);
      if !ok {
        Release();
      }
    }
  }

  // ---- one dropped reference per dispatch, whichever drain ----

  const RELEASE: nat := 1

  /** The callback dispatches a handle and owns one reference to it. */
  predicate OwnsHandle(cb: Callback) {
    cb.cleanup == Some(RELEASE)
  }

  function HandlesOf(invoked: seq<Callback>): seq<Object> {
    if invoked == [] then [] else [invoked[0].data.userData] + HandlesOf(invoked[1..])
  }

  /** `n` references to one handle. */
  function Times(h: Object, n: nat): seq<Object> {
    if n == 0 then [] else [h] + Times(h, n - 1)
  }

  /** References dropped inside the dispatches, by handle. */
  function DroppedByDispatch(invoked: seq<Callback>, world: D.World): seq<Object> {
    if invoked == [] then []
    else
      Times(invoked[0].data.userData, DroppedInside(D.Now(world).failure.None?))
      + DroppedByDispatch(invoked[1..], D.Later(world))
  }

  /** References dropped by the cleanups that are `Release`, by handle. */
  function DroppedByCleanup(cleaned: seq<(nat, Object)>): seq<Object> {
    if cleaned == [] then []
    else
      (if cleaned[0].0 == RELEASE then Times(cleaned[0].1, DROPPED_BY_RELEASE) else [])
      + DroppedByCleanup(cleaned[1..])
  }

  lemma {:induction false} OneDropEach(invoked: seq<Callback>, world: D.World)
    requires forall cb :: cb in invoked ==> OwnsHandle(cb)
    ensures multiset(DroppedByDispatch(invoked, world))
          + multiset(DroppedByCleanup(D.FailedOnes(invoked, world)))
         == multiset(HandlesOf(invoked))
  {
    if invoked != [] {
      var rest, h := invoked[1..], invoked[0].data.userData;
      OneDropEach(rest, D.Later(world));
      assert OwnsHandle(invoked[0]);
      Prepend(h, DroppedByDispatch(rest, D.Later(world)));
      Prepend(h, HandlesOf(rest));
      var cleaned := D.FailedOnes(rest, D.Later(world));
      Prepend(h, DroppedByCleanup(cleaned));
      CleanupPrepended(h, cleaned);
    }
  }

  lemma Prepend<T>(x: T, s: seq<T>)
    ensures multiset([x] + s) == multiset{x} + multiset(s)
    ensures [] + s == s
  {
  }

  lemma CleanupPrepended(h: Object, cleaned: seq<(nat, Object)>)
    ensures DroppedByCleanup([(RELEASE, h)] + cleaned) == [h] + DroppedByCleanup(cleaned)
    ensures [] + cleaned == cleaned
  {
    assert ([(RELEASE, h)] + cleaned)[1..] == cleaned;
    assert Times(h, DROPPED_BY_RELEASE) == [h];
  }

  /** However a drain of handles ends, each dispatch made dropped exactly one reference
      to its handle, inside the dispatch or in the cleanup. */
  lemma DrainDropsOneReferenceEach(q: Queue, world: D.World, cfg: D.Config, mem: Memory)
    requires forall cb :: cb in D.Drain(q, world, cfg, 0, 0, mem).log.invoked ==> OwnsHandle(cb)
    ensures var log := D.Drain(q, world, cfg, 0, 0, mem).log;
            var inside, after := DroppedByDispatch(log.invoked, world), DroppedByCleanup(D.CleanedIn(log.events));
            multiset(inside) + multiset(after) == multiset(HandlesOf(D.CalledIn(log.events)))
  {
    D.DrainCleansFailures(q, world, cfg, 0, 0, mem);
    OneDropEach(D.Drain(q, world, cfg, 0, 0, mem).log.invoked, world);
  }

  /** The same at teardown, which leaves no handle in the ring. */
  lemma TeardownDropsOneReferenceEach(q: Queue, world: D.World)
    requires forall cb :: cb in D.Teardown(q, world).log.invoked ==> OwnsHandle(cb)
    ensures var d := D.Teardown(q, world);
            var inside, after := DroppedByDispatch(d.log.invoked, world), DroppedByCleanup(D.CleanedIn(d.log.events));
            multiset(inside) + multiset(after) == multiset(HandlesOf(q.items + d.accepted))
  {
    D.TeardownCallsCancelled(q, world);
    D.TeardownConserves(q, world);
    assert D.Teardown(q, world).log.invoked == q.items + D.Teardown(q, world).accepted;
    OneDropEach(D.Teardown(q, world).log.invoked, world);
  }
}
