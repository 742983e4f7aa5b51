// One dispatch of a thread-safe handle racing with any number of threads that
// cancel it. Every step is one atomic load, store or compare-and-swap.

module HandleRace {
  import opened Common
  import opened Handle

  /** What is fixed for a handle and its one dispatch. */
  datatype Setup = Setup(
    flagged: bool, hasContext: bool, entersContext: bool, hasCallback: bool,
    makesTuple: bool, callSucceeds: bool, timerId: nat)

  /** A dispatch that claims the handle reaches the Python call. */
  predicate Reaches(c: Setup) {
    c.hasContext && c.entersContext && c.hasCallback && c.makesTuple
  }

  datatype Dispatcher =
    | Queued
    | Claimed      // won the compare-and-swap; the timer id is still set
    | Bailing      // lost it, or the payload was flagged
    | Dropping     // about to drop the reference without having called
    | Entering     // the timer id is cleared, the context not yet entered
    | InPython
    | Succeeded
    | Returned(ok: bool)
    | CleanedUp    // the drain has run the cleanup if there was an error

  datatype Canceller =
    | Starting
    | WonSwap
    | LoadedId(id: nat)
    | Finished

  datatype World = World(
    state: State, blockingTaskId: nat, dispatcher: Dispatcher,
    cancellers: map<nat, Canceller>,
    dropped: nat, calls: nat, cancelTimers: seq<nat>, winner: Option<nat>)

  datatype Action =
    | Swap
    | ClearId
    | DropReference
    | Enter
    | ReturnFromPython
    | Cleanup
    | BeginCancel(t: nat)
    | SwapCancel(t: nat)
    | LoadId(t: nat)
    | QueueCancelTimer(t: nat, accepted: bool)

  predicate At(w: World, t: nat, c: Canceller) {
    t in w.cancellers && w.cancellers[t] == c
  }

  predicate Enabled(w: World, a: Action) {
    match a
    case Swap => w.dispatcher.Queued?
    case ClearId => w.dispatcher.Claimed? || w.dispatcher.Bailing?
    case DropReference => w.dispatcher.Dropping? || w.dispatcher.Succeeded?
    case Enter => w.dispatcher.Entering?
    case ReturnFromPython => w.dispatcher.InPython?
    case Cleanup => w.dispatcher.Returned?
    case BeginCancel(t) => t !in w.cancellers
    case SwapCancel(t) => At(w, t, Starting)
    case LoadId(t) => At(w, t, WonSwap)
    case QueueCancelTimer(t, _) => t in w.cancellers && w.cancellers[t].LoadedId?
  }

  function Move(w: World, t: nat, c: Canceller): World {
    w.(cancellers := w.cancellers[t := c])
  }

  function Step(c: Setup, w: World, a: Action): World
    requires Enabled(w, a)
  {
    match a
    case Swap =>
      if c.flagged then
        w.(state := if w.state == Pending then Cancelled else w.state, dispatcher := Bailing)
      else if w.state == Pending then w.(state := Executed, dispatcher := Claimed)
      else w.(dispatcher := Bailing)
    case ClearId =>
      w.(blockingTaskId := 0, dispatcher := if w.dispatcher.Claimed? then Entering else Dropping)
    case DropReference => w.(dropped := w.dropped + 1, dispatcher := Returned(true))
    case Enter =>
      if !c.hasContext then w.(dispatcher := Dropping)
      else if !c.entersContext then w.(dispatcher := Returned(false))
      else if !c.hasCallback then w.(dispatcher := Succeeded)
      else if !c.makesTuple then w.(dispatcher := Returned(false))
      else w.(calls := w.calls + 1, dispatcher := InPython)
    case ReturnFromPython =>
      w.(dispatcher := if c.callSucceeds then Succeeded else Returned(false))
    case Cleanup =>
      w.(dropped := if w.dispatcher.ok then w.dropped else w.dropped + 1, dispatcher := CleanedUp)
    case BeginCancel(t) => Move(w, t, Starting)
    case SwapCancel(t) =>
      if w.state == Pending then Move(w, t, WonSwap).(state := Cancelled, winner := Some(t))
      else Move(w, t, Finished)
    case LoadId(t) =>
      Move(w, t, if w.blockingTaskId > 0 then LoadedId(w.blockingTaskId) else Finished)
    case QueueCancelTimer(t, accepted) =>
      Move(w, t, Finished).(
        cancelTimers := w.cancelTimers + if accepted then [w.cancellers[t].id] else [])
  }

  predicate Initial(c: Setup, w: World) {
    && w.state == Pending && w.blockingTaskId == c.timerId && w.dispatcher == Queued
    && w.cancellers == map[] && w.dropped == w.calls == 0
    && w.cancelTimers == [] && w.winner == None
  }

  /** Worlds after each of `actions`, by any interleaving. */
  ghost predicate IsRun(c: Setup, run: seq<World>, actions: seq<Action>) {
    && |run| == |actions| + 1
    && Initial(c, run[0])
    && forall k :: 0 <= k < |actions| ==> IsStep(c, run[k], actions[k], run[k + 1])
  }

  ghost predicate IsStep(c: Setup, w: World, a: Action, w': World) {
    Enabled(w, a) && w' == Step(c, w, a)
  }

  // ---- the invariant ----

  predicate HasRun(w: World) {
    w.dispatcher.InPython? || w.dispatcher.Succeeded? || w.dispatcher.Returned? || w.dispatcher.CleanedUp?
  }

  predicate PastClear(w: World) {
    !w.dispatcher.Queued? && !w.dispatcher.Claimed? && !w.dispatcher.Bailing?
  }

  ghost predicate DispatcherHolds(c: Setup, w: World) {
    && (w.state == Pending <==> w.dispatcher.Queued? && w.winner.None?)
    && (w.state == Executed ==> !w.dispatcher.Queued? && !w.dispatcher.Bailing? && w.winner.None? && !c.flagged)
    && (w.state == Cancelled ==>
          && w.calls == 0 && !w.dispatcher.Claimed? && !w.dispatcher.Entering?
          && !w.dispatcher.InPython? && !w.dispatcher.Succeeded?)
    && w.calls == (if w.state == Executed && Reaches(c) && HasRun(w) then 1 else 0)
    && (w.dispatcher.Dropping? ==> w.state == Cancelled || !Reaches(c))
    && w.dropped == (if w.dispatcher == Returned(true) || w.dispatcher.CleanedUp? then 1 else 0)
    && (w.dispatcher == Returned(false) ==> w.state == Executed)
    && (if PastClear(w) then w.blockingTaskId == 0 else w.blockingTaskId == c.timerId)
  }

  /** Only the canceller that won the swap is past it, and it queues at most once. */
  ghost predicate CancellersHold(c: Setup, w: World) {
    && (forall t :: t in w.cancellers && (w.cancellers[t].WonSwap? || w.cancellers[t].LoadedId?) ==>
          w.winner == Some(t) && w.cancelTimers == [])
    && (forall t :: t in w.cancellers && w.cancellers[t].LoadedId? ==>
          w.cancellers[t].id == c.timerId > 0)
    && (w.winner.Some? ==> w.state == Cancelled && w.winner.value in w.cancellers)
    && (w.winner.None? ==> w.cancelTimers == [])
    && (w.cancelTimers == [] || w.cancelTimers == [c.timerId])
  }

  ghost predicate Inv(c: Setup, w: World) {
    DispatcherHolds(c, w) && CancellersHold(c, w)
  }

  lemma StepKeepsInv(c: Setup, w: World, a: Action)
    requires Inv(c, w) && Enabled(w, a)
    ensures Inv(c, Step(c, w, a))
    ensures w.state != Pending ==> Step(c, w, a).state == w.state
    ensures w.cancelTimers <= Step(c, w, a).cancelTimers
    ensures w.winner.Some? ==> Step(c, w, a).winner == w.winner
    ensures w.calls <= Step(c, w, a).calls
  {
    DispatcherStep(c, w, a);
    CancellerStep(c, w, a);
  }

  lemma DispatcherStep(c: Setup, w: World, a: Action)
    requires Inv(c, w) && Enabled(w, a)
    ensures DispatcherHolds(c, Step(c, w, a))
  {
  }

  lemma CancellerStep(c: Setup, w: World, a: Action)
    requires Inv(c, w) && Enabled(w, a)
    ensures CancellersHold(c, Step(c, w, a))
  {
  }

  lemma {:induction false} RunKeepsInv(c: Setup, run: seq<World>, actions: seq<Action>, k: nat)
    requires IsRun(c, run, actions) && k < |run|
    ensures Inv(c, run[k])
    decreases k
  {
    if k > 0 {
      RunKeepsInv(c, run, actions, k - 1);
      assert IsStep(c, run[k - 1], actions[k - 1], run[k]);
      StepKeepsInv(c, run[k - 1], actions[k - 1]);
    }
  }

  // ---- what every run guarantees ----

  /** From any point of a run to any later one: a state that has left PENDING stays,
      a winning cancel stays the only one, and what has been queued stays queued. */
  lemma {:induction false} DecisionIsFinal(c: Setup, run: seq<World>, actions: seq<Action>, i: nat, j: nat)
    requires IsRun(c, run, actions) && i <= j < |run|
    ensures run[i].state != Pending ==> run[j].state == run[i].state
    ensures run[i].winner.Some? ==> run[j].winner == run[i].winner
    ensures run[i].cancelTimers <= run[j].cancelTimers
    ensures run[i].calls <= run[j].calls
    decreases j
  {
    if i < j {
      DecisionIsFinal(c, run, actions, i, j - 1);
      OneStepLater(c, run, actions, j - 1);
      PrefixTransitive(run[i].cancelTimers, run[j - 1].cancelTimers, run[j].cancelTimers);
    }
  }

  lemma OneStepLater(c: Setup, run: seq<World>, actions: seq<Action>, k: nat)
    requires IsRun(c, run, actions) && k < |actions|
    ensures run[k].state != Pending ==> run[k + 1].state == run[k].state
    ensures run[k].winner.Some? ==> run[k + 1].winner == run[k].winner
    ensures run[k].cancelTimers <= run[k + 1].cancelTimers
    ensures run[k].calls <= run[k + 1].calls
  {
    RunKeepsInv(c, run, actions, k);
    assert IsStep(c, run[k], actions[k], run[k + 1]);
    StepKeepsInv(c, run[k], actions[k]);
  }

  lemma PrefixTransitive(a: seq<nat>, b: seq<nat>, d: seq<nat>)
    requires a <= b <= d
    ensures a <= d
  {
  }

  /** The callback runs at most once, and never once a cancel has won, before or after. */
  lemma NeverRunAfterCancel(c: Setup, run: seq<World>, actions: seq<Action>, i: nat, j: nat)
    requires IsRun(c, run, actions) && i < |run| && j < |run|
    ensures run[j].calls <= 1
    ensures run[i].winner.Some? ==> run[j].calls == 0
    ensures run[i].state == Cancelled ==> run[j].calls == 0
  {
    RunKeepsInv(c, run, actions, i);
    RunKeepsInv(c, run, actions, j);
    if i <= j {
      DecisionIsFinal(c, run, actions, i, j);
    } else {
      DecisionIsFinal(c, run, actions, j, i);
    }
  }

  /** At most one timer cancellation is queued, for the handle's own timer, by the cancel
      that won; and none at all once a dispatch has claimed the handle, so a cancel made
      from inside the callback or after it queues nothing. */
  lemma OneCancelTimer(c: Setup, run: seq<World>, actions: seq<Action>, i: nat, j: nat)
    requires IsRun(c, run, actions) && i <= j < |run|
    ensures run[j].cancelTimers == [] ||
              (run[j].cancelTimers == [c.timerId] && run[j].winner.Some? && run[j].state == Cancelled)
    ensures run[i].state == Executed ==> run[j].cancelTimers == []
    ensures run[i].dispatcher.InPython? ==> run[i].blockingTaskId == 0 && run[i].state == Executed
  {
    RunKeepsInv(c, run, actions, i);
    RunKeepsInv(c, run, actions, j);
    DecisionIsFinal(c, run, actions, i, j);
  }

  /** A finished dispatch has dropped exactly one reference, cleanup included; no dispatch
      ever drops two. */
  lemma OneReferenceDropped(c: Setup, run: seq<World>, actions: seq<Action>, k: nat)
    requires IsRun(c, run, actions) && k < |run|
    ensures run[k].dropped <= 1
    ensures run[k].dispatcher.CleanedUp? ==> run[k].dropped == 1
  {
    RunKeepsInv(c, run, actions, k);
  }

  // ---- undisturbed, the steps make up one dispatch and one cancel ----

  /** The dispatcher's next step. */
  function NextStep(d: Dispatcher): Action
    requires !d.CleanedUp?
  {
    match d
    case Queued => Swap
    case Claimed | Bailing => ClearId
    case Dropping | Succeeded => DropReference
    case Entering => Enter
    case InPython => ReturnFromPython
    case Returned(_) => Cleanup
  }

  function StepsLeft(d: Dispatcher): nat {
    match d
    case Queued => 7
    case Claimed => 6
    case Entering => 5
    case InPython | Bailing => 4
    case Dropping => 3
    case Succeeded => 3
    case Returned(_) => 1
    case CleanedUp => 0
  }

  /** The dispatcher alone, to the end. */
  function Alone(c: Setup, w: World): World
    decreases StepsLeft(w.dispatcher)
  {
    if w.dispatcher.CleanedUp? then w else Alone(c, Step(c, w, NextStep(w.dispatcher)))
  }

  /** The dispatcher's steps, run alone from any reachable world, leave what a whole
      dispatch with its cleanup leaves. */
  lemma DispatchIsItsSteps(c: Setup, w: World)
    requires Inv(c, w) && w.dispatcher.Queued?
    ensures var run := MayRun(true, c.flagged, w.state) && Reaches(c);
            Alone(c, w) == w.(state := StateAfter(true, c.flagged, w.state), blockingTaskId := 0,
                              dispatcher := CleanedUp, calls := if run then 1 else 0, dropped := 1)
  {
    AloneFromRest(c, w);
  }

  /** The same from the compare-and-swap on. */
  lemma FromClaim(c: Setup, w: World)
    requires w.dispatcher.Claimed? || w.dispatcher.Bailing?
    ensures var run := w.dispatcher.Claimed? && Reaches(c);
            Alone(c, w) == w.(blockingTaskId := 0, dispatcher := CleanedUp,
                              calls := if run then w.calls + 1 else w.calls, dropped := w.dropped + 1)
  {
    var w1 := Step(c, w, ClearId);
    assert Alone(c, w) == Alone(c, w1);
    if w.dispatcher.Bailing? {
      ToTheEnd(c, w1);
    } else {
      var w2 := Step(c, w1, Enter);
      assert Alone(c, w1) == Alone(c, w2);
      if w2.dispatcher.InPython? {
        assert Alone(c, w2) == Alone(c, Step(c, w2, ReturnFromPython));
        ToTheEnd(c, Step(c, w2, ReturnFromPython));
      } else {
        ToTheEnd(c, w2);
      }
    }
  }

  lemma ToTheEnd(c: Setup, w: World)
    requires w.dispatcher.Dropping? || w.dispatcher.Succeeded? || w.dispatcher == Returned(false)
    ensures Alone(c, w) == w.(dispatcher := CleanedUp, dropped := w.dropped + 1)
  {
    var w1 := Step(c, w, NextStep(w.dispatcher));
    assert Alone(c, w) == Alone(c, w1);
    assert Alone(c, w1) == if w1.dispatcher.CleanedUp? then w1 else Alone(c, Step(c, w1, Cleanup));
  }

  /** A cancelling thread's next step. */
  function NextCancelStep(t: nat, d: Canceller, accepted: bool): Action
    requires !d.Finished?
  {
    match d
    case Starting => SwapCancel(t)
    case WonSwap => LoadId(t)
    case LoadedId(_) => QueueCancelTimer(t, accepted)
  }

  function CancelStepsLeft(d: Canceller): nat {
    match d
    case Starting => 3
    case WonSwap => 2
    case LoadedId(_) => 1
    case Finished => 0
  }

  /** One cancelling thread alone, to the end. */
  function CancelAlone(c: Setup, w: World, t: nat, accepted: bool): World
    requires t in w.cancellers
    decreases CancelStepsLeft(w.cancellers[t])
  {
    if w.cancellers[t].Finished? then w
    else CancelAlone(c, Step(c, w, NextCancelStep(t, w.cancellers[t], accepted)), t, accepted)
  }

  /** A cancel's steps, run alone, leave what a whole cancel leaves. */
  lemma CancelIsItsSteps(c: Setup, w: World, t: nat, accepted: bool)
    requires Enabled(w, BeginCancel(t))
    ensures CancelAlone(c, Step(c, w, BeginCancel(t)), t, accepted)
         == Move(w, t, Finished).(
              state := StateAfterCancel(w.state),
              cancelTimers := w.cancelTimers + TimersCancelled(w.state, w.blockingTaskId, accepted),
              winner := if w.state == Pending then Some(t) else w.winner)
  {
    var w1 := Step(c, w, BeginCancel(t));
    var w2 := Step(c, w1, SwapCancel(t));
    assert CancelAlone(c, w1, t, accepted) == CancelAlone(c, w2, t, accepted);
    if w.state == Pending {
      var w3 := Step(c, w2, LoadId(t));
      assert CancelAlone(c, w2, t, accepted) == CancelAlone(c, w3, t, accepted);
      if w3.cancellers[t].LoadedId? {
        var w4 := Step(c, w3, QueueCancelTimer(t, accepted));
        assert CancelAlone(c, w3, t, accepted) == CancelAlone(c, w4, t, accepted);
      }
    }
  }

  // ---- the object and the race ----

  /** What is fixed for the race, read off a handle, its payload's flag and the interpreter's
      answers: a tuple is needed only for stored arguments, and every item must be set. */
  function SetupOf(h: PythonHandle, flagged: bool, py: Interpreter, timerId: nat): Setup {
    Setup(
      flagged, h.hasContext, py.entersContext, h.pyCallback != None,
      match h.pyArgs
      case None => true
      case Some(args) => py.makesTuple && !exists i :: 0 <= i < |args| && py.setItemFailsAt == Some(i),
      py.callSucceeds, timerId)
  }

  /** The race as the handle stands. */
  function WorldOf(h: PythonHandle): World
    reads h
  {
    World(h.state, h.blockingTaskId, Queued, map[], 0, 0, [], None)
  }

  /** A dispatch of the object with its cleanup leaves the state, the timer id, the number of
      calls and the dropped references that the atomic steps leave. */
  method DispatchAsSteps(h: PythonHandle, flagged: bool, py: Interpreter)
    requires h.threadSafe
    modifies h
    ensures var c, w := SetupOf(h, flagged, py, old(h.blockingTaskId)), old(WorldOf(h));
            var end := Alone(c, w);
            && h.state == end.state && h.blockingTaskId == end.blockingTaskId
            && |h.calls| == |old(h.calls)| + end.calls
            && h.dropped == old(h.dropped) + end.dropped
            && end.dispatcher == CleanedUp
  {
    ghost var c, w := SetupOf(h, flagged, py, h.blockingTaskId), WorldOf(h);
    AloneFromRest(c, w);
    assert Reaches(c) <==> h.Reaches(py) by {
      if py.setItemFailsAt.Some? && h.pyArgs.Some? && py.setItemFailsAt.value < |h.pyArgs.value| {
        assert py.setItemFailsAt == Some(py.setItemFailsAt.value);
      }
    }
    h.Serve(flagged, py);
  }

  lemma AloneFromRest(c: Setup, w: World)
    requires w.dispatcher.Queued? && w.calls == w.dropped == 0
    ensures var run := MayRun(true, c.flagged, w.state) && Reaches(c);
            Alone(c, w) == w.(state := StateAfter(true, c.flagged, w.state), blockingTaskId := 0,
                              dispatcher := CleanedUp, calls := if run then 1 else 0, dropped := 1)
  {
    var w1 := Step(c, w, Swap);
    FromClaim(c, w1);
    assert Alone(c, w) == Alone(c, w1);
  }

  // ---- cancelled exactly when never run ----

  /** When the dispatch is over the handle reads as cancelled for good or as executed for
      good; cancelled means never run, and executed means run exactly when nothing stood
      between the claim and the call. */
  lemma EndOfDispatch(c: Setup, run: seq<World>, actions: seq<Action>, k: nat)
    requires IsRun(c, run, actions) && k < |run| && run[k].dispatcher.CleanedUp?
    ensures run[k].state == Cancelled || (run[k].state == Executed && !c.flagged)
    ensures run[k].state == Cancelled ==> run[k].calls == 0
    ensures run[k].state == Executed ==> run[k].calls == if Reaches(c) then 1 else 0
  {
    RunKeepsInv(c, run, actions, k);
  }

  /** The dispatch is over, and the handle reads as cancelled exactly if it was not run. */
  ghost predicate CancelledIffNeverRun(run: seq<World>) {
    run != [] && run[|run| - 1].dispatcher.CleanedUp? ==>
      (run[|run| - 1].state == Cancelled <==> run[|run| - 1].calls == 0)
  }

  /** "Cancelled exactly when never run" holds at the end of every run of a handle if and
      only if the payload was flagged or nothing stands between a claim and the call: both
      are settled before the race begins. */
  lemma CancelledMeansNeverRun(c: Setup)
    ensures (forall run: seq<World>, actions: seq<Action> :: IsRun(c, run, actions) ==> CancelledIffNeverRun(run))
       <==> (c.flagged || Reaches(c))
  {
    if c.flagged || Reaches(c) {
      forall run: seq<World>, actions: seq<Action> | IsRun(c, run, actions) ensures CancelledIffNeverRun(run) {
        if run[|run| - 1].dispatcher.CleanedUp? {
          EndOfDispatch(c, run, actions, |run| - 1);
        }
      }
    } else {
      var run, actions := ClaimedButNeverRun(c);
      assert IsRun(c, run, actions) && !CancelledIffNeverRun(run);
    }
  }

  /** Every handle whose claim cannot reach the call has a run without a single cancel in
      which it is never called and does not read as cancelled. */
  lemma ClaimedButNeverRun(c: Setup) returns (run: seq<World>, actions: seq<Action>)
    requires !c.flagged && !Reaches(c)
    ensures IsRun(c, run, actions)
    ensures var end := run[|run| - 1];
            end.dispatcher.CleanedUp? && end.state == Executed && end.calls == 0 && end.cancellers == map[]
  {
    var w0 := World(Pending, c.timerId, Queued, map[], 0, 0, [], None);
    var w1 := Step(c, w0, Swap);
    var w2 := Step(c, w1, ClearId);
    var w3 := Step(c, w2, Enter);
    assert IsStep(c, w0, Swap, w1) && IsStep(c, w1, ClearId, w2) && IsStep(c, w2, Enter, w3);
    if w3.dispatcher.Returned? {
      var w4 := Step(c, w3, Cleanup);
      actions, run := [Swap, ClearId, Enter, Cleanup], [w0, w1, w2, w3, w4];
      assert IsStep(c, w3, Cleanup, w4);
    } else {
      var w4 := Step(c, w3, DropReference);
      var w5 := Step(c, w4, Cleanup);
      actions, run := [Swap, ClearId, Enter, DropReference, Cleanup], [w0, w1, w2, w3, w4, w5];
      assert IsStep(c, w3, DropReference, w4) && IsStep(c, w4, Cleanup, w5);
    }
  }
}
