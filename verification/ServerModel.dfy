// Closing a server: the count of active connections and the tasks waiting for it.

module ServerModel {
  import opened Common

  /** The state of a waiter's future. */
  datatype Future = Waiting | Resolved | CancelledByTask

  /** `listeners`: the underlying stream servers, none once closed. `raised` records that a
      listener's `close` raised while it was being closed. */
  datatype Server = Server(
    listeners: Option<nat>, serving: bool, activeCount: int, clients: set<Object>,
    waiters: seq<nat>, futures: map<nat, Future>, raised: bool)

  datatype Event =
    | Attach(transport: Option<Object>)
    | Detach(transport: Option<Object>)
    | Close(closedBeforeRaise: Option<nat>)
    | StartServing
    | WaitClosed
    | CancelWaiter(w: nat)

  predicate IsServing(s: Server) {
    s.serving && s.listeners.Some? && s.listeners.value > 0
  }

  /** Resolves the waiters that are not done, in list order, and empties the list. */
  function Resolve(futures: map<nat, Future>, waiters: seq<nat>): (r: map<nat, Future>)
    ensures r.Keys == futures.Keys
    ensures forall w :: w in futures ==>
              r[w] == if w in waiters && futures[w].Waiting? then Resolved else futures[w]
  {
    if waiters == [] then futures
    else
      var w, rest := waiters[0], waiters[1..];
      var first := if w in futures && futures[w].Waiting? then futures[w := Resolved] else futures;
      assert forall v :: v in waiters <==> v == w || v in rest;
      Resolve(first, rest)
  }

  function Wakeup(s: Server): Server {
    s.(futures := Resolve(s.futures, s.waiters), waiters := [])
  }

  /** A fresh future for every call. */
  function NextFuture(s: Server): nat {
    SmallestFree(s.futures.Keys, 0)
  }

  function SmallestFree(keys: set<nat>, n: nat): (m: nat)
    ensures m !in keys
    decreases |Above(keys, n)|
  {
    if n !in keys then n
    else
      assert n in Above(keys, n);
      assert Above(keys, n + 1) == Above(keys, n) - {n};
      SmallestFree(keys, n + 1)
  }

  function Above(keys: set<nat>, n: nat): set<nat> {
    set k | k in keys && n <= k
  }

  function DetachFrom(s: Server, transport: Option<Object>): Server {
    var s' := s.(activeCount := s.activeCount - 1,
                 clients := if transport.Some? then s.clients - {transport.value} else s.clients);
    if s'.activeCount <= 0 && (s'.listeners.None? || !IsServing(s')) then Wakeup(s') else s'
  }

  /** A close that a listener cuts short. */
  predicate CloseRaises(s: Server, closedBeforeRaise: Option<nat>) {
    s.listeners.Some? && closedBeforeRaise.Some? && closedBeforeRaise.value < s.listeners.value
  }

  /** `closedBeforeRaise` is how many listeners close before one raises, if one does. */
  function CloseServer(s: Server, closedBeforeRaise: Option<nat>): Server {
    if s.listeners.None? then s
    else
      var s' := s.(serving := false, listeners := None);
      if CloseRaises(s, closedBeforeRaise) then s'.(raised := true)
      else if s'.activeCount <= 0 then Wakeup(s')
      else s'
  }

  function BeginWait(s: Server): Server {
    if s.listeners.None? && s.activeCount <= 0 then s
    else s.(waiters := s.waiters + [NextFuture(s)], futures := s.futures[NextFuture(s) := Waiting])
  }

  function Step(s: Server, e: Event): Server {
    match e
    case Attach(t) =>
      s.(activeCount := s.activeCount + 1, clients := if t.Some? then s.clients + {t.value} else s.clients)
    case Detach(t) => DetachFrom(s, t)
    case Close(c) => CloseServer(s, c)
    case StartServing => if s.listeners.None? then s else s.(serving := true)
    case WaitClosed => BeginWait(s)
    case CancelWaiter(w) =>
      if w in s.futures && s.futures[w].Waiting? then s.(futures := s.futures[w := CancelledByTask]) else s
  }

  function Run(s: Server, events: seq<Event>): Server {
    if events == [] then s else Step(Run(s, events[..|events| - 1]), events[|events| - 1])
  }

  function Fresh(listeners: nat, serving: bool): Server {
    Server(Some(listeners), serving, 0, {}, [], map[], false)
  }

  // ---- no lost wake-up ----

  ghost predicate SomeoneWaits(s: Server) {
    exists w :: w in s.futures && s.futures[w].Waiting?
  }

  /** The server is closed and idle, and yet somebody is left waiting. */
  ghost predicate LostWakeup(s: Server) {
    s.listeners.None? && s.activeCount <= 0 && SomeoneWaits(s)
  }

  /** Every pending waiter is on the list the next wake-up walks. */
  ghost predicate Listed(s: Server) {
    forall w :: w in s.futures && s.futures[w].Waiting? ==> w in s.waiters
  }

  lemma StepKeepsListed(s: Server, e: Event)
    requires Listed(s)
    ensures Listed(Step(s, e))
  {
    if e.WaitClosed? {
      var n := NextFuture(s);
      assert n in s.waiters + [n];
      assert forall w :: w in s.waiters ==> w in s.waiters + [n];
    }
  }

  lemma {:induction false} RunKeepsListed(listeners: nat, serving: bool, events: seq<Event>)
    ensures Listed(Run(Fresh(listeners, serving), events))
  {
    if events != [] {
      RunKeepsListed(listeners, serving, events[..|events| - 1]);
      StepKeepsListed(Run(Fresh(listeners, serving), events[..|events| - 1]), events[|events| - 1]);
    }
  }

  lemma WakeupWakes(s: Server)
    requires Listed(s)
    ensures !SomeoneWaits(Wakeup(s))
  {
  }

  /** Exactly when an event loses a wake-up: it is a close cut short by a listener that
      raises while nothing is active and somebody waits. */
  lemma WakeupLostExactly(s: Server, e: Event)
    requires Listed(s) && !LostWakeup(s)
    ensures LostWakeup(Step(s, e)) <==>
              && e.Close? && CloseRaises(s, e.closedBeforeRaise)
              && s.activeCount <= 0 && SomeoneWaits(s)
  {
    var s' := Step(s, e);
    match e
    case Attach(_) => assert s'.futures == s.futures;
    case Detach(t) =>
      if s'.activeCount <= 0 && s'.listeners.None? {
        WakeupWakes(s.(activeCount := s.activeCount - 1, clients := s'.clients));
      }
    case Close(c) =>
      if s.listeners.Some? {
        WakeupWakes(s.(serving := false, listeners := None));
        assert s'.raised ==> s'.futures == s.futures || !SomeoneWaits(s');
      }
    case StartServing =>
    case WaitClosed =>
    case CancelWaiter(w) =>
      if SomeoneWaits(s') {
        var v :| v in s'.futures && s'.futures[v].Waiting?;
        assert s.futures[v].Waiting?;
      }
  }

  /** Exactly when an event ends a lost wake-up: a connection that a listener left open
      accepts is attached, somebody is detached, or the last one waiting is cancelled. */
  lemma LostWakeupEndsExactly(s: Server, e: Event)
    requires Listed(s) && LostWakeup(s)
    ensures !LostWakeup(Step(s, e)) <==>
              || e.Detach? || (e.Attach? && s.activeCount == 0)
              || (e.CancelWaiter? && !SomeoneWaits(Step(s, e)))
  {
    var v :| v in s.futures && s.futures[v].Waiting?;
    match e
    case Attach(_) => assert v in Step(s, e).futures && Step(s, e).futures[v].Waiting?;
    case Detach(t) =>
      WakeupWakes(s.(activeCount := s.activeCount - 1,
                     clients := if t.Some? then s.clients - {t.value} else s.clients));
    case CancelWaiter(_) =>
    case _ => assert Step(s, e) == s;
  }

  /** No listener's `close` raises in a run from `s`. */
  predicate NoCloseRaises(s: Server, events: seq<Event>) {
    events != [] ==>
      var before, e := events[..|events| - 1], events[|events| - 1];
      NoCloseRaises(s, before) && !(e.Close? && CloseRaises(Run(s, before), e.closedBeforeRaise))
  }

  /** Over every run in which no listener's `close` raises, nobody is ever left waiting on
      a closed and idle server. */
  lemma {:induction false} NoLostWakeup(listeners: nat, serving: bool, events: seq<Event>)
    requires NoCloseRaises(Fresh(listeners, serving), events)
    ensures !LostWakeup(Run(Fresh(listeners, serving), events))
  {
    if events != [] {
      var before, e := events[..|events| - 1], events[|events| - 1];
      NoLostWakeup(listeners, serving, before);
      RunKeepsListed(listeners, serving, before);
      WakeupLostExactly(Run(Fresh(listeners, serving), before), e);
    }
  }

  /** A wake-up does get lost when a listener raises while being closed, and closing again
      does not help; `LostWakeupEndsExactly` says what does. */
  lemma RaisingCloseLosesWakeup() returns (events: seq<Event>)
    ensures LostWakeup(Run(Fresh(1, true), events))
    ensures LostWakeup(Run(Fresh(1, true), events + [Close(None)]))
  {
    events := [WaitClosed, Close(Some(0))];
    var s0 := Fresh(1, true);
    var s1 := Step(s0, WaitClosed);
    var s2 := Step(s1, Close(Some(0)));
    assert NextFuture(s0) in s2.futures && s2.futures[NextFuture(s0)].Waiting?;
    assert events[..1] == [WaitClosed] && events[..1][..0] == [];
    assert Run(s0, events[..1]) == s1;
    assert Run(s0, events) == s2;
    assert (events + [Close(None)])[..2] == events;
    assert Run(s0, events + [Close(None)]) == s2;
  }

  /** A waiter is resolved only by an event that ends with nothing active and the server
      not serving. */
  lemma ResolvedOnlyWhenIdle(s: Server, e: Event, w: nat)
    requires w in s.futures && s.futures[w].Waiting?
    requires Step(s, e).futures[w].Resolved?
    ensures Step(s, e).activeCount <= 0 && !IsServing(Step(s, e))
    ensures e.Detach? || e.Close?
  {
  }

  /** Exactly when a listed waiter is resolved: by a detach that leaves nothing active on a
      server that is closed, was never started, or has no listener; or by the first close of
      an idle server, if no listener raises. */
  lemma ResolvedExactly(s: Server, e: Event, w: nat)
    requires w in s.futures && s.futures[w].Waiting? && w in s.waiters
    ensures Step(s, e).futures[w].Resolved? <==>
            || (e.Detach? && s.activeCount <= 1 && (s.listeners.None? || !s.serving || s.listeners == Some(0)))
            || (e.Close? && s.activeCount <= 0 && s.listeners.Some? &&
                (e.closedBeforeRaise.None? || e.closedBeforeRaise.value >= s.listeners.value))
    ensures Step(s, e).futures[w].Resolved? ==> Step(s, e).waiters == []
  {
  }

  /** Exactly when the server serves: it did and was not closed, or it has a listener and
      was told to start; and whatever a listener does, a close ends it for good. */
  lemma ServesExactly(s: Server, e: Event)
    ensures IsServing(Step(s, e)) <==>
            s.listeners.Some? && s.listeners.value > 0 && !e.Close? && (s.serving || e.StartServing?)
    ensures e.Close? || s.listeners.None? ==> Step(s, e).listeners.None? && !IsServing(Step(s, e))
  {
  }

  /** A resolved or cancelled waiter stays so. */
  lemma DoneStaysDone(s: Server, e: Event, w: nat)
    requires w in s.futures && !s.futures[w].Waiting?
    ensures w in Step(s, e).futures && Step(s, e).futures[w] == s.futures[w]
  {
  }

  // ---- the count is the number of clients ----

  /** Attaches and detaches come in pairs, each for a transport of its own. */
  ghost predicate Paired(s: Server, e: Event) {
    && (e.Attach? ==> e.transport.Some? && e.transport.value !in s.clients)
    && (e.Detach? ==> e.transport.Some? && e.transport.value in s.clients)
  }

  ghost predicate PairedRun(s: Server, events: seq<Event>) {
    events != [] ==>
      && PairedRun(s, events[..|events| - 1])
      && Paired(Run(s, events[..|events| - 1]), events[|events| - 1])
  }

  /** Then the active count is the number of clients, so it is never negative, and a closed
      server has nobody waiting exactly as soon as the last client is gone. */
  lemma {:induction false} CountIsClients(listeners: nat, serving: bool, events: seq<Event>)
    requires PairedRun(Fresh(listeners, serving), events)
    ensures Run(Fresh(listeners, serving), events).activeCount == |Run(Fresh(listeners, serving), events).clients|
  {
    if events != [] {
      var before, e := events[..|events| - 1], events[|events| - 1];
      CountIsClients(listeners, serving, before);
      assert Paired(Run(Fresh(listeners, serving), before), e);
    }
  }
}
