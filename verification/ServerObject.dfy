// The server wrapper as an object.

module ServerObject {
  import opened Common
  import M = ServerModel

  class Server {
    var listeners: Option<nat>
    var serving: bool
    var activeCount: int
    var clients: set<Object>
    var waiters: seq<nat>
    var futures: map<nat, M.Future>
    ghost var closeRaised: bool

    ghost function Model(): M.Server
      reads this
    {
      M.Server(listeners, serving, activeCount, clients, waiters, futures, closeRaised)
    }

    constructor (listeners: nat, startServing: bool)
      ensures Model() == M.Fresh(listeners, startServing)
    {
      this.listeners, serving := Some(listeners), startServing;
      activeCount, clients, waiters, futures := 0, {}, [], map[];
      closeRaised := false;
    }

    predicate IsServing()
      reads this
      ensures IsServing() == M.IsServing(Model())
    {
      serving && listeners.Some? && listeners.value > 0
    }

    method Attach(transport: Option<Object>)
      modifies this
      ensures Model() == M.Step(old(Model()), M.Attach(transport))
    {
      activeCount := activeCount + 1;
      if transport.Some? {
        clients := clients + {transport.value};
      }
    }

    method Wakeup()
      modifies this`futures, this`waiters
      ensures Model() == M.Wakeup(old(Model()))
    {
      var i := 0;
      while i < |waiters|
        invariant 0 <= i <= |waiters|
        invariant waiters == old(waiters)
        invariant M.Resolve(futures, waiters[i..]) == M.Resolve(old(futures), old(waiters))
      {
        var waiter := waiters[i];
        assert waiters[i..][1..] == waiters[i + 1..];
        if waiter in futures && futures[waiter].Waiting? {
          futures := futures[waiter := M.Resolved];
        }
        i := i + 1;
      }
      waiters := [];
    }

    method Detach(transport: Option<Object>)
      modifies this
      ensures Model() == M.Step(old(Model()), M.Detach(transport))
    {
      activeCount := activeCount - 1;
      if transport.Some? {
        clients := clients - {transport.value};
      }
      if activeCount <= 0 && (listeners.None? || !IsServing()) {
        Wakeup();
      }
    }

    /** `closedBeforeRaise`: how many listeners close before one raises, if one does. */
    method Close(closedBeforeRaise: Option<nat>) returns (raised: bool)
      modifies this
      ensures Model() == M.Step(old(Model()), M.Close(closedBeforeRaise))
      ensures raised <==> M.CloseRaises(old(Model()), closedBeforeRaise)
    {
      if listeners.None? {
        return false;
      }
      serving := false;
      var toClose := listeners.value;
      listeners := None;
      for i := 0 to toClose
        invariant closedBeforeRaise.Some? ==> closedBeforeRaise.value >= i
      {
        if closedBeforeRaise == Some(i) {
          closeRaised := true;
          return true;
        }
      }
      if activeCount <= 0 {
        Wakeup();
      }
      return false;
    }

    method StartServing()
      modifies this
      ensures Model() == M.Step(old(Model()), M.StartServing)
    {
      if listeners.Some? {
        serving := true;
      }
    }

    /** The part of `wait_closed` before it suspends: the future to await, if any. */
    method WaitClosed() returns (waiter: Option<nat>)
      modifies this
      ensures Model() == M.Step(old(Model()), M.WaitClosed)
      ensures waiter.None? <==> old(listeners).None? && old(activeCount) <= 0
      ensures waiter.Some? ==> waiter.value !in old(futures) && waiter.value in waiters
    {
      if listeners.None? && activeCount <= 0 {
        return None;
      }
      var future := M.SmallestFree(futures.Keys, 0);
      futures := futures[future := M.Waiting];
      waiters := waiters + [future];
      return Some(future);
    }
  }
}
