// Which bytes the TLS wrapper loses, and which it sends out of order: exactly, call by
// call, from the state before the call and from what the peer answers.

module TlsLosses {
  import opened Common
  import opened TlsModel
  import opened TlsInvariants

  // ---- one flush ----

  /** What a flush of `buffer` loses: the chunk it holds when the SSL object answers with a
      fatal error or is gone. */
  function FlushLoss(p: Peer, buffer: seq<Bytes>, attached: bool, clock: nat): Bytes
    decreases |Flat(buffer)|, |buffer|
  {
    if buffer == [] then []
    else if !attached then buffer[0]
    else
      var answer := p.ssl(clock);
      match answer
      case Want(_) => []
      case Fatal(_) => buffer[0]
      case Accept(_, _) =>
        if Stalls(buffer[0], answer) then []
        else
          assert Shrinks(Remainder(buffer[0], buffer[1..], answer), buffer) by { GoingOn(buffer, answer); }
          FlushLoss(p, Remainder(buffer[0], buffer[1..], answer), attached, clock + 1)
  }

  predicate Stalls(data: Bytes, answer: SslAnswer) {
    answer.Accept? && Took(data, answer) == 0 && data != []
  }

  predicate Shrinks(buffer': seq<Bytes>, buffer: seq<Bytes>) {
    |Flat(buffer')| < |Flat(buffer)| || (|Flat(buffer')| == |Flat(buffer)| && |buffer'| < |buffer|)
  }

  lemma GoingOn(buffer: seq<Bytes>, answer: SslAnswer)
    requires buffer != [] && answer.Accept? && !Stalls(buffer[0], answer)
    ensures Shrinks(Remainder(buffer[0], buffer[1..], answer), buffer)
  {
    FlatCons(buffer[0][Took(buffer[0], answer)..], buffer[1..]);
  }

  /** On every exit and from every state, what the flush loop found in the buffer is now
      accepted, lost or still buffered, in that order; only `FlushLoss` is lost, and on a
      normal exit nothing is. */
  lemma {:induction false} FlushPlainPreserves(p: Peer, s: Tls)
    ensures var r, loss := FlushPlain(p, s), FlushLoss(p, s.buffer, s.attached, s.clock);
            && (r.s.h.accepted + loss) + Flat(r.s.buffer) == s.h.accepted + Flat(s.buffer)
            && r.s.h.dropped == s.h.dropped + loss
            && (r.Through? ==> loss == [])
    decreases |Flat(s.buffer)|, |s.buffer|
  {
    if s.buffer == [] {
      assert s.h.accepted + [] == s.h.accepted && s.h.dropped + [] == s.h.dropped;
    } else if !s.attached {
      Associate(s.h.accepted, s.buffer[0], Flat(s.buffer[1..]));
    } else {
      var answer := p.ssl(s.clock);
      OfferPreserves(s, answer);
      var s' := FirstChunk(s, answer);
      match answer
      case Want(_) => Nothing(s');
      case Fatal(_) => FlushOnceKeepsPlain(p, s');
      case Accept(_, _) =>
        if Stalls(s.buffer[0], answer) {
          Nothing(s');
        } else {
          FlushPlainPreserves(p, s');
        }
    }
  }

  lemma OfferPreserves(s: Tls, answer: SslAnswer)
    requires s.buffer != []
    ensures var s', loss := FirstChunk(s, answer), if answer.Fatal? then s.buffer[0] else [];
            && (s'.h.accepted + loss) + Flat(s'.buffer) == s.h.accepted + Flat(s.buffer)
            && s'.h.dropped == s.h.dropped + loss
            && (!answer.Fatal? ==> s'.h.accepted + Flat(s'.buffer) == s.h.accepted + Flat(s.buffer)
                                   && s'.h.dropped == s.h.dropped)
  {
    var data, f := s.buffer[0], Flat(s.buffer[1..]);
    FirstChunkBytes(s, answer);
    MovedOrder(s.h.accepted, data, f, Took(data, answer));
    Associate(s.h.accepted, data, f);
    Nothing(FirstChunk(s, answer));
    assert s.h.accepted + data[..0] == s.h.accepted && s.h.dropped + [] == s.h.dropped;
  }

  lemma Nothing(s: Tls)
    ensures s.h.accepted + [] == s.h.accepted && s.h.dropped + [] == s.h.dropped
  {
  }

  // ---- when a flush loses bytes ----

  /** The buffer after the SSL object was offered the first chunk `n` times. */
  function Offered(p: Peer, buffer: seq<Bytes>, clock: nat, n: nat): seq<Bytes>
    decreases n
  {
    if n == 0 || buffer == [] then buffer
    else Offered(p, Remainder(buffer[0], buffer[1..], p.ssl(clock)), clock + 1, n - 1)
  }

  /** The SSL object takes the whole first chunk, or a part of it, on each of `n` offers. */
  predicate Progresses(p: Peer, buffer: seq<Bytes>, clock: nat, n: nat)
    decreases n
  {
    n == 0 || (
      && buffer != [] && p.ssl(clock).Accept? && !Stalls(buffer[0], p.ssl(clock))
      && Progresses(p, Remainder(buffer[0], buffer[1..], p.ssl(clock)), clock + 1, n - 1))
  }

  /** The flush gets through `n` offers and then loses a chunk that is not empty. */
  predicate LosesAt(p: Peer, buffer: seq<Bytes>, attached: bool, clock: nat, n: nat) {
    && Progresses(p, buffer, clock, n)
    && var left := Offered(p, buffer, clock, n);
       left != [] && left[0] != [] && if attached then p.ssl(clock + n).Fatal? else n == 0
  }

  /** A flush loses bytes if and only if its first chunk is not empty and the SSL object is
      gone, or some offer of a chunk that is not empty, after offers that all went well, is
      answered with a fatal error. */
  lemma {:induction false} FlushLosesExactly(p: Peer, buffer: seq<Bytes>, attached: bool, clock: nat)
    ensures FlushLoss(p, buffer, attached, clock) != [] <==>
            exists n: nat :: LosesAt(p, buffer, attached, clock, n)
    decreases |Flat(buffer)|, |buffer|
  {
    if buffer == [] {
    } else if !attached || !p.ssl(clock).Accept? || Stalls(buffer[0], p.ssl(clock)) {
      assert FlushLoss(p, buffer, attached, clock) != [] ==> LosesAt(p, buffer, attached, clock, 0);
    } else {
      var rest, next := Remainder(buffer[0], buffer[1..], p.ssl(clock)), clock + 1;
      GoingOn(buffer, p.ssl(clock));
      FlushLosesExactly(p, rest, attached, next);
      if n: nat :| LosesAt(p, buffer, attached, clock, n) {
        assert LosesAt(p, rest, attached, next, n - 1);
      }
      if n: nat :| LosesAt(p, rest, attached, next, n) {
        assert LosesAt(p, buffer, attached, clock, n + 1);
      }
    }
  }

  // ---- the calls an event makes ----

  /** A write or a flush of the wrapper, with the state it is called in. */
  datatype Call = WriteCall(s: Tls, data: Bytes) | FlushCall(s: Tls)

  /** A write loses its data if it finds the wrapper unpaused and the SSL object answers
      with a fatal error. */
  function Lost(p: Peer, c: Call): Bytes {
    match c
    case WriteCall(s, data) => if !s.paused && s.attached && p.ssl(s.clock).Fatal? then data else []
    case FlushCall(s) => FlushLoss(p, s.buffer, s.attached, s.clock)
  }

  /** A write puts bytes out of order if it finds the wrapper unpaused and the SSL object
      takes bytes at once that differ when they come ahead of the buffered ones. */
  predicate Reorders(p: Peer, c: Call) {
    && c.WriteCall? && !c.s.paused && c.s.attached && !p.ssl(c.s.clock).Fatal?
    && Ahead(c.s, c.data, p.ssl(c.s.clock)) != Behind(c.s, c.data, p.ssl(c.s.clock))
  }

  /** The state a call ends in. */
  function After(p: Peer, c: Call): Tls {
    match c
    case WriteCall(s, data) => Write(p, s, data).s
    case FlushCall(s) => Flush(p, s).s
  }

  /** Exactly when a call made in order ends in order: it loses nothing and reorders nothing. */
  lemma CallKeepsOrderExactly(p: Peer, c: Call)
    requires InOrder(c.s)
    ensures InOrder(After(p, c)) <==> Lost(p, c) == [] && !Reorders(p, c)
  {
    match c
    case WriteCall(s, data) => WriteKeepsOrderExactly(p, s, data);
    case FlushCall(s) => FlushKeepsOrderExactly(p, s);
  }

  lemma FlushKeepsOrderExactly(p: Peer, s: Tls)
    requires InOrder(s)
    ensures InOrder(Flush(p, s).s) <==> FlushLoss(p, s.buffer, s.attached, s.clock) == []
  {
    var r, loss := FlushPlain(p, s), FlushLoss(p, s.buffer, s.attached, s.clock);
    FlushPlainPreserves(p, s);
    FlushPlainRest(p, s);
    FlushOnceQuiet(p, r.s);
    if loss == [] {
      Nothing(r.s);
    } else {
      assert |(r.s.h.accepted + loss) + Flat(r.s.buffer)| == |r.s.h.accepted + Flat(r.s.buffer)| + |loss|;
    }
  }

  /** The call does not put bytes out of order that were in order before it. */
  ghost predicate KeepsOrder(p: Peer, c: Call) {
    InOrder(c.s) ==> InOrder(After(p, c))
  }

  function AppCalls(s: Tls, call: AppCall): seq<Call> {
    match call
    case WriteBytes(data) => [WriteCall(s, data)]
    case CloseTransport => if s.closing then [] else [FlushCall(s.(closing := true))]
  }

  function CallbackCalls(p: Peer, s: Tls, calls: seq<AppCall>): seq<Call>
    decreases |calls|
  {
    if calls == [] then []
    else
      var r := AppStep(p, s, calls[0]);
      AppCalls(s, calls[0]) + if r.raised then [] else CallbackCalls(p, r.s, calls[1..])
  }

  function ResumeCalls(p: Peer, s: Tls, calls: seq<AppCall>): seq<Call> {
    CallbackCalls(p, s.(paused := false), calls)
    + [FlushCall(Callback(p, s.(paused := false), calls).s)]
  }

  function ShakeHandsCalls(p: Peer, s: Tls, cipher: Bytes, handshake: Handshake, replies: seq<AppCall>): seq<Call> {
    if !handshake.HandshakeDone? then []
    else
      var r := FlushOnce(p, Emit(s, cipher).(handshaken := true));
      if r.raised then [] else CallbackCalls(p, r.s, replies)
  }

  function ReadCalls(p: Peer, s: Tls, cipher: Bytes, replies: seq<AppCall>, eof: Option<seq<AppCall>>): seq<Call> {
    var r := Callback(p, Emit(s, cipher), replies);
    CallbackCalls(p, Emit(s, cipher), replies)
    + if r.raised || eof.None? then []
      else CallbackCalls(p, r.s, eof.value) + [FlushCall(Callback(p, r.s, eof.value).s)]
  }

  function ReceiveCalls(
    p: Peer, s: Tls, cipher: Bytes, handshake: Handshake, replies: seq<AppCall>, eof: Option<seq<AppCall>>): seq<Call>
  {
    if !s.attached then []
    else if s.closing then [FlushCall(s)]
    else if !s.handshaken then ShakeHandsCalls(p, s, cipher, handshake, replies)
    else ReadCalls(p, s, cipher, replies, eof)
  }

  function EventCalls(p: Peer, s: Tls, e: Event): seq<Call> {
    match e
    case App(call) => AppCalls(s, call)
    case ResumeWriting(calls) => ResumeCalls(p, s, calls)
    case BufferUpdated(cipher, handshake, replies, eof) => ReceiveCalls(p, s, cipher, handshake, replies, eof)
    case ConnectionLost(calls) => CallbackCalls(p, s, calls)
    case _ => []
  }

  function RunCalls(p: Peer, s: Tls, events: seq<Event>): seq<Call> {
    if events == [] then []
    else
      var before := events[..|events| - 1];
      RunCalls(p, s, before) + EventCalls(p, Run(p, s, before), events[|events| - 1])
  }

  function AllLost(p: Peer, calls: seq<Call>): Bytes {
    if calls == [] then [] else Lost(p, calls[0]) + AllLost(p, calls[1..])
  }

  // ---- the calls account for every loss ----

  /** No raw write ever fails with another error than "paused". */
  ghost predicate NeverBreaks(p: Peer) {
    forall n: nat :: !p.raw(n).Broken?
  }

  /** From `s` to `s'` exactly what `calls` lose was dropped, the order was lost only if one
      of `calls` loses it, and a raw write broke only if the peer's raw transport breaks. */
  ghost predicate Traced(p: Peer, s: Tls, s': Tls, calls: seq<Call>) {
    && s'.h.dropped == s.h.dropped + AllLost(p, calls)
    && (InOrder(s) && (forall c :: c in calls ==> KeepsOrder(p, c)) ==>
          InOrder(s') && forall c :: c in calls ==> InOrder(c.s))
    && (NeverBreaks(p) && Broken !in s.h.rawAnswers ==> Broken !in s'.h.rawAnswers)
  }

  /** And all of it happened with the SSL object there, or all of it without. */
  ghost predicate Accounts(p: Peer, s: Tls, s': Tls, calls: seq<Call>) {
    Traced(p, s, s', calls) && s'.attached == s.attached && forall c :: c in calls ==> c.s.attached == s.attached
  }

  lemma {:induction false} AllLostConcat(p: Peer, a: seq<Call>, b: seq<Call>)
    ensures AllLost(p, a + b) == AllLost(p, a) + AllLost(p, b)
  {
    if a == [] {
      assert a + b == b;
    } else {
      var c, rest := a[0], a[1..];
      AllLostConcat(p, rest, b);
      assert (a + b)[0] == c && (a + b)[1..] == rest + b;
      Associate(Lost(p, c), AllLost(p, rest), AllLost(p, b));
    }
  }

  lemma OneCall(p: Peer, c: Call)
    ensures AllLost(p, [c]) == Lost(p, c)
    ensures c in [c] && forall d :: d in [c] ==> d == c
  {
    assert [c][1..] == [];
  }

  lemma TraceOn(p: Peer, s: Tls, s': Tls, s'': Tls, a: seq<Call>, b: seq<Call>)
    requires Traced(p, s, s', a) && Traced(p, s', s'', b)
    ensures Traced(p, s, s'', a + b)
  {
    AllLostConcat(p, a, b);
    Associate(s.h.dropped, AllLost(p, a), AllLost(p, b));
    assert forall c :: c in a || c in b <==> c in a + b;
  }

  lemma Compose(p: Peer, s: Tls, s': Tls, s'': Tls, a: seq<Call>, b: seq<Call>)
    requires Accounts(p, s, s', a) && Accounts(p, s', s'', b)
    ensures Accounts(p, s, s'', a + b)
  {
    TraceOn(p, s, s', s'', a, b);
  }

  /** Nothing of what calls account for changes. */
  ghost predicate Quiet(p: Peer, s: Tls, s': Tls) {
    Accounts(p, s, s', [])
  }

  lemma QuietThen(p: Peer, s: Tls, s': Tls, s'': Tls, calls: seq<Call>)
    requires Quiet(p, s, s') && Accounts(p, s', s'', calls)
    ensures Accounts(p, s, s'', calls)
  {
    Compose(p, s, s', s'', [], calls);
    assert [] + calls == calls;
  }

  lemma ThenQuiet(p: Peer, s: Tls, s': Tls, s'': Tls, calls: seq<Call>)
    requires Accounts(p, s, s', calls) && Quiet(p, s', s'')
    ensures Accounts(p, s, s'', calls)
  {
    Compose(p, s, s', s'', calls, []);
    assert calls + [] == calls;
  }

  lemma SendAllQuiet(p: Peer, s: Tls)
    ensures Quiet(p, s, SendAll(p, s).s)
  {
    SendAllKeepsPlain(p, s);
    Nothing(s);
    assert NeverBreaks(p) ==> !p.raw(s.clock).Broken?;
  }

  lemma FlushOnceQuiet(p: Peer, s: Tls)
    ensures Quiet(p, s, FlushOnce(p, s).s) && Quiet(p, s, FlushCipher(p, s).s)
  {
    SendAllQuiet(p, s);
    Nothing(s);
  }

  lemma WriteAccounts(p: Peer, s: Tls, data: Bytes)
    ensures Accounts(p, s, Write(p, s, data).s, [WriteCall(s, data)])
  {
    OneCall(p, WriteCall(s, data));
    Nothing(s);
    if !s.paused && s.attached {
      var answered := WriteAnswered(s, data, p.ssl(s.clock));
      FlushOnceQuiet(p, answered);
      ThenQuiet(p, s, answered, FlushOnce(p, answered).s, [WriteCall(s, data)]);
    }
  }

  lemma {:induction false} FlushPlainRest(p: Peer, s: Tls)
    ensures var s' := FlushPlain(p, s).s;
            && s'.h.written == s.h.written && s'.attached == s.attached
            && (NeverBreaks(p) && Broken !in s.h.rawAnswers ==> Broken !in s'.h.rawAnswers)
    decreases |Flat(s.buffer)|, |s.buffer|
  {
    if s.buffer != [] && s.attached {
      var answer, s' := p.ssl(s.clock), FirstChunk(s, p.ssl(s.clock));
      FlushOnceQuiet(p, s');
      if answer.Accept? && !Stalls(s.buffer[0], answer) {
        FlushPlainRest(p, s');
      }
    }
  }

  lemma FlushAccounts(p: Peer, s: Tls)
    ensures Accounts(p, s, Flush(p, s).s, [FlushCall(s)])
  {
    OneCall(p, FlushCall(s));
    FlushPlainPreserves(p, s);
    FlushPlainRest(p, s);
    var r := FlushPlain(p, s);
    if r.Through? {
      FlushOnceQuiet(p, r.s);
      ThenQuiet(p, s, r.s, FlushCipher(p, r.s).s, [FlushCall(s)]);
    }
  }

  lemma StartShutdownAccounts(p: Peer, s: Tls)
    ensures Accounts(p, s, StartShutdown(p, s).s, [FlushCall(s)])
  {
    FlushAccounts(p, s);
    var f := Flush(p, s);
    if !f.raised && f.s.buffer == [] && f.s.attached {
      UnwrapQuiet(p, f.s);
      var r := FlushOnce(p, Unwrap(f.s, p.unwrap(f.s.clock)));
      ThenQuiet(p, s, f.s, r.s, [FlushCall(s)]);
      Nothing(r.s);
      ThenQuiet(p, s, r.s, StartShutdown(p, s).s, [FlushCall(s)]);
    }
  }

  lemma UnwrapQuiet(p: Peer, s: Tls)
    ensures Quiet(p, s, FlushOnce(p, Unwrap(s, p.unwrap(s.clock))).s)
  {
    var s' := Unwrap(s, p.unwrap(s.clock));
    Nothing(s);
    FlushOnceQuiet(p, s');
    QuietThen(p, s, s', FlushOnce(p, s').s, []);
  }

  lemma AppStepAccounts(p: Peer, s: Tls, call: AppCall)
    ensures Accounts(p, s, AppStep(p, s, call).s, AppCalls(s, call))
  {
    Nothing(s);
    match call
    case WriteBytes(data) => WriteAccounts(p, s, data);
    case CloseTransport =>
      if !s.closing {
        StartShutdownAccounts(p, s.(closing := true));
      }
  }

  lemma {:induction false} CallbackAccounts(p: Peer, s: Tls, calls: seq<AppCall>)
    ensures Accounts(p, s, Callback(p, s, calls).s, CallbackCalls(p, s, calls))
    decreases |calls|
  {
    Nothing(s);
    if calls != [] {
      var r := AppStep(p, s, calls[0]);
      AppStepAccounts(p, s, calls[0]);
      if r.raised {
        assert AppCalls(s, calls[0]) + [] == AppCalls(s, calls[0]);
      } else {
        CallbackAccounts(p, r.s, calls[1..]);
        Compose(p, s, r.s, Callback(p, s, calls).s, AppCalls(s, calls[0]), CallbackCalls(p, r.s, calls[1..]));
      }
    }
  }

  lemma ResumeAccounts(p: Peer, s: Tls, calls: seq<AppCall>)
    ensures Accounts(p, s, Resume(p, s, calls).s, ResumeCalls(p, s, calls))
  {
    var s0 := s.(paused := false);
    var s1 := Callback(p, s0, calls).s;
    var f := Flush(p, s1);
    Nothing(s);
    CallbackAccounts(p, s0, calls);
    FlushAccounts(p, s1);
    Compose(p, s0, s1, f.s, CallbackCalls(p, s0, calls), [FlushCall(s1)]);
    FlushOnceQuiet(p, f.s);
    ThenQuiet(p, s0, f.s, FlushOnce(p, f.s).s, ResumeCalls(p, s, calls));
    QuietThen(p, s, s0, Resume(p, s, calls).s, ResumeCalls(p, s, calls));
  }

  lemma ShakeHandsAccounts(p: Peer, s: Tls, cipher: Bytes, handshake: Handshake, replies: seq<AppCall>)
    ensures Accounts(p, s, ShakeHands(p, s, cipher, handshake, replies).s,
                     ShakeHandsCalls(p, s, cipher, handshake, replies))
  {
    var s' := Emit(s, cipher);
    Nothing(s);
    match handshake
    case HandshakeFails =>
    case HandshakeWants =>
      FlushOnceQuiet(p, s');
      QuietThen(p, s, s', FlushOnce(p, s').s, []);
    case HandshakeDone =>
      var s1 := s'.(handshaken := true);
      var r := FlushOnce(p, s1);
      FlushOnceQuiet(p, s1);
      QuietThen(p, s, s1, r.s, []);
      CallbackAccounts(p, r.s, replies);
      QuietThen(p, s, r.s, Callback(p, r.s, replies).s, CallbackCalls(p, r.s, replies));
  }

  lemma ReadAccounts(p: Peer, s: Tls, cipher: Bytes, replies: seq<AppCall>, eof: Option<seq<AppCall>>)
    ensures Accounts(p, s, Read(p, s, cipher, replies, eof).s, ReadCalls(p, s, cipher, replies, eof))
  {
    var s' := Emit(s, cipher);
    var r := Callback(p, s', replies);
    var first := CallbackCalls(p, s', replies);
    Nothing(s);
    CallbackAccounts(p, s', replies);
    QuietThen(p, s, s', r.s, first);
    if r.raised || eof.None? {
      assert first + [] == first;
    } else {
      EofAccounts(p, r.s, eof.value);
      var s'' := Callback(p, r.s, eof.value).s;
      Compose(p, s, r.s, StartShutdown(p, s'').s, first, CallbackCalls(p, r.s, eof.value) + [FlushCall(s'')]);
    }
  }

  lemma EofAccounts(p: Peer, s: Tls, calls: seq<AppCall>)
    ensures var s' := Callback(p, s, calls).s;
            Accounts(p, s, StartShutdown(p, s').s, CallbackCalls(p, s, calls) + [FlushCall(s')])
  {
    var s' := Callback(p, s, calls).s;
    CallbackAccounts(p, s, calls);
    StartShutdownAccounts(p, s');
    Compose(p, s, s', StartShutdown(p, s').s, CallbackCalls(p, s, calls), [FlushCall(s')]);
  }

  lemma ReceiveAccounts(
    p: Peer, s: Tls, cipher: Bytes, handshake: Handshake, replies: seq<AppCall>, eof: Option<seq<AppCall>>)
    ensures Accounts(p, s, Receive(p, s, cipher, handshake, replies, eof).s,
                     ReceiveCalls(p, s, cipher, handshake, replies, eof))
  {
    Nothing(s);
    StartShutdownAccounts(p, s);
    ShakeHandsAccounts(p, s, cipher, handshake, replies);
    ReadAccounts(p, s, cipher, replies, eof);
  }

  lemma EventTraced(p: Peer, s: Tls, e: Event)
    ensures Traced(p, s, Step(p, s, e).s, EventCalls(p, s, e))
    ensures !e.ConnectionLost? ==> Accounts(p, s, Step(p, s, e).s, EventCalls(p, s, e))
  {
    Nothing(s);
    match e
    case App(call) => AppStepAccounts(p, s, call);
    case ResumeWriting(calls) => ResumeAccounts(p, s, calls);
    case BufferUpdated(cipher, handshake, replies, eof) =>
      ReceiveAccounts(p, s, cipher, handshake, replies, eof);
    case ConnectionLost(calls) => CallbackAccounts(p, s, calls);
    case _ =>
  }

  lemma {:induction false} RunTraced(p: Peer, events: seq<Event>)
    ensures Traced(p, FRESH, Run(p, FRESH, events), RunCalls(p, FRESH, events))
  {
    Nothing(FRESH);
    if events != [] {
      var before, e := events[..|events| - 1], events[|events| - 1];
      var s := Run(p, FRESH, before);
      RunTraced(p, before);
      EventTraced(p, s, e);
      TraceOn(p, FRESH, s, Run(p, FRESH, events), RunCalls(p, FRESH, before), EventCalls(p, s, e));
    }
  }

  // ---- what is lost and what is put out of order ----

  /** None of `calls` loses or reorders a byte, by what the peer answers to them. */
  ghost predicate Orderly(p: Peer, calls: seq<Call>) {
    forall c :: c in calls ==> Lost(p, c) == [] && !Reorders(p, c)
  }

  ghost predicate EndsInOrder(p: Peer, c: Call) {
    InOrder(After(p, c))
  }

  /** A trace that begins in order: all its calls end in order if and only if none loses or
      reorders a byte, and then the trace ends in order. */
  lemma TraceInOrder(p: Peer, s: Tls, s': Tls, calls: seq<Call>)
    requires Traced(p, s, s', calls) && InOrder(s)
    ensures (forall c :: c in calls ==> EndsInOrder(p, c)) <==> Orderly(p, calls)
    ensures Orderly(p, calls) ==> InOrder(s')
  {
    forall c | c in calls && InOrder(c.s)
      ensures EndsInOrder(p, c) <==> Lost(p, c) == [] && !Reorders(p, c)
    {
      CallKeepsOrderExactly(p, c);
    }
    if Orderly(p, calls) || forall c :: c in calls ==> EndsInOrder(p, c) {
      assert forall c :: c in calls ==> KeepsOrder(p, c);
    }
  }

  /** One event, from any state: exactly what its calls lose is dropped; and if it begins in
      order, all its calls end in order if and only if none loses or reorders a byte, and
      then so does the event. */
  lemma EventLosesExactly(p: Peer, s: Tls, e: Event)
    ensures var s', calls := Step(p, s, e).s, EventCalls(p, s, e);
            && s'.h.dropped == s.h.dropped + AllLost(p, calls)
            && (InOrder(s) ==> ((forall c :: c in calls ==> EndsInOrder(p, c)) <==> Orderly(p, calls)))
            && (InOrder(s) && Orderly(p, calls) ==> InOrder(s'))
  {
    EventTraced(p, s, e);
    if InOrder(s) {
      TraceInOrder(p, s, Step(p, s, e).s, EventCalls(p, s, e));
    }
  }

  lemma {:induction false} NothingLost(p: Peer, calls: seq<Call>)
    ensures AllLost(p, calls) == [] <==> forall c :: c in calls ==> Lost(p, c) == []
  {
    if calls != [] {
      NothingLost(p, calls[1..]);
      assert forall c :: c in calls <==> c == calls[0] || c in calls[1..];
      assert |AllLost(p, calls)| == |Lost(p, calls[0])| + |AllLost(p, calls[1..])|;
    }
  }

  // ---- plaintext ----

  /** Every byte written is accepted or buffered, and none of them twice. */
  ghost predicate Complete(s: Tls) {
    multiset(s.h.accepted) + multiset(Flat(s.buffer)) == multiset(s.h.written)
  }

  /** Over any run: what was written is what was accepted, what is buffered and what the
      calls of the run lose; and nothing is missing if and only if no call loses anything. */
  lemma PlaintextConserved(p: Peer, events: seq<Event>)
    ensures var s, calls := Run(p, FRESH, events), RunCalls(p, FRESH, events);
            && multiset(s.h.accepted) + multiset(Flat(s.buffer)) + multiset(AllLost(p, calls)) == multiset(s.h.written)
            && (Complete(s) <==> forall c :: c in calls ==> Lost(p, c) == [])
  {
    var s, calls := Run(p, FRESH, events), RunCalls(p, FRESH, events);
    RunKeeps(p, events);
    RunTraced(p, events);
    Nothing(FRESH);
    NothingLost(p, calls);
    NoneMissing(multiset(s.h.accepted) + multiset(Flat(s.buffer)), AllLost(p, calls), multiset(s.h.written));
  }

  lemma NoneMissing(kept: multiset<byte>, lost: Bytes, all: multiset<byte>)
    requires kept + multiset(lost) == all
    ensures kept == all <==> lost == []
  {
    assert |kept| + |lost| == |all|;
  }

  /** Over any run: every write and every flush ends with accepted ++ buffered = written, in
      order, if and only if none of them loses or reorders a byte; and then the run does. */
  lemma PlaintextInOrderExactly(p: Peer, events: seq<Event>)
    ensures var s, calls := Run(p, FRESH, events), RunCalls(p, FRESH, events);
            && ((forall c :: c in calls ==> EndsInOrder(p, c)) <==> Orderly(p, calls))
            && (Orderly(p, calls) ==> InOrder(s))
  {
    RunTraced(p, events);
    TraceInOrder(p, FRESH, Run(p, FRESH, events), RunCalls(p, FRESH, events));
  }

  ghost predicate NeverFatal(p: Peer) {
    forall n: nat :: !p.ssl(n).Fatal?
  }

  ghost predicate Connected(events: seq<Event>) {
    forall e :: e in events ==> !e.ConnectionLost?
  }

  /** An SSL object is one with which no connected run misses a byte, if and only if it
      never answers a write with a fatal error. */
  lemma CompleteExactly(p: Peer)
    ensures NeverFatal(p) <==>
            forall events :: Connected(events) ==> Complete(Run(p, FRESH, events))
  {
    if NeverFatal(p) {
      forall events | Connected(events) ensures Complete(Run(p, FRESH, events)) {
        NoFatalComplete(p, events);
      }
    } else {
      var n: nat :| p.ssl(n).Fatal?;
      var events := FatalLoses(p, n);
    }
  }

  lemma NoFatalComplete(p: Peer, events: seq<Event>)
    requires NeverFatal(p) && Connected(events)
    ensures Complete(Run(p, FRESH, events))
  {
    PlaintextConserved(p, events);
    CallsConnected(p, events);
    forall c | c in RunCalls(p, FRESH, events) ensures Lost(p, c) == [] {
      if c.FlushCall? {
        FlushLosesExactly(p, c.s.buffer, c.s.attached, c.s.clock);
      }
    }
  }

  lemma {:induction false} CallsConnected(p: Peer, events: seq<Event>)
    requires Connected(events)
    ensures Run(p, FRESH, events).attached
    ensures forall c :: c in RunCalls(p, FRESH, events) ==> c.s.attached
  {
    if events != [] {
      var before, e := events[..|events| - 1], events[|events| - 1];
      assert e in events && forall e' :: e' in before ==> e' in events;
      CallsConnected(p, before);
      EventTraced(p, Run(p, FRESH, before), e);
    }
  }

  /** A round of an unfinished handshake asks the raw transport once. */
  const ROUND := BufferUpdated([0], HandshakeWants, [], None)

  function Rounds(n: nat): (events: seq<Event>)
    ensures Connected(events)
  {
    if n == 0 then [] else Rounds(n - 1) + [ROUND]
  }

  function LastAnswer(s: Tls): Option<RawAnswer> {
    var answers := s.h.rawAnswers;
    if answers == [] then None else Some(answers[|answers| - 1])
  }

  /** A fresh connection after `n` such rounds. */
  ghost predicate Shaking(p: Peer, s: Tls, n: nat) {
    && s.attached && !s.closing && !s.handshaken && s.buffer == [] && s.clock == n
    && (n > 0 ==> LastAnswer(s) == Some(p.raw(n - 1)))
  }

  lemma {:induction false} AfterRounds(p: Peer, n: nat)
    ensures Shaking(p, Run(p, FRESH, Rounds(n)), n)
  {
    if n > 0 {
      AfterRounds(p, n - 1);
      OneRound(p, Run(p, FRESH, Rounds(n - 1)), n - 1);
      AndThen(p, Rounds(n - 1), ROUND);
    }
  }

  lemma OneRound(p: Peer, s: Tls, n: nat)
    requires Shaking(p, s, n)
    ensures Shaking(p, Step(p, s, ROUND).s, n + 1)
  {
    assert |Emit(s, [0]).outgoing| > 0;
    assert Step(p, s, ROUND) == SendAll(p, Emit(s, [0]));
  }

  lemma AndThen(p: Peer, events: seq<Event>, e: Event)
    ensures Run(p, FRESH, events + [e]) == Step(p, Run(p, FRESH, events), e).s
  {
    assert (events + [e])[..|events|] == events;
  }

  lemma AndThenCalls(p: Peer, events: seq<Event>, e: Event)
    ensures RunCalls(p, FRESH, events + [e]) ==
            RunCalls(p, FRESH, events) + EventCalls(p, Run(p, FRESH, events), e)
  {
    assert (events + [e])[..|events|] == events;
  }

  /** Whenever the SSL object has a fatal error to answer with, some run meets it. */
  lemma FatalLoses(p: Peer, n: nat) returns (events: seq<Event>)
    requires p.ssl(n).Fatal?
    ensures Connected(events) && !Complete(Run(p, FRESH, events))
  {
    var e := ResumeWriting([WriteBytes([1])]);
    events := Rounds(n) + [e];
    AfterRounds(p, n);
    AndThenCalls(p, Rounds(n), e);
    PlaintextConserved(p, events);
    var s := Run(p, FRESH, Rounds(n));
    FirstOfResume(p, s, WriteBytes([1]));
    assert Lost(p, WriteCall(s.(paused := false), [1])) == [1];
  }

  lemma FirstOfResume(p: Peer, s: Tls, call: AppCall)
    ensures forall c :: c in AppCalls(s.(paused := false), call) ==> c in EventCalls(p, s, ResumeWriting([call]))
    ensures call.WriteBytes? ==> WriteCall(s.(paused := false), call.data) in AppCalls(s.(paused := false), call)
  {
  }

  /** The connection may also go while bytes are buffered: the next flush pops a chunk and
      then raises, whatever the peer would have answered. */
  lemma ConnectionLossDropsChunk(p: Peer)
    ensures var events := [PauseWriting, App(WriteBytes([1])), ConnectionLost([]), ResumeWriting([])];
            var s := Run(p, FRESH, events);
            s.h.written == [1] && s.h.accepted == [] && s.buffer == []
  {
    var held := FRESH.(paused := true, buffer := [[1]], h := FRESH.h.(written := [1]));
    assert Step(p, FRESH.(paused := true), App(WriteBytes([1]))).s == held;
    var gone := held.(attached := false);
    assert Step(p, held, ConnectionLost([])).s == gone;
    assert FlushPlain(p, gone.(paused := false)) == Threw(ChunkLost(gone.(paused := false)));
    RunFour(p, PauseWriting, App(WriteBytes([1])), ConnectionLost([]), ResumeWriting([]));
  }

  lemma RunTwo(p: Peer, e1: Event, e2: Event)
    ensures Run(p, FRESH, [e1, e2]) == Step(p, Step(p, FRESH, e1).s, e2).s
  {
    AndThen(p, [], e1);
    AndThen(p, [e1], e2);
    assert [] + [e1] == [e1] && [e1] + [e2] == [e1, e2];
  }

  lemma RunThree(p: Peer, e1: Event, e2: Event, e3: Event)
    ensures Run(p, FRESH, [e1, e2, e3]) == Step(p, Step(p, Step(p, FRESH, e1).s, e2).s, e3).s
  {
    RunTwo(p, e1, e2);
    AndThen(p, [e1, e2], e3);
    assert [e1, e2] + [e3] == [e1, e2, e3];
  }

  lemma RunFour(p: Peer, e1: Event, e2: Event, e3: Event, e4: Event)
    ensures Run(p, FRESH, [e1, e2, e3, e4]) ==
            Step(p, Step(p, Step(p, Step(p, FRESH, e1).s, e2).s, e3).s, e4).s
  {
    RunThree(p, e1, e2, e3);
    AndThen(p, [e1, e2, e3], e4);
    assert [e1, e2, e3] + [e4] == [e1, e2, e3, e4];
  }

  /** The order does get lost: the application writes while paused and again from its own
      `resume_writing`, which runs before the buffer is flushed. */
  lemma ResumeCanReorder() returns (p: Peer, events: seq<Event>)
    ensures var s := Run(p, FRESH, events);
            s.h.written == [1, 2] && s.h.accepted == [2, 1] && s.h.dropped == []
  {
    p := Peer(_ => Accept(1, []), _ => Unwrapped([]), _ => Paused);
    var e1, e2, e3 := PauseWriting, App(WriteBytes([1])), ResumeWriting([WriteBytes([2])]);
    events := [e1, e2, e3];
    var held := FRESH.(paused := true, buffer := [[1]], h := FRESH.h.(written := [1]));
    assert Step(p, FRESH.(paused := true), e2).s == held;
    var mid := WriteAnswered(held.(paused := false), [2], Accept(1, []));
    WriteTwo(p, held);
    LastByteFlushed(p, mid);
    RunThree(p, e1, e2, e3);
  }

  lemma WriteTwo(p: Peer, held: Tls)
    requires held.attached && held.buffer == [[1]] && held.outgoing == [] && held.h.accepted == []
    requires p.ssl(held.clock) == Accept(1, [])
    ensures var mid := WriteAnswered(held.(paused := false), [2], Accept(1, []));
            && Callback(p, held.(paused := false), [WriteBytes([2])]) == Ret(mid, false)
            && mid.buffer == [[1]] && mid.outgoing == [] && mid.h.accepted == [2]
  {
    assert [WriteBytes([2])][1..] == [];
  }

  lemma LastByteFlushed(p: Peer, s: Tls)
    requires s.attached && s.buffer == [[1]] && s.outgoing == []
    requires p.ssl(s.clock) == Accept(1, [])
    ensures Flush(p, s) == Ret(FirstChunk(s, Accept(1, [])), false)
    ensures FirstChunk(s, Accept(1, [])).h.accepted == s.h.accepted + [1]
    ensures FirstChunk(s, Accept(1, [])).outgoing == []
  {
    var after := FirstChunk(s, Accept(1, []));
    assert after.buffer == [];
    assert FlushPlain(p, after) == Through(after);
  }

  // ---- ciphertext ----

  ghost predicate CipherInOrder(s: Tls) {
    s.h.sent + s.outgoing == s.h.produced
  }

  /** One hand-over of the BIO to the raw transport keeps the ciphertext exactly if the
      raw transport takes it or is paused. */
  lemma SendAllKeepsExactly(p: Peer, s: Tls)
    requires s.outgoing != []
    ensures var s' := SendAll(p, s).s;
            s'.h.sent + s'.outgoing == s.h.sent + s.outgoing <==> !p.raw(s.clock).Broken?
  {
    var s' := SendAll(p, s).s;
    if p.raw(s.clock).Broken? {
      assert |s'.h.sent + s'.outgoing| < |s.h.sent + s.outgoing|;
    } else if p.raw(s.clock).Taken? {
      assert (s.h.sent + s.outgoing) + [] == s.h.sent + s.outgoing;
    }
  }

  /** A raw transport is one with which every run keeps all ciphertext, in order, if and
      only if it never answers a write with another error than "paused". */
  lemma CipherInOrderExactly(p: Peer)
    ensures NeverBreaks(p) <==> forall events :: CipherInOrder(Run(p, FRESH, events))
  {
    if NeverBreaks(p) {
      forall events ensures CipherInOrder(Run(p, FRESH, events)) {
        RunTraced(p, events);
        CiphertextInOrder(p, events);
      }
    } else {
      var n: nat :| p.raw(n).Broken?;
      var events := BrokenWriteLoses(p, n);
    }
  }

  /** Whenever the raw transport has such an error to answer with, some run meets it. */
  lemma BrokenWriteLoses(p: Peer, n: nat) returns (events: seq<Event>)
    requires p.raw(n).Broken?
    ensures !CipherInOrder(Run(p, FRESH, events))
  {
    events := Rounds(n + 1);
    AfterRounds(p, n + 1);
    assert Broken in Run(p, FRESH, events).h.rawAnswers;
    CiphertextInOrder(p, events);
  }
}
