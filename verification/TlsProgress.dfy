// What the calls of the TLS wrapper do with what the peer answers: plaintext is offered,
// ciphertext is handed over, and a shutdown waits for the peer or closes.

module TlsProgress {
  import opened Common
  import opened TlsModel
  import opened TlsInvariants
  import opened TlsLosses

  // ---- ciphertext is handed over ----

  /** Between `s` and `s'` the SSL object produced some ciphertext, and with what waited in the
      BIO before it was handed to the raw transport in one write, the last call made, or there
      was nothing to hand over and no write. What the raw transport takes is sent, what it
      refuses for being paused waits in the BIO, and only another error is raised. */
  ghost predicate HandsOver(p: Peer, s: Tls, s': Tls, raised: bool) {
    && s.h.produced <= s'.h.produced
    && var bio := s.outgoing + s'.h.produced[|s.h.produced|..];
       if bio == [] then
         && !raised && s'.outgoing == [] && s'.h.sent == s.h.sent
         && s'.h.rawAnswers == s.h.rawAnswers && s'.paused == s.paused
       else
         && s'.clock > 0
         && s'.h.rawAnswers == s.h.rawAnswers + [p.raw(s'.clock - 1)]
         && match p.raw(s'.clock - 1)
            case Taken(pauses) =>
              !raised && s'.outgoing == [] && s'.h.sent == s.h.sent + bio && s'.paused == (s.paused || pauses)
            case Paused => !raised && s'.outgoing == bio && s'.h.sent == s.h.sent && s'.paused == s.paused
            case Broken => raised && s'.outgoing == [] && s'.h.sent == s.h.sent && s'.paused == s.paused
  }

  /** The SSL object produced `cipher` and nothing was handed over yet. */
  ghost predicate Produced(s: Tls, s': Tls, cipher: Bytes) {
    && s'.h.produced == s.h.produced + cipher && s'.outgoing == s.outgoing + cipher
    && s'.h.sent == s.h.sent && s'.h.rawAnswers == s.h.rawAnswers && s'.attached == s.attached && s'.paused == s.paused
  }

  lemma FlushOnceHandsOver(p: Peer, s: Tls, s': Tls, cipher: Bytes)
    requires Produced(s, s', cipher) && s'.attached
    ensures HandsOver(p, s, FlushOnce(p, s').s, FlushOnce(p, s').raised)
    ensures FlushCipher(p, s') == FlushOnce(p, s')
  {
    SentOrNot(p, s');
    assert FlushOnce(p, s').s.h.produced[|s.h.produced|..] == cipher;
  }

  lemma SentOrNot(p: Peer, s: Tls)
    requires s.attached
    ensures var r := FlushOnce(p, s);
            && r.s.h.produced == s.h.produced
            && if s.outgoing == [] then r == Ret(s, false)
               else
                 && r.s.clock == s.clock + 1 && r.s.h.rawAnswers == s.h.rawAnswers + [p.raw(s.clock)]
                 && r.raised == p.raw(s.clock).Broken?
                 && r.s.paused == (s.paused || (p.raw(s.clock).Taken? && p.raw(s.clock).pauses))
                 && r.s.outgoing == (if p.raw(s.clock).Paused? then s.outgoing else [])
                 && r.s.h.sent == (if p.raw(s.clock).Taken? then s.h.sent + s.outgoing else s.h.sent)
  {
  }

  /** A write on an unpaused, attached wrapper. The SSL object is asked once, and what it
      answers decides what becomes of the data: what it takes is accepted, the rest is
      buffered behind what was buffered, and a fatal error loses it. Then the BIO, with the
      new ciphertext, is handed over. */
  lemma WriteSends(p: Peer, s: Tls, data: Bytes)
    requires !s.paused && s.attached
    ensures var r, answer := Write(p, s, data), p.ssl(s.clock);
            && HandsOver(p, s, r.s, r.raised)
            && r.s.h.produced == s.h.produced + answer.cipher
            && r.s.h.written == s.h.written + data
            && match answer
               case Accept(count, _) =>
                 var taken := Min(count, |data|);
                 && r.s.h.accepted == s.h.accepted + data[..taken]
                 && r.s.buffer == s.buffer + if taken < |data| then [data[taken..]] else []
               case Want(_) => r.s.h.accepted == s.h.accepted && r.s.buffer == s.buffer + [data]
               case Fatal(_) => r.s.h.accepted == s.h.accepted && r.s.buffer == s.buffer
  {
    var s' := WriteAnswered(s, data, p.ssl(s.clock));
    FlushOnceHandsOver(p, s, s', p.ssl(s.clock).cipher);
    FlushOnceKeepsPlain(p, s');
    SentOrNot(p, s');
    assert s.h.accepted + data[..0] == s.h.accepted;
  }

  /** A write on a paused wrapper only adds its data to the end of the buffer; on an unpaused
      one that has lost its connection it raises and changes nothing. */
  lemma WriteHolds(p: Peer, s: Tls, data: Bytes)
    requires s.paused || !s.attached
    ensures var r := Write(p, s, data);
            if s.paused then
              !r.raised && r.s == s.(buffer := s.buffer + [data], h := s.h.(written := s.h.written + data))
            else r.raised && r.s == s
  {
  }

  // ---- a flush ----

  /** The SSL object would not go on: it wants something, or took nothing. */
  predicate Stuck(buffer: seq<Bytes>, answer: SslAnswer) {
    buffer != [] && (answer.Want? || Stalls(buffer[0], answer))
  }

  /** The plaintext loop produces ciphertext; it hands none over unless the SSL object fails,
      and it runs through only until the buffer is empty or the SSL object would not go on. */
  lemma {:induction false} FlushPlainSends(p: Peer, s: Tls) returns (cipher: Bytes)
    requires s.attached
    ensures var r := FlushPlain(p, s);
            match r
            case Through(s') =>
              && Produced(s, s', cipher)
              && (s'.buffer == [] || (s'.clock > s.clock && Stuck(s'.buffer, p.ssl(s'.clock - 1))))
            case GaveUp(s') => HandsOver(p, s, s', false)
            case Threw(s') => HandsOver(p, s, s', true)
    ensures FlushPlain(p, s).s.clock >= s.clock
    decreases |Flat(s.buffer)|, |s.buffer|
  {
    cipher := [];
    if s.buffer == [] {
      assert Produced(s, s, []);
    } else {
      var answer, s' := p.ssl(s.clock), FirstChunk(s, p.ssl(s.clock));
      match answer
      case Want(c) => cipher := c;
      case Fatal(c) =>
        FlushOnceHandsOver(p, s, s', c);
        SentOrNot(p, s');
      case Accept(_, c) =>
        if Stalls(s.buffer[0], answer) {
          cipher := c;
        } else {
          var more := FlushPlainSends(p, s');
          cipher := c + more;
          FurtherOn(p, s, s', FlushPlain(p, s').s, c, more);
        }
    }
  }

  lemma FurtherOn(p: Peer, s: Tls, s': Tls, s'': Tls, c: Bytes, more: Bytes)
    requires Produced(s, s', c)
    ensures Produced(s', s'', more) ==> Produced(s, s'', c + more)
    ensures forall raised :: HandsOver(p, s', s'', raised) ==> HandsOver(p, s, s'', raised)
  {
    Associate(s.h.produced, c, more);
    Associate(s.outgoing, c, more);
    if s'.h.produced <= s''.h.produced {
      var tail := s''.h.produced[|s'.h.produced|..];
      assert s''.h.produced == s'.h.produced + tail;
      Associate(s.h.produced, c, tail);
      assert s''.h.produced[|s.h.produced|..] == c + tail;
      Associate(s.outgoing, c, tail);
    }
  }

  /** A flush of an attached wrapper hands over what waits in the BIO and what the SSL object
      produces meanwhile, in one write; and if it did not meet a fatal error, plaintext stays
      buffered only because the SSL object would not take it. */
  lemma FlushSends(p: Peer, s: Tls)
    requires s.attached
    ensures var r := Flush(p, s);
            && HandsOver(p, s, r.s, r.raised)
            && (FlushPlain(p, s).Through? && r.s.buffer != [] ==>
                  exists n: nat :: s.clock <= n < r.s.clock && Stuck(r.s.buffer, p.ssl(n)))
  {
    var cipher := FlushPlainSends(p, s);
    match FlushPlain(p, s)
    case Through(s') =>
      FlushPlainRest(p, s);
      FlushOnceHandsOver(p, s, s', cipher);
      FlushOnceKeepsPlain(p, s');
      SentOrNot(p, s');
      if s'.buffer != [] {
        assert Stuck(FlushCipher(p, s').s.buffer, p.ssl(s'.clock - 1));
      }
    case GaveUp(_) =>
    case Threw(_) =>
  }

  // ---- the shutdown ----

  /** The parts of the state that only a shutdown or its timer changes. */
  ghost predicate SameClosing(s: Tls, s': Tls) {
    && s'.timer == s.timer && s'.liveTimers == s.liveTimers && s'.nextTimer == s.nextTimer
    && s'.rawClosed == s.rawClosed && s'.loopOpen == s.loopOpen
    && s'.closing == s.closing && s'.handshaken == s.handshaken
  }

  lemma {:induction false} FlushPlainKeepsClosing(p: Peer, s: Tls)
    ensures SameClosing(s, FlushPlain(p, s).s)
    decreases |Flat(s.buffer)|, |s.buffer|
  {
    if s.buffer != [] && s.attached {
      var answer, s' := p.ssl(s.clock), FirstChunk(s, p.ssl(s.clock));
      FlushOnceKeepsClosing(p, s');
      if answer.Accept? && !Stalls(s.buffer[0], answer) {
        FlushPlainKeepsClosing(p, s');
      }
    }
  }

  lemma FlushOnceKeepsClosing(p: Peer, s: Tls)
    ensures SameClosing(s, FlushOnce(p, s).s) && SameClosing(s, FlushCipher(p, s).s)
  {
  }

  lemma FlushKeepsClosing(p: Peer, s: Tls)
    ensures SameClosing(s, Flush(p, s).s)
  {
    FlushPlainKeepsClosing(p, s);
    FlushOnceKeepsClosing(p, FlushPlain(p, s).s);
  }

  /** What a shutdown that was not stopped leaves, from the state `s` before it and the answer
      of `unwrap`: a new timer and the raw transport as it was, if and only if the SSL object
      wants to go on, no timer was stored and the loop is open; otherwise a closed raw transport
      and no timer. */
  ghost predicate WaitsOrCloses(s: Tls, answer: UnwrapAnswer, s': Tls) {
    var waits := answer.UnwrapWants? && s.timer.None? && s.loopOpen;
    && (s'.timer.Some? <==> waits)
    && (waits ==>
          && s'.timer == Some(s.nextTimer) && s'.rawClosed == s.rawClosed
          && s'.liveTimers == s.liveTimers + {s.nextTimer})
    && (!waits ==>
          && s'.rawClosed
          && s'.liveTimers == s.liveTimers - (if s.timer.Some? then {s.timer.value} else {}))
  }

  /** A shutdown flushes, and goes no further if that raised or left plaintext buffered. Else
      it unwraps once, with nothing buffered, unless the connection is lost; hands over what
      that produces; and if nothing was raised, waits for the peer or closes. */
  lemma ShutdownExactly(p: Peer, s: Tls)
    ensures var f, r := Flush(p, s), StartShutdown(p, s);
            if f.raised || f.s.buffer != [] then r == f && SameClosing(s, r.s)
            else if !f.s.attached then r.raised && r.s == f.s && SameClosing(s, r.s)
            else
              var answer := p.unwrap(f.s.clock);
              && HandsOverAfter(p, f.s, r.s, r.raised, answer.cipher)
              && r.s.h.backlogs == f.s.h.backlogs + [0]
              && if r.raised then SameClosing(s, r.s) else WaitsOrCloses(s, answer, r.s)
  {
    var f := Flush(p, s);
    FlushKeepsClosing(p, s);
    if !f.raised && f.s.buffer == [] && f.s.attached {
      UnwrapHandsOver(p, f.s);
      UnwrapSettles(p, s);
    }
  }

  lemma UnwrapHandsOver(p: Peer, s: Tls)
    requires s.attached && s.buffer == []
    ensures var answer := p.unwrap(s.clock);
            var r := FlushOnce(p, Unwrap(s, answer));
            && HandsOverAfter(p, s, r.s, r.raised, answer.cipher)
            && r.s.h.backlogs == s.h.backlogs + [0] && SameClosing(s, r.s)
  {
    var answer := p.unwrap(s.clock);
    var s' := Unwrap(s, answer);
    FlushOnceHandsOver(p, s, s', answer.cipher);
    FlushOnceKeepsClosing(p, s');
    FlushOnceKeepsPlain(p, s');
    SentOrNot(p, s');
  }

  /** The end of a shutdown that got as far as `unwrap`. */
  lemma UnwrapSettles(p: Peer, s: Tls)
    requires var f := Flush(p, s); !f.raised && f.s.buffer == [] && f.s.attached
    ensures var f, r := Flush(p, s).s, StartShutdown(p, s);
            var answer := p.unwrap(f.clock);
            var sent := FlushOnce(p, Unwrap(f, answer));
            && r.raised == sent.raised
            && r.s.h == sent.s.h && r.s.outgoing == sent.s.outgoing
            && r.s.clock == sent.s.clock && r.s.paused == sent.s.paused
            && if sent.raised then r == sent else WaitsOrCloses(sent.s, answer, r.s)
  {
  }

  /** The same as `HandsOver`, for ciphertext known beforehand. */
  ghost predicate HandsOverAfter(p: Peer, s: Tls, s': Tls, raised: bool, cipher: Bytes) {
    HandsOver(p, s, s', raised) && s'.h.produced == s.h.produced + cipher
  }

  /** After any run no live timer is left behind by a shutdown that closed. */
  lemma ClosedLeavesNoTimer(p: Peer, events: seq<Event>)
    ensures var s := Run(p, FRESH, events);
            var f, r := Flush(p, s), StartShutdown(p, s);
            !r.raised && f.s.buffer == [] &&
            !(p.unwrap(f.s.clock).UnwrapWants? && s.timer.None? && s.loopOpen) ==>
              r.s.rawClosed && r.s.timer.None? && r.s.liveTimers == {}
  {
    RunKeeps(p, events);
    ShutdownExactly(p, Run(p, FRESH, events));
  }

  /** Only the first `close` starts a shutdown: it is the same whether or not the wrapper
      was marked as closing; a second one changes nothing. */
  lemma CloseOnce(p: Peer, s: Tls)
    ensures Close(p, s).s.closing
    ensures s.closing ==> Close(p, s) == Ret(s, false)
    ensures !s.closing ==> Close(p, s) == StartShutdown(p, s.(closing := true))
    ensures Close(p, Close(p, s).s) == Ret(Close(p, s).s, false)
  {
    ShutdownExactly(p, s.(closing := true));
    FlushKeepsClosing(p, s.(closing := true));
    ShutdownKeepsFlags(p, s.(closing := true));
  }

  lemma ShutdownKeepsFlags(p: Peer, s: Tls)
    ensures var r := StartShutdown(p, s);
            r.s.closing == s.closing && r.s.handshaken == s.handshaken && r.s.loopOpen == s.loopOpen
  {
    var f := Flush(p, s);
    FlushKeepsClosing(p, s);
    if f.s.attached {
      FlushOnceKeepsClosing(p, Unwrap(f.s, p.unwrap(f.s.clock)));
    }
  }

  /** When the shutdown timer fires the raw transport is closed and no timer is left. */
  lemma TimerCloses(p: Peer, events: seq<Event>)
    ensures var s := Run(p, FRESH, events);
            var r := Step(p, s, TimerFires);
            && (s.timer.Some? ==> r.s.rawClosed && r.s.timer.None? && r.s.liveTimers == {})
            && (s.timer.None? ==> r.s == s)
  {
    RunKeeps(p, events);
  }

  // ---- the handshake ----

  lemma {:induction false} CallbackKeepsFlags(p: Peer, s: Tls, calls: seq<AppCall>)
    ensures Callback(p, s, calls).s.handshaken == s.handshaken
    ensures s.closing ==> Callback(p, s, calls).s.closing
    decreases |calls|
  {
    if calls != [] {
      var s' := AppStep(p, s, calls[0]).s;
      match calls[0] {
        case WriteBytes(data) => WriteKeepsClosing(p, s, data);
        case CloseTransport => ShutdownKeepsFlags(p, s.(closing := true));
      }
      CallbackKeepsFlags(p, s', calls[1..]);
    }
  }

  lemma WriteKeepsClosing(p: Peer, s: Tls, data: Bytes)
    ensures SameClosing(s, Write(p, s, data).s)
  {
    if !s.paused && s.attached {
      AnsweredKeepsClosing(s, data, p.ssl(s.clock));
      FlushOnceKeepsClosing(p, WriteAnswered(s, data, p.ssl(s.clock)));
    }
  }

  lemma AnsweredKeepsClosing(s: Tls, data: Bytes, answer: SslAnswer)
    ensures SameClosing(s, WriteAnswered(s, data, answer))
  {
  }

  /** A handshake that goes on hands over its ciphertext and touches no plaintext; one that
      fails leaves it in the BIO and sends nothing; one that is done hands over, and only then,
      and only if that did not raise, does the application hear of it. The handshake counts as
      done exactly if the SSL object finished it. */
  lemma HandshakeExactly(
    p: Peer, s: Tls, cipher: Bytes, handshake: Handshake, replies: seq<AppCall>, eof: Option<seq<AppCall>>)
    returns (mid: Ret)
    requires s.attached && !s.closing && !s.handshaken
    ensures var r := Receive(p, s, cipher, handshake, replies, eof);
            && (r.s.handshaken <==> handshake.HandshakeDone?)
            && match handshake
               case HandshakeFails => !r.raised && Produced(s, r.s, cipher) && SamePlain(s, r.s)
               case HandshakeWants => r == mid
               case HandshakeDone => mid.s.handshaken && r == if mid.raised then mid else Callback(p, mid.s, replies)
    ensures HandsOverAfter(p, s, mid.s, mid.raised, cipher) && SamePlain(s, mid.s)
  {
    var s' := Emit(s, cipher).(handshaken := handshake.HandshakeDone?);
    mid := FlushOnce(p, s');
    FlushOnceHandsOver(p, s, s', cipher);
    FlushOnceKeepsPlain(p, s');
    FlushOnceKeepsClosing(p, s');
    SentOrNot(p, s');
    CallbackKeepsFlags(p, mid.s, replies);
    assert Emit(s, cipher).(handshaken := false) == Emit(s, cipher);
  }

  // ---- the other events ----

  /** `resume_writing` lets writes through again before the application is told; then it
      flushes, and hands over once more unless that raised. */
  lemma ResumeExactly(p: Peer, s: Tls, calls: seq<AppCall>)
    requires s.attached
    ensures var told, r := Callback(p, s.(paused := false), calls).s, Step(p, s, ResumeWriting(calls));
            var f := Flush(p, told);
            && HandsOver(p, told, f.s, f.raised)
            && (FlushPlain(p, told).Through? && f.s.buffer != [] ==>
                  exists n: nat :: told.clock <= n < f.s.clock && Stuck(f.s.buffer, p.ssl(n)))
            && if f.raised then r == f else HandsOverAfter(p, f.s, r.s, r.raised, []) && SamePlain(f.s, r.s)
  {
    var told := Callback(p, s.(paused := false), calls).s;
    var f := Flush(p, told);
    CallbackAccounts(p, s.(paused := false), calls);
    FlushSends(p, told);
    FlushAccounts(p, told);
    if !f.raised {
      assert f.s.h.produced + [] == f.s.h.produced && f.s.outgoing + [] == f.s.outgoing;
      FlushOnceHandsOver(p, f.s, f.s, []);
      FlushOnceKeepsPlain(p, f.s);
      SentOrNot(p, f.s);
    }
  }

  /** While closing, and at the end of the stream whatever `eof_received` raises, data that
      arrives leaves the raw transport closed or a shutdown timer armed, unless something was
      raised or plaintext is still buffered. */
  lemma ReceiveShutsDown(
    p: Peer, s: Tls, cipher: Bytes, handshake: Handshake, replies: seq<AppCall>, eof: Option<seq<AppCall>>)
    requires s.attached
    requires s.closing || (s.handshaken && eof.Some? && !Callback(p, Emit(s, cipher), replies).raised)
    ensures var r := Step(p, s, BufferUpdated(cipher, handshake, replies, eof));
            r.raised || r.s.buffer != [] || r.s.rawClosed || (r.s.timer.Some? && r.s.timer.value in r.s.liveTimers)
  {
    ShutdownSettles(p, s);
    if eof.Some? {
      ShutdownSettles(p, Callback(p, Callback(p, Emit(s, cipher), replies).s, eof.value).s);
    }
  }

  // ---- when ciphertext is left waiting ----

  /** Ciphertext waits in the BIO although the raw transport is not the reason. */
  ghost predicate Waiting(s: Tls) {
    s.outgoing != [] && LastAnswer(s) != Some(Paused)
  }

  /** The call hands over what waits. */
  predicate HandsOn(c: Call) {
    c.FlushCall? || !c.s.paused
  }

  ghost predicate SomeHandsOn(calls: seq<Call>) {
    exists c :: c in calls && HandsOn(c)
  }

  /** From `s` to `s'`, attached, one of `calls` hands over what waits, or the BIO and the
      answers of the raw transport are untouched. */
  ghost predicate Moved(s: Tls, s': Tls, calls: seq<Call>) {
    && s'.attached == s.attached
    && if SomeHandsOn(calls) then !Waiting(s')
       else s'.outgoing == s.outgoing && s'.h.rawAnswers == s.h.rawAnswers
  }

  lemma MovedOn(s: Tls, s': Tls, s'': Tls, a: seq<Call>, b: seq<Call>)
    requires Moved(s, s', a) && Moved(s', s'', b)
    ensures Moved(s, s'', a + b)
  {
    if SomeHandsOn(a) || SomeHandsOn(b) {
      var c :| (c in a || c in b) && HandsOn(c);
      assert c in a + b;
    }
    assert forall c :: c in a + b <==> c in a || c in b;
  }

  lemma NoneWaits(p: Peer, s: Tls, s': Tls, raised: bool)
    requires HandsOver(p, s, s', raised)
    ensures !Waiting(s')
  {
  }

  lemma OneHandsOn(c: Call)
    ensures SomeHandsOn([c]) <==> HandsOn(c)
    ensures !SomeHandsOn([])
  {
    assert c in [c];
  }

  lemma ShutdownMoves(p: Peer, s: Tls)
    requires s.attached
    ensures Moved(s, StartShutdown(p, s).s, [FlushCall(s)])
  {
    OneHandsOn(FlushCall(s));
    StartShutdownAccounts(p, s);
    FlushSends(p, s);
    NoneWaits(p, s, Flush(p, s).s, Flush(p, s).raised);
    var f := Flush(p, s);
    if !f.raised && f.s.buffer == [] && f.s.attached {
      var s' := Unwrap(f.s, p.unwrap(f.s.clock));
      FlushOnceHandsOver(p, f.s, s', p.unwrap(f.s.clock).cipher);
      NoneWaits(p, f.s, FlushOnce(p, s').s, FlushOnce(p, s').raised);
    }
  }

  lemma AppStepMoves(p: Peer, s: Tls, call: AppCall)
    requires s.attached
    ensures Moved(s, AppStep(p, s, call).s, AppCalls(s, call))
  {
    match call
    case WriteBytes(data) =>
      OneHandsOn(WriteCall(s, data));
      WriteAccounts(p, s, data);
      if !s.paused {
        WriteSends(p, s, data);
        NoneWaits(p, s, Write(p, s, data).s, Write(p, s, data).raised);
      }
    case CloseTransport =>
      if !s.closing {
        var s0 := s.(closing := true);
        ShutdownMoves(p, s0);
        OneHandsOn(FlushCall(s0));
      }
  }

  lemma {:induction false} CallbackMoves(p: Peer, s: Tls, calls: seq<AppCall>)
    requires s.attached
    ensures Moved(s, Callback(p, s, calls).s, CallbackCalls(p, s, calls))
    decreases |calls|
  {
    if calls != [] {
      var r := AppStep(p, s, calls[0]);
      AppStepMoves(p, s, calls[0]);
      if r.raised {
        assert AppCalls(s, calls[0]) + [] == AppCalls(s, calls[0]);
      } else {
        CallbackMoves(p, r.s, calls[1..]);
        MovedOn(s, r.s, Callback(p, s, calls).s, AppCalls(s, calls[0]), CallbackCalls(p, r.s, calls[1..]));
      }
    }
  }

  lemma ResumeMoves(p: Peer, s: Tls, calls: seq<AppCall>)
    requires s.attached
    ensures !Waiting(Resume(p, s, calls).s)
  {
    var s1 := Callback(p, s.(paused := false), calls).s;
    var f := Flush(p, s1);
    CallbackMoves(p, s.(paused := false), calls);
    FlushSends(p, s1);
    NoneWaits(p, s1, f.s, f.raised);
    FlushAccounts(p, s1);
    if !f.raised {
      assert f.s.h.produced + [] == f.s.h.produced && f.s.outgoing + [] == f.s.outgoing;
      FlushOnceHandsOver(p, f.s, f.s, []);
      NoneWaits(p, f.s, FlushOnce(p, f.s).s, FlushOnce(p, f.s).raised);
    }
  }

  /** What `_r` produced is handed over exactly if some write or flush follows it. */
  lemma ReadMoves(p: Peer, s: Tls, cipher: Bytes, replies: seq<AppCall>, eof: Option<seq<AppCall>>)
    requires s.attached
    ensures Moved(Emit(s, cipher), Read(p, s, cipher, replies, eof).s, ReadCalls(p, s, cipher, replies, eof))
  {
    var s' := Emit(s, cipher);
    var r, first := Callback(p, s', replies), CallbackCalls(p, s', replies);
    CallbackMoves(p, s', replies);
    if r.raised || eof.None? {
      assert first + [] == first;
    } else {
      var s'' := Callback(p, r.s, eof.value).s;
      CallbackMoves(p, r.s, eof.value);
      ShutdownMoves(p, s'');
      MovedOn(r.s, s'', StartShutdown(p, s'').s, CallbackCalls(p, r.s, eof.value), [FlushCall(s'')]);
      MovedOn(s', r.s, StartShutdown(p, s'').s, first, CallbackCalls(p, r.s, eof.value) + [FlushCall(s'')]);
    }
  }

  lemma ReceiveWaitsExactly(
    p: Peer, s: Tls, cipher: Bytes, handshake: Handshake, replies: seq<AppCall>, eof: Option<seq<AppCall>>)
    requires s.attached && !Waiting(s)
    ensures Waiting(Receive(p, s, cipher, handshake, replies, eof).s) <==>
            && !s.closing && cipher != [] && LastAnswer(s) != Some(Paused)
            && if s.handshaken then !SomeHandsOn(ReadCalls(p, s, cipher, replies, eof)) else handshake.HandshakeFails?
  {
    if s.closing {
      ShutdownMoves(p, s);
      OneHandsOn(FlushCall(s));
    } else if s.handshaken {
      ReadMoves(p, s, cipher, replies, eof);
    } else {
      var mid := HandshakeExactly(p, s, cipher, handshake, replies, eof);
      NoneWaits(p, s, mid.s, mid.raised);
      if handshake.HandshakeDone? && !mid.raised {
        FlushOnceAttached(p, s, cipher);
        CallbackMoves(p, FlushOnce(p, Emit(s, cipher).(handshaken := true)).s, replies);
      }
    }
  }

  lemma FlushOnceAttached(p: Peer, s: Tls, cipher: Bytes)
    ensures FlushOnce(p, Emit(s, cipher).(handshaken := true)).s.attached == s.attached
  {
  }

  /** Exactly when an event leaves ciphertext waiting that no paused raw transport held back:
      the SSL object produced some, with none held back before, while a handshake failed, or
      while data was read and no write or flush that hands over came of it. */
  lemma EventWaitsExactly(p: Peer, s: Tls, e: Event)
    requires s.attached && !Waiting(s)
    ensures Waiting(Step(p, s, e).s) <==>
            && e.BufferUpdated? && !s.closing && e.cipher != [] && LastAnswer(s) != Some(Paused)
            && if s.handshaken then !SomeHandsOn(EventCalls(p, s, e)) else e.handshake.HandshakeFails?
  {
    match e
    case App(call) => AppStepMoves(p, s, call);
    case ResumeWriting(calls) => ResumeMoves(p, s, calls);
    case BufferUpdated(cipher, handshake, replies, eof) =>
      ReceiveWaitsExactly(p, s, cipher, handshake, replies, eof);
    case ConnectionLost(calls) => CallbackMoves(p, s, calls);
    case _ =>
  }

  /** No event of a run leaves ciphertext waiting in that way. */
  ghost predicate NoneLeft(p: Peer, events: seq<Event>) {
    events != [] ==>
      var before, e := events[..|events| - 1], events[|events| - 1];
      var s := Run(p, FRESH, before);
      && NoneLeft(p, before)
      && (e.BufferUpdated? && !s.closing && e.cipher != [] && LastAnswer(s) != Some(Paused) ==>
            if s.handshaken then SomeHandsOn(EventCalls(p, s, e)) else !e.handshake.HandshakeFails?)
  }

  /** Then, in every connected run, ciphertext waits in the BIO only because the raw transport
      answered the last write with "paused". */
  lemma {:induction false} WaitsOnlyWhenPaused(p: Peer, events: seq<Event>)
    requires Connected(events) && NoneLeft(p, events)
    ensures !Waiting(Run(p, FRESH, events))
  {
    if events != [] {
      var before, e := events[..|events| - 1], events[|events| - 1];
      assert e in events && forall e' :: e' in before ==> e' in events;
      WaitsOnlyWhenPaused(p, before);
      CallsConnected(p, before);
      EventWaitsExactly(p, Run(p, FRESH, before), e);
    }
  }

  /** It does happen: with every peer, ciphertext that reading produced stays in the BIO when
      the application does not write in reply. */
  lemma ReadLeavesCipher(p: Peer) returns (events: seq<Event>)
    ensures var s := Run(p, FRESH, events);
            s.attached && !s.closing && s.outgoing == [9] && s.h.rawAnswers == []
  {
    events := [BufferUpdated([], HandshakeDone, [], None), BufferUpdated([9], HandshakeDone, [], None)];
    RunTwo(p, events[0], events[1]);
    assert Emit(FRESH, []) == FRESH;
    assert Step(p, FRESH, events[0]).s == FRESH.(handshaken := true);
  }
}
