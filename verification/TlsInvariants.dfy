// What every event and every run of the TLS wrapper keeps.

module TlsInvariants {
  import opened Common
  import opened TlsModel

  // ---- the invariant ----

  /** No plaintext byte is duplicated or invented, and every byte written is accepted,
      buffered, or was dropped by an exception. */
  ghost predicate PlaintextKept(s: Tls) {
    multiset(s.h.accepted) + multiset(Flat(s.buffer)) + multiset(s.h.dropped) == multiset(s.h.written)
  }

  ghost predicate InOrder(s: Tls) {
    s.h.accepted + Flat(s.buffer) == s.h.written
  }

  ghost predicate CipherKept(s: Tls) {
    && |s.h.sent| + |s.outgoing| + s.h.lost == |s.h.produced|
    && (s.h.lost == 0 ==> s.h.sent + s.outgoing == s.h.produced)
    && (s.h.lost == 0 <==> Broken !in s.h.rawAnswers)
  }

  ghost predicate TimerKept(s: Tls) {
    && s.liveTimers == (if s.timer.Some? then {s.timer.value} else {})
    && (s.timer.Some? ==> s.timer.value < s.nextTimer)
  }

  ghost predicate NoBacklog(s: Tls) {
    forall k :: 0 <= k < |s.h.backlogs| ==> s.h.backlogs[k] == 0
  }

  ghost predicate Inv(s: Tls) {
    PlaintextKept(s) && CipherKept(s) && TimerKept(s) && NoBacklog(s)
  }

  /** The parts of the state that plaintext bookkeeping reads. */
  ghost predicate SamePlain(s: Tls, s': Tls) {
    && s'.buffer == s.buffer && s'.h.accepted == s.h.accepted && s'.h.dropped == s.h.dropped
    && s'.h.written == s.h.written && s'.h.backlogs == s.h.backlogs
    && s'.timer == s.timer && s'.liveTimers == s.liveTimers && s'.nextTimer == s.nextTimer
  }

  lemma EmitKeeps(s: Tls, cipher: Bytes)
    requires CipherKept(s)
    ensures CipherKept(Emit(s, cipher)) && SamePlain(s, Emit(s, cipher))
  {
    assert (s.h.sent + s.outgoing) + cipher == s.h.sent + (s.outgoing + cipher);
  }

  lemma SendAllKeeps(p: Peer, s: Tls)
    requires CipherKept(s) && s.outgoing != []
    ensures CipherKept(SendAll(p, s).s) && SamePlain(s, SendAll(p, s).s)
  {
    SendAllKeepsPlain(p, s);
    match p.raw(s.clock)
    case Taken(_) => assert (s.h.sent + s.outgoing) + [] == s.h.sent + s.outgoing;
    case Paused =>
    case Broken =>
  }

  lemma FlushOnceKeeps(p: Peer, s: Tls)
    requires Inv(s)
    ensures Inv(FlushOnce(p, s).s) && SamePlain(s, FlushOnce(p, s).s)
  {
    if s.attached && s.outgoing != [] {
      SendAllKeeps(p, s);
    }
  }

  lemma FlushCipherKeeps(p: Peer, s: Tls)
    requires Inv(s)
    ensures Inv(FlushCipher(p, s).s) && SamePlain(s, FlushCipher(p, s).s)
  {
    if s.attached && s.outgoing != [] {
      SendAllKeeps(p, s);
    }
  }

  lemma SplitBytes(data: Bytes, k: nat)
    requires k <= |data|
    ensures data[..k] + data[k..] == data
    ensures multiset(data[..k]) + multiset(data[k..]) == multiset(data)
  {
    assert data[..k] + data[k..] == data;
  }

  lemma WriteAnsweredKeeps(s: Tls, data: Bytes, answer: SslAnswer)
    requires Inv(s)
    ensures Inv(WriteAnswered(s, data, answer))
  {
    EmitKeeps(s, answer.cipher);
    WriteKeepsPlaintext(s, data, answer);
  }

  lemma WriteKeepsPlaintext(s: Tls, data: Bytes, answer: SslAnswer)
    requires PlaintextKept(s)
    ensures PlaintextKept(WriteAnswered(s, data, answer))
  {
    SplitBytes(data, Took(data, answer));
    if !answer.Fatal? {
      AnsweredBytes(s, data, answer);
    }
  }

  /** Any single write. */
  lemma WriteKeeps(p: Peer, s: Tls, data: Bytes)
    requires Inv(s)
    ensures Inv(Write(p, s, data).s)
  {
    if s.paused {
      FlatAppend(s.buffer, data);
      assert (s.h.accepted + Flat(s.buffer)) + data == s.h.accepted + (Flat(s.buffer) + data);
    } else if s.attached {
      WriteAnsweredKeeps(s, data, p.ssl(s.clock));
      FlushOnceKeeps(p, WriteAnswered(s, data, p.ssl(s.clock)));
    }
  }

  /** Offering the first chunk, in terms of the bytes only. */
  lemma FirstChunkBytes(s: Tls, answer: SslAnswer)
    requires s.buffer != []
    ensures Flat(FirstChunk(s, answer).buffer) ==
            if answer.Fatal? then Flat(s.buffer[1..])
            else s.buffer[0][Took(s.buffer[0], answer)..] + Flat(s.buffer[1..])
  {
    FirstChunkFlat(s.buffer[0], s.buffer[1..], Took(s.buffer[0], answer), FirstChunk(s, answer).buffer);
  }

  lemma FirstChunkFlat(data: Bytes, rest: seq<Bytes>, k: nat, buffer: seq<Bytes>)
    requires k <= |data|
    ensures buffer == [data] + rest && k == 0 ==> Flat(buffer) == data[k..] + Flat(rest)
    ensures buffer == [data[k..]] + rest ==> Flat(buffer) == data[k..] + Flat(rest)
    ensures buffer == rest && k == |data| ==> Flat(buffer) == data[k..] + Flat(rest)
  {
    FlatCons(data[k..], rest);
    assert data[0..] == data;
    if k == |data| {
      assert data[k..] + Flat(rest) == Flat(rest);
    }
  }

  lemma FirstChunkKeeps(s: Tls, answer: SslAnswer)
    requires Inv(s) && s.buffer != []
    ensures Inv(FirstChunk(s, answer))
  {
    FirstChunkPlain(s, answer);
    FirstChunkCipher(s, answer);
  }

  lemma FirstChunkPlain(s: Tls, answer: SslAnswer)
    requires PlaintextKept(s) && s.buffer != []
    ensures PlaintextKept(FirstChunk(s, answer))
  {
    FirstChunkBytes(s, answer);
    MovedMultiset(s.h.accepted, s.buffer[0], Flat(s.buffer[1..]), Took(s.buffer[0], answer));
  }

  lemma MovedMultiset(a: Bytes, data: Bytes, f: Bytes, k: nat)
    requires k <= |data|
    ensures multiset(a + data[..k]) + multiset(data[k..] + f) == multiset(a) + multiset(data + f)
    ensures k == 0 ==> multiset(a + data[..k]) == multiset(a)
    ensures multiset(data + f) == multiset(data) + multiset(f)
  {
    SplitBytes(data, k);
  }

  lemma MovedOrder(a: Bytes, data: Bytes, f: Bytes, k: nat)
    requires k <= |data|
    ensures (a + data[..k]) + (data[k..] + f) == a + (data + f)
  {
  }

  lemma FirstChunkCipher(s: Tls, answer: SslAnswer)
    requires Inv(s) && s.buffer != []
    ensures var s' := FirstChunk(s, answer);
            CipherKept(s') && TimerKept(s') && NoBacklog(s')
  {
    EmitKeeps(s, answer.cipher);
  }

  lemma ChunkLostKeeps(s: Tls)
    requires Inv(s) && s.buffer != []
    ensures Inv(ChunkLost(s))
  {
    ChunkLostPlain(s);
  }

  lemma ChunkLostPlain(s: Tls)
    requires PlaintextKept(s) && s.buffer != []
    ensures PlaintextKept(ChunkLost(s))
  {
    MovedMultiset([], s.buffer[0], Flat(s.buffer[1..]), 0);
    assert multiset(s.h.dropped + s.buffer[0]) == multiset(s.h.dropped) + multiset(s.buffer[0]);
  }

  /** The flush loop, whatever the SSL object answers. */
  lemma {:induction false} FlushPlainKeeps(p: Peer, s: Tls)
    requires Inv(s)
    ensures Inv(FlushPlain(p, s).s)
    decreases |Flat(s.buffer)|, |s.buffer|
  {
    if s.buffer != [] {
      if !s.attached {
        ChunkLostKeeps(s);
      } else {
        var answer := p.ssl(s.clock);
        FirstChunkKeeps(s, answer);
        var s' := FirstChunk(s, answer);
        match answer
        case Want(_) =>
        case Fatal(_) => FlushOnceKeeps(p, s');
        case Accept(_, _) =>
          if !(Took(s.buffer[0], answer) < |s.buffer[0]| && Took(s.buffer[0], answer) == 0) {
            FlushPlainKeeps(p, s');
          }
      }
    }
  }

  lemma FlushKeeps(p: Peer, s: Tls)
    requires Inv(s)
    ensures Inv(Flush(p, s).s)
  {
    FlushPlainKeeps(p, s);
    match FlushPlain(p, s)
    case Through(s') => FlushCipherKeeps(p, s');
    case _ =>
  }

  lemma StartShutdownKeeps(p: Peer, s: Tls)
    requires Inv(s)
    ensures Inv(StartShutdown(p, s).s)
  {
    FlushKeeps(p, s);
    var flushed := Flush(p, s);
    if !flushed.raised && flushed.s.buffer == [] && flushed.s.attached {
      var s' := Unwrap(flushed.s, p.unwrap(flushed.s.clock));
      UnwrapKeeps(flushed.s, p.unwrap(flushed.s.clock));
      FlushOnceKeeps(p, s');
      ForceCloseKeeps(FlushOnce(p, s').s);
      ArmTimerKeeps(FlushOnce(p, s').s);
    }
  }

  lemma UnwrapKeeps(s: Tls, answer: UnwrapAnswer)
    requires Inv(s) && s.buffer == []
    ensures Inv(Unwrap(s, answer))
  {
    EmitKeeps(s, answer.cipher);
  }

  lemma ForceCloseKeeps(s: Tls)
    requires Inv(s)
    ensures Inv(ForceClose(s))
  {
  }

  lemma ArmTimerKeeps(s: Tls)
    requires Inv(s)
    ensures s.timer.None? ==> Inv(ArmTimer(s))
  {
  }

  lemma AppStepKeeps(p: Peer, s: Tls, call: AppCall)
    requires Inv(s)
    ensures Inv(AppStep(p, s, call).s)
  {
    match call
    case WriteBytes(data) => WriteKeeps(p, s, data);
    case CloseTransport => if !s.closing { StartShutdownKeeps(p, s.(closing := true)); }
  }

  lemma {:induction false} CallbackKeeps(p: Peer, s: Tls, calls: seq<AppCall>)
    requires Inv(s)
    ensures Inv(Callback(p, s, calls).s)
    decreases |calls|
  {
    if calls != [] {
      AppStepKeeps(p, s, calls[0]);
      CallbackKeeps(p, AppStep(p, s, calls[0]).s, calls[1..]);
    }
  }

  /** Every event of every kind keeps the invariant. */
  lemma StepKeeps(p: Peer, s: Tls, e: Event)
    requires Inv(s)
    ensures Inv(Step(p, s, e).s)
  {
    match e
    case App(call) => AppStepKeeps(p, s, call);
    case PauseWriting => FlagsKeep(s);
    case ResumeWriting(calls) => ResumeKeeps(p, s, calls);
    case BufferUpdated(cipher, handshake, replies, eof) =>
      ReceiveKeeps(p, s, cipher, handshake, replies, eof);
    case TimerFires => TimerKeeps(s);
    case ConnectionLost(calls) =>
      CallbackKeeps(p, s, calls);
      FlagsKeep(Callback(p, s, calls).s);
    case LoopCloses => FlagsKeep(s);
  }

  lemma FlagsKeep(s: Tls)
    requires Inv(s)
    ensures Inv(s.(paused := true)) && Inv(s.(attached := false)) && Inv(s.(loopOpen := false))
  {
  }

  lemma TimerKeeps(s: Tls)
    requires Inv(s)
    ensures s.timer.Some? ==> Inv(ForceClose(s.(liveTimers := s.liveTimers - {s.timer.value})))
  {
  }

  lemma ResumeKeeps(p: Peer, s: Tls, calls: seq<AppCall>)
    requires Inv(s)
    ensures Inv(Resume(p, s, calls).s)
  {
    var s1 := Callback(p, s.(paused := false), calls).s;
    CallbackKeeps(p, s.(paused := false), calls);
    FlushKeeps(p, s1);
    FlushOnceKeeps(p, Flush(p, s1).s);
  }

  lemma EmitKeepsInv(s: Tls, cipher: Bytes)
    requires Inv(s)
    ensures Inv(Emit(s, cipher)) && Inv(Emit(s, cipher).(handshaken := true))
  {
    EmitKeeps(s, cipher);
  }

  lemma ShakeHandsKeeps(p: Peer, s: Tls, cipher: Bytes, handshake: Handshake, replies: seq<AppCall>)
    requires Inv(s)
    ensures Inv(ShakeHands(p, s, cipher, handshake, replies).s)
  {
    EmitKeepsInv(s, cipher);
    var s' := Emit(s, cipher);
    FlushOnceKeeps(p, s');
    FlushOnceKeeps(p, s'.(handshaken := true));
    CallbackKeeps(p, FlushOnce(p, s'.(handshaken := true)).s, replies);
  }

  lemma ReadKeeps(p: Peer, s: Tls, cipher: Bytes, replies: seq<AppCall>, eof: Option<seq<AppCall>>)
    requires Inv(s)
    ensures Inv(Read(p, s, cipher, replies, eof).s)
  {
    EmitKeepsInv(s, cipher);
    CallbackKeeps(p, Emit(s, cipher), replies);
    var r := Callback(p, Emit(s, cipher), replies);
    if eof.Some? {
      CallbackKeeps(p, r.s, eof.value);
      StartShutdownKeeps(p, Callback(p, r.s, eof.value).s);
    }
  }

  lemma ReceiveKeeps(
    p: Peer, s: Tls, cipher: Bytes, handshake: Handshake, replies: seq<AppCall>, eof: Option<seq<AppCall>>)
    requires Inv(s)
    ensures Inv(Receive(p, s, cipher, handshake, replies, eof).s)
  {
    StartShutdownKeeps(p, s);
    ShakeHandsKeeps(p, s, cipher, handshake, replies);
    ReadKeeps(p, s, cipher, replies, eof);
  }

  lemma {:induction false} RunKeeps(p: Peer, events: seq<Event>)
    ensures Inv(Run(p, FRESH, events))
  {
    if events != [] {
      RunKeeps(p, events[..|events| - 1]);
      StepKeeps(p, Run(p, FRESH, events[..|events| - 1]), events[|events| - 1]);
    }
  }

  // ---- what every run guarantees ----

  /** Ciphertext: what was sent followed by what waits in the BIO is all that was produced,
      in order, if and only if the raw transport never answered a write with another error
      than "paused". */
  lemma CiphertextInOrder(p: Peer, events: seq<Event>)
    ensures var s := Run(p, FRESH, events);
            s.h.sent + s.outgoing == s.h.produced <==> Broken !in s.h.rawAnswers
  {
    RunKeeps(p, events);
    var s := Run(p, FRESH, events);
    assert |s.h.sent + s.outgoing| == |s.h.sent| + |s.outgoing|;
  }

  /** The closing handshake is never attempted with plaintext buffered, and at most one
      shutdown timer is live: the stored one. */
  lemma ShutdownDiscipline(p: Peer, events: seq<Event>)
    ensures var s := Run(p, FRESH, events);
            && (forall k :: 0 <= k < |s.h.backlogs| ==> s.h.backlogs[k] == 0)
            && s.liveTimers == (if s.timer.Some? then {s.timer.value} else {})
  {
    RunKeeps(p, events);
  }

  /** A shutdown attempt, from any state, that returns with nothing buffered has closed the
      raw transport or has left a timer armed. */
  lemma ShutdownSettles(p: Peer, s: Tls)
    ensures var r := StartShutdown(p, s);
            !r.raised && r.s.buffer == [] ==>
              r.s.rawClosed || (r.s.timer.Some? && r.s.timer.value in r.s.liveTimers)
  {
  }

  // ---- exactly when a write keeps the order ----

  /** For a wrapper in order: every write that is not fatal keeps the order, whatever the
      data and the answer, if and only if it is paused or holds no buffered bytes. */
  lemma OrderKeptExactly(s: Tls)
    requires InOrder(s)
    ensures (forall p: Peer, data: Bytes {:trigger Write(p, s, data)} ::
               !p.ssl(s.clock).Fatal? && s.attached ==> InOrder(Write(p, s, data).s))
       <==> (s.paused || !s.attached || Flat(s.buffer) == [])
  {
    if s.paused || !s.attached || Flat(s.buffer) == [] {
      forall p: Peer, data: Bytes | !p.ssl(s.clock).Fatal? && s.attached
        ensures InOrder(Write(p, s, data).s)
      {
        WriteKeepsOrderExactly(p, s, data);
      }
    } else {
      var p, data := Overtake(s);
      assert !p.ssl(s.clock).Fatal? && !InOrder(Write(p, s, data).s);
    }
  }

  /** A single write, from any state in order: a paused one keeps the order; one that fails
      fatally keeps it if it is empty; any other keeps it if and only if the bytes the SSL
      object takes at once might as well have come after the buffered ones. */
  lemma WriteKeepsOrderExactly(p: Peer, s: Tls, data: Bytes)
    requires InOrder(s)
    ensures InOrder(Write(p, s, data).s) <==>
            || s.paused || !s.attached
            || if p.ssl(s.clock).Fatal? then data == []
               else Ahead(s, data, p.ssl(s.clock)) == Behind(s, data, p.ssl(s.clock))
  {
    if s.paused {
      FlatAppend(s.buffer, data);
      Associate(s.h.accepted, Flat(s.buffer), data);
    } else if s.attached {
      AnsweredOrder(s, data, p.ssl(s.clock));
      FlushOnceKeepsPlain(p, WriteAnswered(s, data, p.ssl(s.clock)));
    }
  }

  /** The bytes the SSL object takes at once, ahead of the buffered ones or behind them. */
  function Ahead(s: Tls, data: Bytes, answer: SslAnswer): Bytes {
    data[..Took(data, answer)] + Flat(s.buffer)
  }

  function Behind(s: Tls, data: Bytes, answer: SslAnswer): Bytes {
    Flat(s.buffer) + data[..Took(data, answer)]
  }

  lemma AnsweredOrder(s: Tls, data: Bytes, answer: SslAnswer)
    requires InOrder(s)
    ensures InOrder(WriteAnswered(s, data, answer)) <==>
            if answer.Fatal? then data == [] else Ahead(s, data, answer) == Behind(s, data, answer)
  {
    var s', k := WriteAnswered(s, data, answer), Took(data, answer);
    if answer.Fatal? {
      assert data[..k] == [] && s'.h.accepted == s.h.accepted && Flat(s'.buffer) == Flat(s.buffer);
      assert |s.h.written + data| == |s.h.written| + |data|;
    } else {
      AnsweredBytes(s, data, answer);
      SameEnds(s.h.accepted, data[..k], Flat(s.buffer), data[k..]);
      assert data[..k] + data[k..] == data;
    }
  }

  lemma SameEnds(a: Bytes, x: Bytes, y: Bytes, z: Bytes)
    ensures (a + x) + (y + z) == (a + y) + (x + z) <==> x + y == y + x
  {
    var l, r := (a + x) + (y + z), (a + y) + (x + z);
    assert l == a + (x + y) + z && r == a + (y + x) + z;
    assert l[|a|..|a| + |x| + |y|] == x + y && r[|a|..|a| + |x| + |y|] == y + x;
  }

  lemma FlushOnceKeepsPlain(p: Peer, s: Tls)
    ensures SamePlain(s, FlushOnce(p, s).s)
  {
    SendAllKeepsPlain(p, s);
  }

  lemma SendAllKeepsPlain(p: Peer, s: Tls)
    ensures SamePlain(s, SendAll(p, s).s)
  {
    match p.raw(s.clock)
    case Taken(_) =>
    case Paused =>
    case Broken =>
  }

  lemma AnsweredBytes(s: Tls, data: Bytes, answer: SslAnswer)
    requires !answer.Fatal?
    ensures Flat(WriteAnswered(s, data, answer).buffer) == Flat(s.buffer) + data[Took(data, answer)..]
  {
    var k := Took(data, answer);
    FlatAppend(s.buffer, data[k..]);
    assert k == 0 ==> data[k..] == data;
    assert k == |data| ==> Flat(s.buffer) + data[k..] == Flat(s.buffer);
  }

  lemma Overtake(s: Tls) returns (p: Peer, data: Bytes)
    requires InOrder(s) && !s.paused && s.attached && Flat(s.buffer) != []
    ensures !p.ssl(s.clock).Fatal? && !InOrder(Write(p, s, data).s)
  {
    var f := Flat(s.buffer);
    data := [if f[0] == 0 then 1 else 0];
    p := Peer(_ => Accept(1, []), _ => Unwrapped([]), _ => Paused);
    WriteKeepsOrderExactly(p, s, data);
    assert Ahead(s, data, Accept(1, []))[0] != Behind(s, data, Accept(1, []))[0];
  }
}
