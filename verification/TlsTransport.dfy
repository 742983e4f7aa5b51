// The TLS wrapper and its protocol as one object with the fields they share.

module TlsTransport {
  import opened Common
  import opened TlsModel

  class SslTransportWrapper {
    const peer: Peer
    var writeBuffer: seq<Bytes>
    var writingPaused: bool
    var closing: bool
    var handshaken: bool
    var attached: bool
    var outgoing: Bytes
    var loopOpen: bool
    var timer: Option<nat>
    var liveTimers: set<nat>
    var nextTimer: nat
    var rawClosed: bool

    /** Calls answered by the peer so far. */
    var clock: nat
    ghost var history: History

    ghost function Model(): Tls
      reads this
    {
      Tls(writeBuffer, writingPaused, closing, handshaken, attached, outgoing,
          loopOpen, timer, liveTimers, nextTimer, rawClosed, clock, history)
    }

    constructor (peer: Peer)
      ensures this.peer == peer && Model() == FRESH
    {
      this.peer := peer;
      writeBuffer, writingPaused, closing, handshaken, attached := [], false, false, false, true;
      outgoing, loopOpen, timer, liveTimers, nextTimer := [], true, None, {}, 0;
      rawClosed, clock := false, 0;
      history := History([], [], [], [], [], 0, [], []);
    }

    /** The SSL object's `write`. */
    method SslObjectWrite(data: Bytes) returns (answer: SslAnswer)
      modifies this`outgoing, this`clock, this`history
      ensures answer == peer.ssl(old(clock))
      ensures Model() == SslWrite(old(Model()), data, answer)
    {
      answer := peer.ssl(clock);
      clock := clock + 1;
      outgoing := outgoing + answer.cipher;
      history := history.(produced := history.produced + answer.cipher,
                          accepted := history.accepted + data[..Took(data, answer)]);
    }

    /** Reads the whole BIO, offers it to the raw transport, and puts it back if paused. */
    method SendOutgoing() returns (answer: RawAnswer)
      modifies this`outgoing, this`clock, this`history, this`writingPaused
      ensures answer == peer.raw(old(clock))
      ensures Ret(Model(), answer.Broken?) == SendAll(peer, old(Model()))
    {
      var d := outgoing;
      outgoing := [];
      answer := peer.raw(clock);
      clock := clock + 1;
      history := history.(rawAnswers := history.rawAnswers + [answer]);
      match answer
      case Taken(pauses) =>
        history := history.(sent := history.sent + d);
        writingPaused := writingPaused || pauses;
      case Paused =>
        outgoing := outgoing + d;
      case Broken =>
        history := history.(lost := history.lost + |d|);
    }

    /** `_f`. */
    method FlushOutgoingOnce() returns (raised: bool)
      modifies this
      ensures Ret(Model(), raised) == FlushOnce(peer, old(Model()))
    {
      if !attached {
        return true;
      }
      raised := false;
      if outgoing != [] {
        var answer := SendOutgoing();
        raised := answer.Broken?;
      }
    }

    method Write(data: Bytes) returns (raised: bool)
      modifies this
      ensures Ret(Model(), raised) == TlsModel.Write(peer, old(Model()), data)
    {
      if writingPaused {
        writeBuffer := writeBuffer + [data];
        history := history.(written := history.written + data);
        return false;
      }
      if !attached {
        return true;
      }
      var answer := SslObjectWrite(data);
      history := history.(written := history.written + data);
      match answer {
        case Want(_) =>
          writeBuffer := writeBuffer + [data];
        case Fatal(_) =>
          history := history.(dropped := history.dropped + data);
        case Accept(count, _) =>
          var written := Min(count, |data|);
          if written < |data| {
            writeBuffer := writeBuffer + [data[written..]];
          }
      }
      assert Model() == WriteAnswered(old(Model()), data, answer);
      raised := FlushOutgoingOnce();
    }

    /** Pops the first chunk and offers it; what is not taken goes back to the front. */
    method OfferFirst() returns (answer: SslAnswer)
      requires writeBuffer != []
      modifies this
      ensures answer == peer.ssl(old(clock))
      ensures Model() == FirstChunk(old(Model()), answer)
    {
      var data := writeBuffer[0];
      writeBuffer := writeBuffer[1..];
      answer := SslObjectWrite(data);
      match answer {
        case Want(_) =>
          writeBuffer := [data] + writeBuffer;
        case Fatal(_) =>
          history := history.(dropped := history.dropped + data);
        case Accept(count, _) =>
          var written := Min(count, |data|);
          if written < |data| {
            writeBuffer := [data[written..]] + writeBuffer;
          }
      }
    }

    /** The plaintext loop of `FlushWriteBuffer`; `through` if the ciphertext loop follows. */
    method FlushPlaintext() returns (through: bool, raised: bool)
      modifies this
      ensures FlushPlain(peer, old(Model())) ==
              if through then Through(Model()) else if raised then Threw(Model()) else GaveUp(Model())
      ensures through ==> !raised
    {
      ghost var whole := FlushPlain(peer, Model());
      while writeBuffer != []
        invariant FlushPlain(peer, Model()) == whole
        decreases |Flat(writeBuffer)|, |writeBuffer|
      {
        if !attached {
          history := history.(dropped := history.dropped + writeBuffer[0]);
          writeBuffer := writeBuffer[1..];
          return false, true;
        }
        var length := |writeBuffer[0]|;
        var answer := OfferFirst();
        if answer.Want? {
          return true, false;
        }
        if answer.Fatal? {
          raised := FlushOutgoingOnce();
          return false, raised;
        }
        var written := Min(answer.count, length);
        if written < length && written == 0 {
          return true, false;
        }
      }
      return true, false;
    }

    method FlushWriteBuffer() returns (raised: bool)
      modifies this
      ensures Ret(Model(), raised) == Flush(peer, old(Model()))
    {
      var through;
      through, raised := FlushPlaintext();
      if !through || !attached {
        return;
      }
      ghost var s := Model();
      while outgoing != []
        invariant Model() == s || (outgoing == [] && Ret(Model(), false) == FlushCipher(peer, s))
        decreases |outgoing|
      {
        var answer := SendOutgoing();
        if answer.Paused? {
          return false;
        }
        if answer.Broken? {
          return true;
        }
      }
      return false;
    }

    method ForceClose()
      modifies this
      ensures Model() == TlsModel.ForceClose(old(Model()))
    {
      if timer.Some? {
        liveTimers := liveTimers - {timer.value};
        timer := None;
      }
      rawClosed := true;
    }

    /** The SSL object's `unwrap`. */
    method SslObjectUnwrap() returns (answer: UnwrapAnswer)
      modifies this`outgoing, this`clock, this`history
      ensures answer == peer.unwrap(old(clock))
      ensures Model() == Unwrap(old(Model()), answer)
    {
      answer := peer.unwrap(clock);
      clock := clock + 1;
      outgoing := outgoing + answer.cipher;
      history := history.(produced := history.produced + answer.cipher,
                          backlogs := history.backlogs + [|writeBuffer|]);
    }

    method StartShutdown() returns (raised: bool)
      modifies this
      ensures Ret(Model(), raised) == TlsModel.StartShutdown(peer, old(Model()))
    {
      raised := FlushWriteBuffer();
      if raised || writeBuffer != [] {
        return;
      }
      if attached {
        var answer := SslObjectUnwrap();
        raised := FlushOutgoingOnce();
        if raised {
          return;
        }
        if answer.UnwrapWants? && timer.None? && loopOpen {
          timer := Some(nextTimer);
          liveTimers := liveTimers + {nextTimer};
          nextTimer := nextTimer + 1;
          return;
        }
      } else {
        raised := FlushOutgoingOnce();
        return;
      }
      ForceClose();
    }

    method Close() returns (raised: bool)
      modifies this
      ensures Ret(Model(), raised) == TlsModel.Close(peer, old(Model()))
    {
      if closing {
        return false;
      }
      closing := true;
      raised := StartShutdown();
    }

    method Call(call: AppCall) returns (raised: bool)
      modifies this
      ensures Ret(Model(), raised) == AppStep(peer, old(Model()), call)
    {
      match call
      case WriteBytes(data) => raised := Write(data);
      case CloseTransport => raised := Close();
    }

    /** A callback of the application, which the first exception ends. */
    method Callback(calls: seq<AppCall>) returns (raised: bool)
      modifies this
      ensures Ret(Model(), raised) == TlsModel.Callback(peer, old(Model()), calls)
    {
      raised := false;
      ghost var whole := TlsModel.Callback(peer, Model(), calls);
      var i := 0;
      while i < |calls| && !raised
        invariant 0 <= i <= |calls|
        invariant raised ==> Ret(Model(), true) == whole
        invariant !raised ==> TlsModel.Callback(peer, Model(), calls[i..]) == whole
      {
        assert calls[i..][1..] == calls[i + 1..];
        raised := Call(calls[i]);
        i := i + 1;
      }
    }

    method PauseWriting()
      modifies this
      ensures Model() == Step(peer, old(Model()), Event.PauseWriting).s
    {
      writingPaused := true;
    }

    method ResumeWriting(calls: seq<AppCall>) returns (raised: bool)
      modifies this
      ensures Ret(Model(), raised) == Resume(peer, old(Model()), calls)
    {
      writingPaused := false;
      var _ := Callback(calls);
      raised := FlushWriteBuffer();
      if raised {
        return;
      }
      raised := FlushOutgoingOnce();
    }

    /** `_h`, after the record was read. */
    method ShakeHands(cipher: Bytes, handshake: Handshake, replies: seq<AppCall>) returns (raised: bool)
      modifies this
      ensures Ret(Model(), raised) == TlsModel.ShakeHands(peer, old(Model()), cipher, handshake, replies)
    {
      outgoing := outgoing + cipher;
      history := history.(produced := history.produced + cipher);
      match handshake {
        case HandshakeFails =>
          return false;
        case HandshakeWants =>
          raised := FlushOutgoingOnce();
        case HandshakeDone =>
          handshaken := true;
          raised := FlushOutgoingOnce();
          if !raised {
            raised := Callback(replies);
          }
      }
    }

    /** `_r`. */
    method Read(cipher: Bytes, replies: seq<AppCall>, eof: Option<seq<AppCall>>) returns (raised: bool)
      modifies this
      ensures Ret(Model(), raised) == TlsModel.Read(peer, old(Model()), cipher, replies, eof)
    {
      outgoing := outgoing + cipher;
      history := history.(produced := history.produced + cipher);
      raised := Callback(replies);
      if !raised && eof.Some? {
        var _ := Callback(eof.value);
        raised := StartShutdown();
      }
    }

    method BufferUpdated(cipher: Bytes, handshake: Handshake, replies: seq<AppCall>, eof: Option<seq<AppCall>>)
      returns (raised: bool)
      modifies this
      ensures Ret(Model(), raised) == Receive(peer, old(Model()), cipher, handshake, replies, eof)
    {
      if !attached {
        return true;
      }
      if closing {
        raised := StartShutdown();
      } else if !handshaken {
        raised := ShakeHands(cipher, handshake, replies);
      } else {
        raised := Read(cipher, replies, eof);
      }
    }

    method TimerFires()
      modifies this
      ensures Model() == Step(peer, old(Model()), Event.TimerFires).s
    {
      if timer.Some? {
        liveTimers := liveTimers - {timer.value};
        ForceClose();
      }
    }

    method ConnectionLost(calls: seq<AppCall>)
      modifies this
      ensures Model() == Step(peer, old(Model()), Event.ConnectionLost(calls)).s
    {
      var _ := Callback(calls);
      attached := false;
    }

    /** Any run of events leaves the object where the model's run ends. */
    method Perform(events: seq<Event>)
      modifies this
      ensures Model() == Run(peer, old(Model()), events)
    {
      for i := 0 to |events|
        invariant Model() == Run(peer, old(Model()), events[..i])
      {
        assert events[..i + 1][..i] == events[..i];
        match events[i] {
          case App(call) => var _ := Call(call);
          case PauseWriting => PauseWriting();
          case ResumeWriting(calls) => var _ := ResumeWriting(calls);
          case BufferUpdated(cipher, handshake, replies, eof) =>
            var _ := BufferUpdated(cipher, handshake, replies, eof);
          case TimerFires => TimerFires();
          case ConnectionLost(calls) => ConnectionLost(calls);
          case LoopCloses => loopOpen := false;
        }
      }
      assert events[..|events|] == events;
    }
  }
}
