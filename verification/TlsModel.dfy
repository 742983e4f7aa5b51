// The TLS transport wrapper and the protocol it shares its state with: plaintext
// waiting for the SSL object, ciphertext waiting in the outgoing memory BIO, and
// the closing handshake with its timer. The SSL object and the raw transport are
// oracles; exceptions are a flag on the result.

module TlsModel {
  import opened Common

  type byte = x: int | 0 <= x < 256
  type Bytes = seq<byte>

  /** `cipher` is what the SSL object puts into the outgoing BIO during the call. */
  datatype SslAnswer =
    | Accept(count: nat, cipher: Bytes)
    | Want(cipher: Bytes)
    | Fatal(cipher: Bytes)

  datatype UnwrapAnswer =
    | Unwrapped(cipher: Bytes)
    | UnwrapWants(cipher: Bytes)
    | UnwrapFails(cipher: Bytes)

  /** The raw transport takes the bytes (and may call `pause_writing` while doing so),
      raises its "paused" error, or raises anything else. */
  datatype RawAnswer = Taken(pauses: bool) | Paused | Broken

  datatype Peer = Peer(ssl: nat -> SslAnswer, unwrap: nat -> UnwrapAnswer, raw: nat -> RawAnswer)

  /** `written`: plaintext handed to the wrapper; `accepted`: plaintext the SSL object
      took; `dropped`: plaintext lost to an exception; `produced` and `sent`: ciphertext
      made and handed to the raw transport; `lost`: ciphertext bytes lost to an exception;
      `rawAnswers`: what the raw transport answered to each write; `backlogs`: chunks
      buffered at each attempt to unwrap. */
  datatype History = History(
    written: Bytes, accepted: Bytes, dropped: Bytes,
    produced: Bytes, sent: Bytes, lost: nat, rawAnswers: seq<RawAnswer>,
    backlogs: seq<nat>)

  datatype Tls = Tls(
    buffer: seq<Bytes>, paused: bool, closing: bool, handshaken: bool, attached: bool,
    outgoing: Bytes,
    loopOpen: bool, timer: Option<nat>, liveTimers: set<nat>, nextTimer: nat,
    rawClosed: bool, clock: nat, h: History)

  /** The state a call leaves behind, and whether it raised. */
  datatype Ret = Ret(s: Tls, raised: bool)

  function Flat(chunks: seq<Bytes>): Bytes {
    if chunks == [] then [] else chunks[0] + Flat(chunks[1..])
  }

  // ---- ciphertext ----

  function Emit(s: Tls, cipher: Bytes): Tls {
    s.(outgoing := s.outgoing + cipher, h := s.h.(produced := s.h.produced + cipher))
  }

  /** Reads the whole BIO and hands it to the raw transport; the paused error puts it back. */
  function SendAll(p: Peer, s: Tls): Ret {
    var d, answer := s.outgoing, p.raw(s.clock);
    var s' := s.(
      outgoing := if answer.Paused? then d else [],
      paused := s.paused || (answer.Taken? && answer.pauses),
      clock := s.clock + 1,
      h := s.h.(
        sent := if answer.Taken? then s.h.sent + d else s.h.sent,
        lost := if answer.Broken? then s.h.lost + |d| else s.h.lost,
        rawAnswers := s.h.rawAnswers + [answer]));
    Ret(s', answer.Broken?)
  }

  /** `_f` of the protocol. */
  function FlushOnce(p: Peer, s: Tls): Ret {
    if !s.attached then Ret(s, true)
    else if s.outgoing == [] then Ret(s, false)
    else SendAll(p, s)
  }

  /** The second half of `_flush_write_buffer`. */
  function FlushCipher(p: Peer, s: Tls): Ret {
    if !s.attached || s.outgoing == [] then Ret(s, false) else SendAll(p, s)
  }

  // ---- plaintext ----

  function Took(data: Bytes, answer: SslAnswer): nat {
    if answer.Accept? then Min(answer.count, |data|) else 0
  }

  /** What the SSL object does with `data`. */
  function SslWrite(s: Tls, data: Bytes, answer: SslAnswer): Tls {
    s.(outgoing := s.outgoing + answer.cipher,
       clock := s.clock + 1,
       h := s.h.(produced := s.h.produced + answer.cipher,
                 accepted := s.h.accepted + data[..Took(data, answer)]))
  }

  /** `write` on an unpaused, attached wrapper, before the ciphertext is flushed. */
  function WriteAnswered(s: Tls, data: Bytes, answer: SslAnswer): Tls {
    var s' := SslWrite(s, data, answer);
    var h := s'.h.(written := s.h.written + data);
    match answer
    case Accept(_, _) =>
      s'.(h := h, buffer := if Took(data, answer) < |data| then s.buffer + [data[Took(data, answer)..]] else s.buffer)
    case Want(_) => s'.(h := h, buffer := s.buffer + [data])
    case Fatal(_) => s'.(h := h.(dropped := h.dropped + data))
  }

  function Write(p: Peer, s: Tls, data: Bytes): Ret {
    if s.paused then
      Ret(s.(buffer := s.buffer + [data], h := s.h.(written := s.h.written + data)), false)
    else if !s.attached then Ret(s, true)
    else FlushOnce(p, WriteAnswered(s, data, p.ssl(s.clock)))
  }

  /** How the plaintext loop of `_flush_write_buffer` ends. */
  datatype Flushed = Through(s: Tls) | GaveUp(s: Tls) | Threw(s: Tls)

  /** The first chunk was offered to the SSL object: what it did not take goes back to
      the front of the buffer, or is lost with a fatal error. */
  function FirstChunk(s: Tls, answer: SslAnswer): (s': Tls)
    requires s.buffer != []
    ensures answer.Accept? && Took(s.buffer[0], answer) == |s.buffer[0]| ==>
              |Flat(s'.buffer)| <= |Flat(s.buffer)| && |s'.buffer| < |s.buffer|
    ensures answer.Accept? && Took(s.buffer[0], answer) > 0 ==>
              |Flat(s'.buffer)| < |Flat(s.buffer)|
  {
    var data, rest := s.buffer[0], s.buffer[1..];
    var k := Took(data, answer);
    assert Flat([data[k..]] + rest) == data[k..] + Flat(rest) by { FlatCons(data[k..], rest); }
    s.(buffer := Remainder(data, rest, answer),
       outgoing := s.outgoing + answer.cipher,
       clock := s.clock + 1,
       h := s.h.(produced := s.h.produced + answer.cipher,
                 accepted := s.h.accepted + data[..k],
                 dropped := if answer.Fatal? then s.h.dropped + data else s.h.dropped))
  }

  function Remainder(data: Bytes, rest: seq<Bytes>, answer: SslAnswer): seq<Bytes> {
    match answer
    case Fatal(_) => rest
    case Want(_) => [data] + rest
    case Accept(_, _) => if Took(data, answer) < |data| then [data[Took(data, answer)..]] + rest else rest
  }

  /** The first chunk was popped and the write raised: the SSL object is gone. */
  function ChunkLost(s: Tls): Tls
    requires s.buffer != []
  {
    s.(buffer := s.buffer[1..], h := s.h.(dropped := s.h.dropped + s.buffer[0]))
  }

  function FlushPlain(p: Peer, s: Tls): Flushed
    decreases |Flat(s.buffer)|, |s.buffer|
  {
    if s.buffer == [] then Through(s)
    else if !s.attached then Threw(ChunkLost(s))
    else
      var answer := p.ssl(s.clock);
      var k, s' := Took(s.buffer[0], answer), FirstChunk(s, answer);
      match answer
      case Want(_) => Through(s')
      case Fatal(_) =>
        var r := FlushOnce(p, s');
        if r.raised then Threw(r.s) else GaveUp(r.s)
      case Accept(_, _) =>
        if k < |s.buffer[0]| && k == 0 then Through(s') else FlushPlain(p, s')
  }

  function Flush(p: Peer, s: Tls): Ret {
    match FlushPlain(p, s)
    case Through(s') => FlushCipher(p, s')
    case GaveUp(s') => Ret(s', false)
    case Threw(s') => Ret(s', true)
  }

  // ---- closing ----

  function ForceClose(s: Tls): Tls {
    s.(liveTimers := if s.timer.Some? then s.liveTimers - {s.timer.value} else s.liveTimers,
       timer := None, rawClosed := true)
  }

  function ArmTimer(s: Tls): Tls {
    s.(timer := Some(s.nextTimer), liveTimers := s.liveTimers + {s.nextTimer}, nextTimer := s.nextTimer + 1)
  }

  function Unwrap(s: Tls, answer: UnwrapAnswer): Tls {
    s.(outgoing := s.outgoing + answer.cipher,
       clock := s.clock + 1,
       h := s.h.(produced := s.h.produced + answer.cipher,
                 backlogs := s.h.backlogs + [|s.buffer|]))
  }

  function StartShutdown(p: Peer, s: Tls): Ret {
    var flushed := Flush(p, s);
    if flushed.raised || flushed.s.buffer != [] then flushed
    else if !flushed.s.attached then Ret(flushed.s, true)
    else
      var answer := p.unwrap(flushed.s.clock);
      var r := FlushOnce(p, Unwrap(flushed.s, answer));
      if r.raised then r
      else if answer.UnwrapWants? && r.s.timer.None? && r.s.loopOpen then Ret(ArmTimer(r.s), false)
      else Ret(ForceClose(r.s), false)
  }

  function Close(p: Peer, s: Tls): Ret {
    if s.closing then Ret(s, false) else StartShutdown(p, s.(closing := true))
  }

  // ---- application code ----

  /** What the application does to the wrapper, of itself or from one of its callbacks. */
  datatype AppCall = WriteBytes(data: Bytes) | CloseTransport

  function AppStep(p: Peer, s: Tls, call: AppCall): Ret {
    match call
    case WriteBytes(data) => Write(p, s, data)
    case CloseTransport => Close(p, s)
  }

  /** A callback of the application, which the first exception ends. */
  function Callback(p: Peer, s: Tls, calls: seq<AppCall>): Ret
    decreases |calls|
  {
    if calls == [] then Ret(s, false)
    else
      var r := AppStep(p, s, calls[0]);
      if r.raised then r else Callback(p, r.s, calls[1..])
  }

  // ---- events ----

  datatype Handshake = HandshakeWants | HandshakeFails | HandshakeDone

  /** `calls`: what the application's callback of that name does; `replies`: what
      `connection_made` or `data_received` does; `eof`: what `eof_received` does, if the
      stream has ended. */
  datatype Event =
    | App(call: AppCall)
    | PauseWriting
    | ResumeWriting(calls: seq<AppCall>)
    | BufferUpdated(cipher: Bytes, handshake: Handshake, replies: seq<AppCall>, eof: Option<seq<AppCall>>)
    | TimerFires
    | ConnectionLost(calls: seq<AppCall>)
    | LoopCloses

  /** An exception of the application's `resume_writing` is swallowed. */
  function Resume(p: Peer, s: Tls, calls: seq<AppCall>): Ret {
    var s1 := Callback(p, s.(paused := false), calls).s;
    var flushed := Flush(p, s1);
    if flushed.raised then flushed else FlushOnce(p, flushed.s)
  }

  /** `_h`. */
  function ShakeHands(p: Peer, s: Tls, cipher: Bytes, handshake: Handshake, replies: seq<AppCall>): Ret {
    match handshake
    case HandshakeFails => Ret(Emit(s, cipher), false)
    case HandshakeWants => FlushOnce(p, Emit(s, cipher))
    case HandshakeDone =>
      var r := FlushOnce(p, Emit(s, cipher).(handshaken := true));
      if r.raised then r else Callback(p, r.s, replies)
  }

  /** `_r`. An exception of `eof_received` is swallowed and the shutdown still starts. */
  function Read(p: Peer, s: Tls, cipher: Bytes, replies: seq<AppCall>, eof: Option<seq<AppCall>>): Ret {
    var r := Callback(p, Emit(s, cipher), replies);
    if r.raised || eof.None? then r
    else StartShutdown(p, Callback(p, r.s, eof.value).s)
  }

  function Receive(
    p: Peer, s: Tls, cipher: Bytes, handshake: Handshake, replies: seq<AppCall>, eof: Option<seq<AppCall>>): Ret
  {
    if !s.attached then Ret(s, true)
    else if s.closing then StartShutdown(p, s)
    else if !s.handshaken then ShakeHands(p, s, cipher, handshake, replies)
    else Read(p, s, cipher, replies, eof)
  }

  function Step(p: Peer, s: Tls, e: Event): Ret {
    match e
    case App(call) => AppStep(p, s, call)
    case PauseWriting => Ret(s.(paused := true), false)
    case ResumeWriting(calls) => Resume(p, s, calls)
    case BufferUpdated(cipher, handshake, replies, eof) => Receive(p, s, cipher, handshake, replies, eof)
    case TimerFires =>
      if s.timer.None? then Ret(s, false)
      else Ret(ForceClose(s.(liveTimers := s.liveTimers - {s.timer.value})), false)
    case ConnectionLost(calls) => Ret(Callback(p, s, calls).s.(attached := false), false)
    case LoopCloses => Ret(s.(loopOpen := false), false)
  }

  function Run(p: Peer, s: Tls, events: seq<Event>): Tls {
    if events == [] then s
    else Step(p, Run(p, s, events[..|events| - 1]), events[|events| - 1]).s
  }

  const FRESH := Tls(
    [], false, false, false, true, [], true, None, {}, 0, false, 0,
    History([], [], [], [], [], 0, [], []))

  // ---- bytes and chunks ----

  lemma {:induction false} FlatConcat(a: seq<Bytes>, b: seq<Bytes>)
    ensures Flat(a + b) == Flat(a) + Flat(b)
  {
    if a == [] {
      assert a + b == b;
    } else {
      FlatConcat(a[1..], b);
      assert (a + b)[1..] == a[1..] + b;
      assert (a + b)[0] == a[0];
      Associate(a[0], Flat(a[1..]), Flat(b));
    }
  }

  lemma FlatAppend(a: seq<Bytes>, x: Bytes)
    ensures Flat(a + [x]) == Flat(a) + x
  {
    FlatConcat(a, [x]);
    assert Flat([x]) == x + Flat([x][1..]);
  }

  lemma FlatCons(x: Bytes, a: seq<Bytes>)
    ensures Flat([x] + a) == x + Flat(a)
  {
    assert ([x] + a)[1..] == a;
  }
}
