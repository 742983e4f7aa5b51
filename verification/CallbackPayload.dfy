// The tagged 64-bit payload of a callback.
//
//   bit 0        tag: 1 = io_uring completion, 0 = Python payload pointer
//   bit 1, 2     cancelled, batch_dispatched
//   bits 3..34   io result (32 bits, two's complement)    when tagged
//   bits 35..50  errno (16 bits)                           when tagged
//   bits 3..63   8-byte aligned pointer, or 0              when not tagged

module CallbackPayload {

  import opened Common

  /** The fields a Python payload pointer leads to. */
  datatype PythonPayload = PythonPayload(
    module_: Option<Object>, callback: Option<Object>, traverses: bool)

  /** What is stored at each payload address. */
  type Memory = bv64 -> PythonPayload

  /** What a payload word stands for. */
  datatype Body = Io(res: bv32, err: bv16) | Python(ptr: Option<bv64>)
  datatype Meaning = Meaning(body: Body, cancelled: bool, batch: bool)

  const EINVAL: bv16 := 22
  const SUCCESS: bv16 := 0

  predicate Aligned(p: bv64) {
    p != 0 && p & 7 == 0
  }

  predicate WellFormed(body: Body) {
    body.Python? && body.ptr.Some? ==> Aligned(body.ptr.value)
  }

  function BodyBits(body: Body): bv64 {
    match body
    case Io(res, err) => 1 | (res as bv64 << 3) | (err as bv64 << 35)
    case Python(None) => 0
    case Python(Some(p)) => p
  }

  /** The word that packs a body with flag bits. */
  function Encode(body: Body, flags: bv64): bv64 {
    flags | BodyBits(body)
  }

  function ResultField(w: bv64): bv32 {
    ((w >> 3) & 0xFFFF_FFFF) as bv32
  }

  function ErrnoField(w: bv64): bv16 {
    ((w >> 35) & 0xFFFF) as bv16
  }

  function PointerField(w: bv64): bv64 {
    w & 0xFFFF_FFFF_FFFF_FFF8
  }

  predicate Bit(w: bv64, mask: bv64) {
    w & mask != 0
  }

  function BodyOf(w: bv64): Body {
    if Bit(w, 1) then Io(ResultField(w), ErrnoField(w))
    else if PointerField(w) == 0 then Python(None)
    else Python(Some(PointerField(w)))
  }

  /** The record a word stands for. */
  function Decode(w: bv64): Meaning {
    Meaning(BodyOf(w), Bit(w, 2), Bit(w, 4))
  }

  /** Words a `CallbackData` can hold: no stray bits. */
  predicate Packed(w: bv64) {
    w == Encode(BodyOf(w), w & 6) && WellFormed(BodyOf(w))
  }

  datatype CallbackData = CallbackData(userData: Object, payload: bv64) {

    function IoUringRes(): bv32 {
      if !Bit(payload, 1) then 0 else ResultField(payload)
    }

    function IoUringErr(known: set<bv16>): bv16 {
      if !Bit(payload, 1) then SUCCESS
      else
        var val := ErrnoField(payload);
        if val in known then val else EINVAL
    }

    function PayloadAddress(): Option<bv64> {
      if Bit(payload, 1) then None
      else
        var p := PointerField(payload);
        if p == 0 then None else Some(p)
    }

    function ModulePtr(mem: Memory): Option<Object> {
      match PayloadAddress() case None => None case Some(p) => mem(p).module_
    }

    function CallbackPtr(mem: Memory): Option<Object> {
      match PayloadAddress() case None => None case Some(p) => mem(p).callback
    }

    predicate Traverses(mem: Memory) {
      match PayloadAddress() case None => false case Some(p) => mem(p).traverses
    }

    predicate Cancelled() {
      Bit(payload, 2)
    }

    predicate BatchDispatched() {
      Bit(payload, 4)
    }
  }

  /** Encoding loses nothing, and every encoding is a valid word. */
  lemma RoundTrip(body: Body, flags: bv64)
    requires WellFormed(body) && flags & 6 == flags
    ensures var w := Encode(body, flags);
            BodyOf(w) == body && w & 6 == flags && Packed(w)
  {
    match body
    case Io(res, err) => PackIo(res, err, flags);
    case Python(None) => PackPointer(0, flags);
    case Python(Some(p)) => PackPointer(p, flags);
  }

  lemma PackIo(res: bv32, err: bv16, flags: bv64)
    requires flags & 6 == flags
    ensures var w := flags | (1 | (res as bv64 << 3) | (err as bv64 << 35));
            && Bit(w, 1) && w & 6 == flags
            && ResultField(w) == res && ErrnoField(w) == err
  {
  }

  lemma PackPointer(p: bv64, flags: bv64)
    requires p & 7 == 0 && flags & 6 == flags
    ensures var w := flags | p;
            !Bit(w, 1) && w & 6 == flags && PointerField(w) == p
  {
  }

  /** Every accessor returns the field that was packed. */
  lemma AccessorsRead(d: CallbackData, body: Body, flags: bv64, known: set<bv16>)
    requires WellFormed(body) && flags & 6 == flags && d.payload == Encode(body, flags)
    ensures d.Cancelled() == Bit(flags, 2) && d.BatchDispatched() == Bit(flags, 4)
    ensures match body
            case Io(res, err) =>
              && d.IoUringRes() == res
              && d.IoUringErr(known) == (if err in known then err else EINVAL)
              && d.PayloadAddress() == None
            case Python(ptr) =>
              && d.IoUringRes() == 0
              && d.IoUringErr(known) == SUCCESS
              && d.PayloadAddress() == ptr
  {
    RoundTrip(body, flags);
    FlagsVisible(d.payload);
  }

  lemma FlagsVisible(w: bv64)
    ensures Bit(w, 2) == Bit(w & 6, 2) && Bit(w, 4) == Bit(w & 6, 4)
  {
  }

  /** On any valid word each accessor returns its field of the record the word stands for. */
  lemma AccessorsReadDecoded(d: CallbackData, known: set<bv16>)
    requires Packed(d.payload)
    ensures d.Cancelled() == Decode(d.payload).cancelled
    ensures d.BatchDispatched() == Decode(d.payload).batch
    ensures match Decode(d.payload).body
            case Io(res, err) =>
              && d.IoUringRes() == res
              && d.IoUringErr(known) == (if err in known then err else EINVAL)
              && d.PayloadAddress() == None
            case Python(ptr) =>
              && d.IoUringRes() == 0
              && d.IoUringErr(known) == SUCCESS
              && d.PayloadAddress() == ptr
  {
    FlagsMasked(d.payload);
    AccessorsRead(d, BodyOf(d.payload), d.payload & 6, known);
  }

  /** The fields behind a payload pointer are read from its own address; a completion and an
      empty payload have none. */
  lemma PayloadFieldsRead(d: CallbackData, mem: Memory)
    requires Packed(d.payload)
    ensures match Decode(d.payload).body
            case Python(Some(ptr)) =>
              && d.ModulePtr(mem) == mem(ptr).module_
              && d.CallbackPtr(mem) == mem(ptr).callback
              && d.Traverses(mem) == mem(ptr).traverses
            case _ => d.ModulePtr(mem) == None && d.CallbackPtr(mem) == None && !d.Traverses(mem)
  {
    AccessorsReadDecoded(d, {});
  }

  lemma FlagsMasked(w: bv64)
    ensures (w & 6) & 6 == w & 6
  {
  }

  // ---- the setters ----

  datatype Setter =
    | SetIo(res: bv32, err: bv16)
    | SetPython(ptr: Option<bv64>)
    | SetCancelled(value: bool)
    | SetBatchDispatched(value: bool)

  /** What a setter does to the record. */
  function Update(m: Meaning, s: Setter): Meaning {
    match s
    case SetIo(res, err) => m.(body := Io(res, err))
    case SetPython(ptr) => m.(body := Python(ptr))
    case SetCancelled(v) => m.(cancelled := v)
    case SetBatchDispatched(v) => m.(batch := v)
  }

  predicate Legal(s: Setter) {
    s.SetPython? && s.ptr.Some? ==> Aligned(s.ptr.value)
  }

  function UpdateAll(m: Meaning, setters: seq<Setter>): Meaning {
    if setters == [] then m
    else Update(UpdateAll(m, setters[..|setters| - 1]), setters[|setters| - 1])
  }

  function WithCancelled(w: bv64, value: bool): bv64 {
    if value then w | 2 else w & !2
  }

  function WithBatch(w: bv64, value: bool): bv64 {
    if value then w | 4 else w & !4
  }

  /** A variable holding a `CallbackData`, which the setters change in place. */
  class CallbackDataVar {
    const userData: Object
    var payload: bv64

    function Data(): CallbackData
      reads this
    {
      CallbackData(userData, payload)
    }

    ghost predicate Valid()
      reads this
    {
      Packed(payload)
    }

    ghost function Value(): Meaning
      reads this
    {
      Decode(payload)
    }

    constructor (data: CallbackData)
      ensures Data() == data
    {
      userData := data.userData;
      payload := data.payload;
    }

    /** A Python payload, or none, with both flags clear. */
    constructor InitPython(userData: Object, ptr: Option<bv64>)
      requires ptr.Some? ==> Aligned(ptr.value)
      ensures this.userData == userData && Valid()
      ensures Value() == Meaning(Python(ptr), false, false)
    {
      this.userData := userData;
      payload := 0;
      new;
      SetPython(ptr);
    }

    constructor InitIo(userData: Object, res: bv32, err: bv16)
      ensures this.userData == userData && Valid()
      ensures Value() == Meaning(Io(res, err), false, false)
    {
      this.userData := userData;
      payload := 1;
      new;
      SetIo(res, err);
    }

    method SetCancelled(value: bool)
      modifies this
      ensures payload == WithCancelled(old(payload), value)
      ensures old(Valid()) ==> Valid() && Value() == old(Value()).(cancelled := value)
    {
      WithCancelledDecodes(payload, value);
      if value {
        payload := payload | 2;
      } else {
        payload := payload & !2;
      }
    }

    method SetBatchDispatched(value: bool)
      modifies this
      ensures payload == WithBatch(old(payload), value)
      ensures old(Valid()) ==> Valid() && Value() == old(Value()).(batch := value)
    {
      WithBatchDecodes(payload, value);
      if value {
        payload := payload | 4;
      } else {
        payload := payload & !4;
      }
    }

    method SetIo(res: bv32, err: bv16)
      requires Valid()
      modifies this
      ensures Valid() && Value() == old(Value()).(body := Io(res, err))
    {
      var w := payload;
      var flags := w & 6;
      FlagsVisible(w);
      IoWord(res, err, flags);
      RoundTrip(Io(res, err), flags);
      w := 1 | flags | (res as bv64 << 3) | (err as bv64 << 35);
      FlagsVisible(w);
      payload := w;
    }

    method SetPython(ptr: Option<bv64>)
      requires Valid()
      requires ptr.Some? ==> Aligned(ptr.value)
      modifies this
      ensures Valid() && Value() == old(Value()).(body := Python(ptr))
    {
      var w := payload;
      var flags := w & 6;
      FlagsVisible(w);
      RoundTrip(Python(ptr), flags);
      if ptr.Some? {
        PointerWord(ptr.value, flags);
        w := ptr.value | flags;
      } else {
        NoPointerWord(flags);
        w := flags;
      }
      FlagsVisible(w);
      payload := w;
    }

    /** After any operations, the accessors read the record `Value` speaks about. */
    lemma AccessorsReadValue(known: set<bv16>)
      requires Valid()
      ensures Data().Cancelled() == Value().cancelled && Data().BatchDispatched() == Value().batch
      ensures match Value().body
              case Io(res, err) =>
                && Data().IoUringRes() == res
                && Data().IoUringErr(known) == (if err in known then err else EINVAL)
                && Data().PayloadAddress() == None
              case Python(ptr) =>
                && Data().IoUringRes() == 0
                && Data().IoUringErr(known) == SUCCESS
                && Data().PayloadAddress() == ptr
    {
      AccessorsReadDecoded(Data(), known);
    }

    /** Any run of setters refines the same run on the record. */
    method Apply(setters: seq<Setter>)
      requires Valid()
      requires forall s :: s in setters ==> Legal(s)
      modifies this
      ensures Valid()
      ensures Value() == UpdateAll(old(Value()), setters)
    {
      for i := 0 to |setters|
        invariant Valid()
        invariant Value() == UpdateAll(old(Value()), setters[..i])
      {
        assert setters[..i + 1][..i] == setters[..i];
        assert Legal(setters[i]);
        match setters[i]
        case SetIo(res, err) => SetIo(res, err);
        case SetPython(ptr) => SetPython(ptr);
        case SetCancelled(v) => SetCancelled(v);
        case SetBatchDispatched(v) => SetBatchDispatched(v);
      }
      assert setters[..|setters|] == setters;
    }
  }

  // ---- facts about words ----

  lemma WithCancelledDecodes(w: bv64, value: bool)
    ensures var w' := WithCancelled(w, value);
            Packed(w) ==> Packed(w') && Decode(w') == Meaning(BodyOf(w), value, Bit(w, 4))
  {
    if value {
      CancelledSet(w);
    } else {
      CancelledCleared(w);
    }
  }

  lemma WithBatchDecodes(w: bv64, value: bool)
    ensures var w' := WithBatch(w, value);
            Packed(w) ==> Packed(w') && Decode(w') == Meaning(BodyOf(w), Bit(w, 2), value)
  {
    if value {
      BatchSet(w);
    } else {
      BatchCleared(w);
    }
  }

  // Writing one flag bit changes no other bit.

  lemma CancelledSet(w: bv64)
    ensures Packed(w) ==> Packed(w | 2) && Decode(w | 2) == Meaning(BodyOf(w), true, Bit(w, 4))
  {
    CancelledSetBits(w);
    SameBody(w, w | 2);
  }

  lemma CancelledSetBits(w: bv64)
    ensures Bit(w | 2, 2) && Bit(w | 2, 4) == Bit(w, 4)
    ensures (w | 2) & !6 == w & !6
  {
  }

  lemma CancelledCleared(w: bv64)
    ensures Packed(w) ==> Packed(w & !2) && Decode(w & !2) == Meaning(BodyOf(w), false, Bit(w, 4))
  {
    CancelledClearedBits(w);
    SameBody(w, w & !2);
  }

  lemma CancelledClearedBits(w: bv64)
    ensures !Bit(w & !2, 2) && Bit(w & !2, 4) == Bit(w, 4)
    ensures (w & !2) & !6 == w & !6
  {
  }

  lemma BatchSet(w: bv64)
    ensures Packed(w) ==> Packed(w | 4) && Decode(w | 4) == Meaning(BodyOf(w), Bit(w, 2), true)
  {
    BatchSetBits(w);
    SameBody(w, w | 4);
  }

  lemma BatchSetBits(w: bv64)
    ensures Bit(w | 4, 4) && Bit(w | 4, 2) == Bit(w, 2)
    ensures (w | 4) & !6 == w & !6
  {
  }

  lemma BatchCleared(w: bv64)
    ensures Packed(w) ==> Packed(w & !4) && Decode(w & !4) == Meaning(BodyOf(w), Bit(w, 2), false)
  {
    BatchClearedBits(w);
    SameBody(w, w & !4);
  }

  lemma BatchClearedBits(w: bv64)
    ensures !Bit(w & !4, 4) && Bit(w & !4, 2) == Bit(w, 2)
    ensures (w & !4) & !6 == w & !6
  {
  }

  /** Words that differ in the flag bits only have the same body. */
  lemma SameBody(w: bv64, w': bv64)
    requires w & !6 == w' & !6
    ensures BodyOf(w) == BodyOf(w')
    ensures Packed(w) ==> Packed(w')
  {
  }

  lemma IoWord(res: bv32, err: bv16, f: bv64)
    ensures 1 | f | (res as bv64 << 3) | (err as bv64 << 35) == Encode(Io(res, err), f)
  {
  }

  lemma PointerWord(p: bv64, f: bv64)
    ensures p | f == Encode(Python(Some(p)), f)
  {
  }

  lemma NoPointerWord(f: bv64)
    ensures f == Encode(Python(None), f)
  {
  }
}
