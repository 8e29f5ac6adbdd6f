/** The server side of RFC 6455: incremental decoding of client frames, and the frames the server sends. */
module WebSocket {
  import opened Bytes
  import opened Utf8

  const OP_CONTINUATION := 0
  const OP_TEXT := 1
  const OP_BINARY := 2
  const OP_CLOSE := 8
  const OP_PING := 9
  const OP_PONG := 10

  type opcode = x: int | 0 <= x < 16
  type mask = m: seq<byte> | |m| == 4 witness [0, 0, 0, 0]

  datatype Message =
    | Text(payload: seq<byte>) | Binary(payload: seq<byte>)
    | Close(payload: seq<byte>) | Ping(payload: seq<byte>) | Pong(payload: seq<byte>)

  datatype DecodeError =
    | RsvBits | Unmasked | LongControl | FragmentedControl | NestedMessage | StrayContinuation | ReservedOpcode
    | TooBig | BadUtf8

  // --- one frame ---

  function Pow2(n: nat): nat { if n == 0 then 1 else 2 * Pow2(n - 1) }

  /** The exclusive or of the n low bits, bit by bit. */
  function XorBits(a: nat, b: nat, n: nat): (r: nat)
    ensures r < Pow2(n)
  {
    if n == 0 then 0 else (a + b) % 2 + 2 * XorBits(a / 2, b / 2, n - 1)
  }

  lemma {:induction false} XorBitsTwice(a: nat, b: nat, n: nat)
    requires a < Pow2(n)
    ensures XorBits(XorBits(a, b, n), b, n) == a
  {
    if n > 0 {
      XorBitsTwice(a / 2, b / 2, n - 1);
      LowBitTwice(a, b, XorBits(a / 2, b / 2, n - 1));
    }
  }

  lemma {:induction false} LowBitTwice(a: nat, b: nat, high: nat)
    ensures var x := (a + b) % 2 + 2 * high; (x + b) % 2 == a % 2 && x / 2 == high
  {
  }

  /** The k-th binary digit, counted from the lowest. */
  function Bit(x: nat, k: nat): nat
    decreases k
  {
    if k == 0 then x % 2 else Bit(x / 2, k - 1)
  }

  lemma {:induction false} XorBitAt(a: nat, b: nat, n: nat, k: nat)
    requires k < n
    ensures Bit(XorBits(a, b, n), k) == (Bit(a, k) + Bit(b, k)) % 2
    decreases k
  {
    LowBit(a, b, XorBits(a / 2, b / 2, n - 1));
    if k > 0 {
      XorBitAt(a / 2, b / 2, n - 1, k - 1);
    }
  }

  lemma {:induction false} LowBit(a: nat, b: nat, high: nat)
    ensures var x := (a + b) % 2 + 2 * high; x % 2 == (a % 2 + b % 2) % 2 && x / 2 == high
  {
  }

  lemma EightBits()
    ensures Pow2(8) == 256
  {
    assert Pow2(4) == 16;
  }

  function Xor(a: byte, b: byte): byte {
    EightBits(); XorBits(a, b, 8)
  }

  lemma {:induction false} XorTwice(a: byte, b: byte)
    ensures Xor(Xor(a, b), b) == a
  {
    EightBits();
    XorBitsTwice(a, b, 8);
  }

  /** Masking and unmasking are the same operation (section 5.3). */
  function Masked(p: seq<byte>, m: mask): seq<byte> {
    seq(|p|, i requires 0 <= i < |p| => Xor(p[i], m[i % 4]))
  }

  lemma UnmaskMasked(p: seq<byte>, m: mask)
    ensures Masked(Masked(p, m), m) == p
  {
    forall i | 0 <= i < |p|
      ensures Masked(Masked(p, m), m)[i] == p[i]
    {
      XorTwice(p[i], m[i % 4]);
    }
  }

  datatype RawFrame = RawFrame(fin: bool, opcode: opcode, payload: seq<byte>)

  datatype Parse = NeedMore | Bad(error: DecodeError) | Got(frame: RawFrame, used: nat)

  datatype Length = Length(header: nat, len: nat)

  /** Header size so far and payload length, in whichever of the three forms; minimal form is not demanded. */
  function ReadLength(buf: seq<byte>): (r: Option<Length>)
    requires |buf| >= 2
    ensures r.Some? ==> 2 <= r.value.header <= |buf|
  {
    var n: int := buf[1] % 128;
    if n == 126 then if |buf| < 4 then None else Some(Length(4, ReadBe(buf, 2, 2)))
    else if n == 127 then if |buf| < 10 then None else Some(Length(10, ReadBe(buf, 2, 8)))
    else Some(Length(2, n))
  }

  predicate Control(op: int) { op >= 8 }

  /** `parse_frame`. */
  function ParseFrame(buf: seq<byte>, max: nat): (r: Parse)
    ensures r.Got? ==> 6 <= r.used <= |buf|
    ensures r.Got? ==> |r.frame.payload| <= if Control(r.frame.opcode) then 125 else max
  {
    if |buf| < 2 then NeedMore
    else if (buf[0] / 16) % 8 != 0 then Bad(RsvBits)
    else if buf[1] < 128 then Bad(Unmasked)
    else
      match ReadLength(buf)
      case None => NeedMore
      case Some(Length(header, len)) =>
        var op := buf[0] % 16;
        if Control(op) && len > 125 then Bad(LongControl)
        else if !Control(op) && len > max then Bad(TooBig)
        else if |buf| < header + 4 + len then NeedMore
        else
          var start := header + 4;
          Got(RawFrame(buf[0] >= 128, op, Masked(buf[start..start + len], buf[header..start])), start + len)
  }

  // --- messages ---

  datatype DecoderState = Dec(max: nat, fragOpcode: Option<opcode>, frag: seq<byte>)

  datatype Outcome = Emit(dec: DecoderState, message: Message) | Absorb(dec: DecoderState) | Fail(error: DecodeError)

  function FinishMessage(op: opcode, payload: seq<byte>): Result<Message, DecodeError> {
    if op == OP_TEXT then if ValidUtf8(payload) then Ok(Text(payload)) else Err(BadUtf8) else Ok(Binary(payload))
  }

  function Finished(d: DecoderState, op: opcode, payload: seq<byte>): Outcome {
    match FinishMessage(op, payload)
    case Ok(m) => Emit(d, m)
    case Err(e) => Fail(e)
  }

  /** What one frame does to the decoder. */
  function Turn(d: DecoderState, f: RawFrame): Outcome {
    if f.opcode == OP_CLOSE || f.opcode == OP_PING || f.opcode == OP_PONG then
      if !f.fin then Fail(FragmentedControl)
      else if f.opcode == OP_CLOSE then Emit(d, Close(f.payload))
      else if f.opcode == OP_PING then Emit(d, Ping(f.payload))
      else Emit(d, Pong(f.payload))
    else if f.opcode == OP_TEXT || f.opcode == OP_BINARY then
      if d.fragOpcode.Some? then Fail(NestedMessage)
      else if f.fin then Finished(d, f.opcode, f.payload)
      else Absorb(d.(fragOpcode := Some(f.opcode), frag := f.payload))
    else if f.opcode == OP_CONTINUATION then
      if d.fragOpcode.None? then Fail(StrayContinuation)
      else if |d.frag| + |f.payload| > d.max then Fail(TooBig)
      else if f.fin then Finished(d.(fragOpcode := None, frag := []), d.fragOpcode.value, d.frag + f.payload)
      else Absorb(d.(frag := d.frag + f.payload))
    else Fail(ReservedOpcode)
  }

  datatype NextResult =
    | Pending(dec: DecoderState, rest: seq<byte>) | Cut(dec: DecoderState, rest: seq<byte>, message: Message)
    | Failed(error: DecodeError)

  /** `next`: frames off the front of the buffer until a message is whole. */
  function NextOf(d: DecoderState, buf: seq<byte>): NextResult
    decreases |buf|
  {
    match ParseFrame(buf, d.max)
    case NeedMore => Pending(d, buf)
    case Bad(e) => Failed(e)
    case Got(f, used) =>
      match Turn(d, f)
      case Emit(e, m) => Cut(e, buf[used..], m)
      case Absorb(e) => NextOf(e, buf[used..])
      case Fail(e) => Failed(e)
  }

  datatype End = More(dec: DecoderState, rest: seq<byte>) | Stop(error: DecodeError)
  datatype Drained = Drained(messages: seq<Message>, end: End)

  /** `next` until it asks for more or fails. */
  function Drain(d: DecoderState, buf: seq<byte>): Drained
    decreases |buf|
  {
    match NextOf(d, buf)
    case Pending(e, rest) => Drained([], More(e, rest))
    case Failed(e) => Drained([], Stop(e))
    case Cut(e, rest, m) =>
      NextConsumes(d, buf);
      var tail := Drain(e, rest);
      Drained([m] + tail.messages, tail.end)
  }

  lemma {:induction false} NextConsumes(d: DecoderState, buf: seq<byte>)
    ensures NextOf(d, buf).Cut? ==> |NextOf(d, buf).rest| + 6 <= |buf|
    ensures NextOf(d, buf).Pending? ==> |NextOf(d, buf).rest| <= |buf|
    decreases |buf|
  {
    var p := ParseFrame(buf, d.max);
    if p.Got? && Turn(d, p.frame).Absorb? {
      NextConsumes(Turn(d, p.frame).dec, buf[p.used..]);
    }
  }

  /** Draining after each arrival, until the first error. */
  function Feed(d: DecoderState, buf: seq<byte>, chunks: seq<seq<byte>>): Drained
    decreases |chunks|
  {
    if |chunks| == 0 then Drained([], More(d, buf))
    else
      var now := Drain(d, buf + chunks[0]);
      match now.end
      case Stop(_) => now
      case More(e, rest) =>
        var later := Feed(e, rest, chunks[1..]);
        Drained(now.messages + later.messages, later.end)
  }

  // --- arrival boundaries do not matter ---

  lemma {:induction false} LengthStable(a: seq<byte>, b: seq<byte>)
    requires |a| >= 2 && ReadLength(a).Some?
    ensures ReadLength(a + b) == ReadLength(a)
  {
    var ab := a + b;
    if a[1] % 128 == 126 {
      assert ab[2..4] == a[2..4];
      ReadBeStable(ab, a, 2, 2);
    } else if a[1] % 128 == 127 {
      assert ab[2..10] == a[2..10];
      ReadBeStable(ab, a, 2, 8);
    }
  }

  /** What the front of the stream says never changes as more of it arrives. */
  lemma {:induction false} ParseStable(a: seq<byte>, b: seq<byte>, max: nat)
    requires !ParseFrame(a, max).NeedMore?
    ensures ParseFrame(a + b, max) == ParseFrame(a, max)
  {
    if ReadLength(a).Some? {
      LengthStable(a, b);
      var Length(header, len) := ReadLength(a).value;
      var start := header + 4;
      if start + len <= |a| {
        assert (a + b)[start..start + len] == a[start..start + len];
        assert (a + b)[header..start] == a[header..start];
      }
    }
  }

  lemma {:induction false} NextStable(d: DecoderState, a: seq<byte>, b: seq<byte>)
    ensures match NextOf(d, a)
            case Failed(e) => NextOf(d, a + b) == Failed(e)
            case Cut(e, rest, m) => NextOf(d, a + b) == Cut(e, rest + b, m)
            case Pending(e, rest) => NextOf(d, a + b) == NextOf(e, rest + b)
    decreases |a|
  {
    var p := ParseFrame(a, d.max);
    if !p.NeedMore? {
      ParseStable(a, b, d.max);
      if p.Got? {
        assert (a + b)[p.used..] == a[p.used..] + b;
        if Turn(d, p.frame).Absorb? {
          NextStable(Turn(d, p.frame).dec, a[p.used..], b);
        }
      }
    }
  }

  function After(first: Drained, d: Drained): Drained {
    Drained(first.messages + d.messages, d.end)
  }

  lemma {:induction false} DrainOneMore(d: DecoderState, buf: seq<byte>, e: DecoderState, rest: seq<byte>, m: Message)
    requires NextOf(d, buf) == Cut(e, rest, m)
    ensures Drain(d, buf) == Drained([m] + Drain(e, rest).messages, Drain(e, rest).end)
  {
  }

  /** `whole` is `first` and what the rest of the stream adds. */
  ghost predicate Splits(whole: Drained, first: Drained, b: seq<byte>) {
    match first.end
    case Stop(_) => whole == first
    case More(e, rest) => whole == After(first, Drain(e, rest + b))
  }

  lemma {:induction false} SplitsOn(m: Message, whole: Drained, first: Drained, b: seq<byte>)
    requires Splits(whole, first, b)
    ensures Splits(Drained([m] + whole.messages, whole.end), Drained([m] + first.messages, first.end), b)
  {
    if first.end.More? {
      var last := Drain(first.end.dec, first.end.rest + b);
      assert [m] + (first.messages + last.messages) == [m] + first.messages + last.messages;
    }
  }

  lemma {:induction false} DrainSplit(d: DecoderState, a: seq<byte>, b: seq<byte>)
    ensures Splits(Drain(d, a + b), Drain(d, a), b)
    decreases |a|
  {
    NextStable(d, a, b);
    match NextOf(d, a)
    case Pending(e, rest) => SameNextSameDrain(d, a + b, e, rest + b);
    case Failed(e) =>
    case Cut(e, rest, m) =>
      NextConsumes(d, a);
      DrainSplit(e, rest, b);
      DrainOneMore(d, a, e, rest, m);
      DrainOneMore(d, a + b, e, rest + b, m);
      SplitsOn(m, Drain(e, rest + b), Drain(e, rest), b);
  }

  lemma {:induction false} SameNextSameDrain(d: DecoderState, buf: seq<byte>, e: DecoderState, rest: seq<byte>)
    requires NextOf(d, buf) == NextOf(e, rest)
    ensures Drain(d, buf) == After(Drained([], Stop(TooBig)), Drain(e, rest))
  {
    var r := Drain(e, rest);
    assert [] + r.messages == r.messages;
  }

  /** The same messages and the same first error, however the stream is divided into arrivals. */
  lemma {:induction false} ArrivalsDoNotMatter(d: DecoderState, buf: seq<byte>, chunks: seq<seq<byte>>)
    requires Drain(d, buf) == Drained([], More(d, buf))
    ensures Feed(d, buf, chunks) == Drain(d, buf + Concat(chunks))
    decreases |chunks|
  {
    if |chunks| == 0 {
      assert buf + Concat(chunks) == buf;
    } else {
      var first, rest := chunks[0], Concat(chunks[1..]);
      assert buf + Concat(chunks) == buf + first + rest;
      DrainSplit(d, buf + first, rest);
      var now := Drain(d, buf + first);
      if now.end.More? {
        DrainSettles(d, buf + first);
        ArrivalsDoNotMatter(now.end.dec, now.end.rest, chunks[1..]);
      }
    }
  }

  lemma {:induction false} DrainNothing(d: DecoderState)
    ensures Drain(d, []) == Drained([], More(d, []))
  {
    assert ParseFrame([], d.max) == NeedMore;
  }

  /** From the beginning of a stream. */
  lemma {:induction false} WholeStream(d: DecoderState, chunks: seq<seq<byte>>)
    ensures Feed(d, [], chunks) == Drain(d, Concat(chunks))
  {
    DrainNothing(d);
    ArrivalsDoNotMatter(d, [], chunks);
    assert [] + Concat(chunks) == Concat(chunks);
  }

  /** What is left after a drain yields nothing by itself. */
  lemma {:induction false} DrainSettles(d: DecoderState, buf: seq<byte>)
    requires Drain(d, buf).end.More?
    ensures var end := Drain(d, buf).end; Drain(end.dec, end.rest) == Drained([], end)
    decreases |buf|
  {
    match NextOf(d, buf)
    case Pending(e, rest) => PendingSettles(d, buf);
    case Cut(e, rest, m) =>
      NextConsumes(d, buf);
      DrainSettles(e, rest);
  }

  lemma {:induction false} PendingSettles(d: DecoderState, buf: seq<byte>)
    requires NextOf(d, buf).Pending?
    ensures var r := NextOf(d, buf); NextOf(r.dec, r.rest) == r
    decreases |buf|
  {
    var p := ParseFrame(buf, d.max);
    if p.Got? {
      PendingSettles(Turn(d, p.frame).dec, buf[p.used..]);
    }
  }

  // --- bounds ---

  ghost predicate Bounded(d: DecoderState) {
    |d.frag| <= d.max && (d.fragOpcode.None? ==> d.frag == [])
    && (d.fragOpcode.Some? ==> d.fragOpcode.value == OP_TEXT || d.fragOpcode.value == OP_BINARY)
  }

  /** Within the limits, and text is UTF-8. */
  predicate Proper(m: Message, max: nat) {
    match m
    case Text(p) => |p| <= max && ValidUtf8(p)
    case Binary(p) => |p| <= max
    case _ => |m.payload| <= 125
  }

  lemma {:induction false} NextBounded(d: DecoderState, buf: seq<byte>)
    requires Bounded(d)
    ensures var r := NextOf(d, buf);
      && (r.Cut? ==> Bounded(r.dec) && r.dec.max == d.max && Proper(r.message, d.max))
      && (r.Pending? ==> Bounded(r.dec) && r.dec.max == d.max)
    decreases |buf|
  {
    var p := ParseFrame(buf, d.max);
    if p.Got? && Turn(d, p.frame).Absorb? {
      NextBounded(Turn(d, p.frame).dec, buf[p.used..]);
    }
  }

  /** Whatever a client sends: no message over its limit comes out, and none over it is being put together. */
  lemma {:induction false} DrainBounded(d: DecoderState, buf: seq<byte>)
    requires Bounded(d)
    ensures var r := Drain(d, buf);
      && (forall i | 0 <= i < |r.messages| :: Proper(r.messages[i], d.max))
      && (r.end.More? ==> Bounded(r.end.dec) && r.end.dec.max == d.max)
    decreases |buf|
  {
    NextBounded(d, buf);
    match NextOf(d, buf)
    case Cut(e, rest, m) =>
      NextConsumes(d, buf);
      DrainBounded(e, rest);
    case _ =>
  }

  // --- what conforming clients send ---

  datatype LengthForm = Short | Medium | Long

  /** A frame as a client puts it on the wire: any mask, any form its length fits (section 5.2). */
  datatype Sent = Sent(fin: bool, opcode: opcode, payload: seq<byte>, key: mask, form: LengthForm)

  predicate Sendable(f: Sent) {
    match f.form
    case Short => |f.payload| <= 125
    case Medium => |f.payload| < 0x1_0000
    case Long => |f.payload| < U64_LIMIT
  }

  function LengthBytes(n: nat, form: LengthForm): seq<byte>
    requires form.Short? ==> n <= 125
  {
    match form
    case Short => [128 + n]
    case Medium => [254] + Be(n, 2)
    case Long => [255] + Be(n, 8)
  }

  function FirstByte(fin: bool, op: opcode): byte { (if fin then 128 else 0) + op }

  function EncodeClient(f: Sent): seq<byte>
    requires Sendable(f)
  {
    [FirstByte(f.fin, f.opcode)] + LengthBytes(|f.payload|, f.form) + f.key + Masked(f.payload, f.key)
  }

  function Raw(f: Sent): RawFrame { RawFrame(f.fin, f.opcode, f.payload) }

  /** The size a frame may have. */
  predicate WithinLimit(f: Sent, max: nat) {
    |f.payload| <= if Control(f.opcode) then 125 else max
  }

  lemma {:induction false} LengthReads(buf: seq<byte>, first: byte, n: nat, form: LengthForm, rest: seq<byte>)
    requires form.Short? ==> n <= 125
    requires form.Medium? ==> n < 0x1_0000
    requires form.Long? ==> n < U64_LIMIT
    requires buf == [first] + LengthBytes(n, form) + rest
    ensures |buf| >= 2 && buf[1] >= 128 && ReadLength(buf) == Some(Length(1 + |LengthBytes(n, form)|, n))
  {
    Spans();
    match form
    case Short =>
    case Medium =>
      assert buf == [first, 254] + Be(n, 2) + rest;
      ReadBeOf([first, 254], n, 2, rest);
    case Long =>
      assert buf == [first, 255] + Be(n, 8) + rest;
      ReadBeOf([first, 255], n, 8, rest);
  }

  /** A header that reads, with key and payload behind it, is a frame. */
  lemma {:induction false} ParseGets(buf: seq<byte>, max: nat, fin: bool, op: opcode, header: nat, key: mask, data: seq<byte>)
    requires |buf| >= 2 && buf[0] == FirstByte(fin, op) && buf[1] >= 128
    requires ReadLength(buf) == Some(Length(header, |data|))
    requires |data| <= if Control(op) then 125 else max
    requires header + 4 + |data| <= |buf|
    requires buf[header..header + 4] == key && buf[header + 4..header + 4 + |data|] == data
    ensures ParseFrame(buf, max) == Got(RawFrame(fin, op, Masked(data, key)), header + 4 + |data|)
  {
  }

  lemma {:induction false} ThreeParts(a: seq<byte>, b: seq<byte>, c: seq<byte>, d: seq<byte>)
    ensures var buf := a + b + c + d;
      && buf[|a|..|a| + |b|] == b && buf[|a| + |b|..|a| + |b| + |c|] == c
      && buf[|a| + |b| + |c|..] == d && buf == a + (b + c + d)
  {
  }

  /** Every frame a client may send is read as what it is, and nothing behind it is touched. */
  lemma {:induction false} FrameReadsBack(f: Sent, rest: seq<byte>, max: nat)
    requires Sendable(f) && WithinLimit(f, max)
    ensures ParseFrame(EncodeClient(f) + rest, max) == Got(Raw(f), |EncodeClient(f)|)
    ensures (EncodeClient(f) + rest)[|EncodeClient(f)|..] == rest
  {
    var head := [FirstByte(f.fin, f.opcode)] + LengthBytes(|f.payload|, f.form);
    var data := Masked(f.payload, f.key);
    var buf := EncodeClient(f) + rest;
    ThreeParts(head, f.key, data, rest);
    assert buf == head + f.key + data + rest;
    LengthReads(buf, FirstByte(f.fin, f.opcode), |f.payload|, f.form, f.key + data + rest);
    ParseGets(buf, max, f.fin, f.opcode, |head|, f.key, data);
    UnmaskMasked(f.payload, f.key);
  }

  /** Frames back to back. */
  function Wire(fs: seq<Sent>): seq<byte>
    requires forall i | 0 <= i < |fs| :: Sendable(fs[i])
    decreases |fs|
  {
    if |fs| == 0 then [] else EncodeClient(fs[0]) + Wire(fs[1..])
  }

  ghost predicate Conforming(fs: seq<Sent>, max: nat) {
    forall i | 0 <= i < |fs| :: Sendable(fs[i]) && WithinLimit(fs[i], max)
  }

  datatype Gathered = Gathered(messages: seq<Message>, state: Result<DecoderState, DecodeError>)

  /** The messages of a sequence of frames, and where they leave the decoder. */
  function Gather(d: DecoderState, fs: seq<Sent>): Gathered
    decreases |fs|
  {
    if |fs| == 0 then Gathered([], Ok(d))
    else
      match Turn(d, Raw(fs[0]))
      case Fail(e) => Gathered([], Err(e))
      case Absorb(e) => Gather(e, fs[1..])
      case Emit(e, m) => var more := Gather(e, fs[1..]); Gathered([m] + more.messages, more.state)
  }

  lemma {:induction false} NextOfFrame(d: DecoderState, buf: seq<byte>, f: RawFrame, used: nat)
    requires ParseFrame(buf, d.max) == Got(f, used)
    ensures match Turn(d, f)
            case Emit(e, m) => Drain(d, buf) == Drained([m] + Drain(e, buf[used..]).messages, Drain(e, buf[used..]).end)
            case Absorb(e) => Drain(d, buf) == After(Drained([], Stop(TooBig)), Drain(e, buf[used..]))
            case Fail(e) => Drain(d, buf) == Drained([], Stop(e))
  {
    if Turn(d, f).Absorb? {
      SameNextSameDrain(d, buf, Turn(d, f).dec, buf[used..]);
    }
  }

  lemma TurnKeepsMax(d: DecoderState, f: RawFrame)
    ensures var t := Turn(d, f); !t.Fail? ==> t.dec.max == d.max
  {
  }

  /** Draining the bytes of conforming frames is gathering the frames. */
  lemma {:induction false} DrainIsGather(d: DecoderState, fs: seq<Sent>)
    requires Conforming(fs, d.max)
    ensures var g, r := Gather(d, fs), Drain(d, Wire(fs));
      && r.messages == g.messages
      && match g.state case Ok(e) => r.end == More(e, []) case Err(e) => r.end == Stop(e)
    decreases |fs|
  {
    if |fs| > 0 {
      var f, rest := fs[0], Wire(fs[1..]);
      FrameReadsBack(f, rest, d.max);
      NextOfFrame(d, Wire(fs), Raw(f), |EncodeClient(f)|);
      TurnKeepsMax(d, Raw(f));
      var t := Turn(d, Raw(f));
      if !t.Fail? {
        DrainIsGather(t.dec, fs[1..]);
      }
    }
  }

  lemma {:induction false} GatherAppend(d: DecoderState, a: seq<Sent>, b: seq<Sent>)
    requires Gather(d, a).state.Ok?
    ensures Gather(d, a + b) == Gathered(Gather(d, a).messages + Gather(Gather(d, a).state.value, b).messages,
                                         Gather(Gather(d, a).state.value, b).state)
    decreases |a|
  {
    if |a| == 0 {
      assert a + b == b;
    } else {
      assert (a + b)[0] == a[0] && (a + b)[1..] == a[1..] + b;
      var t := Turn(d, Raw(a[0]));
      GatherAppend(t.dec, a[1..], b);
    }
  }

  // --- conversations (section 5.4) ---

  /** How one payload travels. */
  datatype Piece = Piece(payload: seq<byte>, key: mask, form: LengthForm)

  datatype ControlKind = CloseKind | PingKind | PongKind

  datatype ControlItem = ControlItem(kind: ControlKind, piece: Piece)

  /** A fragment that is not the last of its message, and the control frames sent before the next fragment. */
  datatype Fragment = Fragment(piece: Piece, controls: seq<ControlItem>)

  datatype Item = OneControl(control: ControlItem) | Data(text: bool, head: seq<Fragment>, last: Piece)

  function ControlOp(k: ControlKind): opcode {
    match k case CloseKind => OP_CLOSE case PingKind => OP_PING case PongKind => OP_PONG
  }

  function FrameOf(fin: bool, op: opcode, p: Piece): Sent { Sent(fin, op, p.payload, p.key, p.form) }

  function ControlFrame(c: ControlItem): Sent { FrameOf(true, ControlOp(c.kind), c.piece) }

  function ControlFrames(cs: seq<ControlItem>): (fs: seq<Sent>)
    ensures |fs| == |cs|
  {
    seq(|cs|, i requires 0 <= i < |cs| => ControlFrame(cs[i]))
  }

  /** The frames of a data message, the first of which has opcode op. */
  function DataFrames(op: opcode, head: seq<Fragment>, last: Piece): seq<Sent>
    decreases |head|
  {
    if |head| == 0 then [FrameOf(true, op, last)]
    else [FrameOf(false, op, head[0].piece)] + ControlFrames(head[0].controls)
         + DataFrames(OP_CONTINUATION, head[1..], last)
  }

  function DataOp(text: bool): opcode { if text then OP_TEXT else OP_BINARY }

  function ItemFrames(it: Item): seq<Sent> {
    match it
    case OneControl(c) => [ControlFrame(c)]
    case Data(text, head, last) => DataFrames(DataOp(text), head, last)
  }

  function Frames(items: seq<Item>): seq<Sent>
    decreases |items|
  {
    if |items| == 0 then [] else ItemFrames(items[0]) + Frames(items[1..])
  }

  /** What the client means by them. */
  function ControlMessage(c: ControlItem): Message {
    match c.kind
    case CloseKind => Close(c.piece.payload)
    case PingKind => Ping(c.piece.payload)
    case PongKind => Pong(c.piece.payload)
  }

  function ControlMessages(cs: seq<ControlItem>): seq<Message> {
    seq(|cs|, i requires 0 <= i < |cs| => ControlMessage(cs[i]))
  }

  function Interleaved(head: seq<Fragment>): seq<Message>
    decreases |head|
  {
    if |head| == 0 then [] else ControlMessages(head[0].controls) + Interleaved(head[1..])
  }

  function Whole(head: seq<Fragment>, last: Piece): seq<byte>
    decreases |head|
  {
    if |head| == 0 then last.payload else head[0].piece.payload + Whole(head[1..], last)
  }

  function Meaning(it: Item): seq<Message> {
    match it
    case OneControl(c) => [ControlMessage(c)]
    case Data(text, head, last) =>
      Interleaved(head) + [if text then Text(Whole(head, last)) else Binary(Whole(head, last))]
  }

  function Meanings(items: seq<Item>): seq<Message>
    decreases |items|
  {
    if |items| == 0 then [] else Meaning(items[0]) + Meanings(items[1..])
  }

  /** A message the server accepts: within its limit, and UTF-8 if text. */
  ghost predicate Acceptable(it: Item, max: nat) {
    it.Data? ==> |Whole(it.head, it.last)| <= max && (it.text ==> ValidUtf8(Whole(it.head, it.last)))
  }

  lemma {:induction false} ControlsGather(d: DecoderState, cs: seq<ControlItem>)
    ensures Gather(d, ControlFrames(cs)) == Gathered(ControlMessages(cs), Ok(d))
    decreases |cs|
  {
    if |cs| > 0 {
      assert ControlFrames(cs)[1..] == ControlFrames(cs[1..]);
      assert ControlMessages(cs) == [ControlMessage(cs[0])] + ControlMessages(cs[1..]);
      ControlsGather(d, cs[1..]);
    }
  }

  /** Inside a fragmented message. */
  function Within(max: nat, op: opcode, frag: seq<byte>): DecoderState { Dec(max, Some(op), frag) }

  function Idle(max: nat): DecoderState { Dec(max, None, []) }

  lemma {:induction false} GatherFirst(d: DecoderState, f: Sent, more: seq<Sent>)
    ensures var fs := [f] + more; fs[0] == f && fs[1..] == more
  {
  }

  lemma {:induction false} ContinuationGathers(max: nat, text: bool, frag: seq<byte>, head: seq<Fragment>, last: Piece)
    requires |frag + Whole(head, last)| <= max && (text ==> ValidUtf8(frag + Whole(head, last)))
    ensures var whole := frag + Whole(head, last);
      Gather(Within(max, DataOp(text), frag), DataFrames(OP_CONTINUATION, head, last))
        == Gathered(Interleaved(head) + [if text then Text(whole) else Binary(whole)], Ok(Idle(max)))
    decreases |head|
  {
    var d := Within(max, DataOp(text), frag);
    if |head| == 0 {
      GatherFirst(d, FrameOf(true, OP_CONTINUATION, last), []);
      assert [FrameOf(true, OP_CONTINUATION, last)][1..] == [];
    } else {
      var more := DataFrames(OP_CONTINUATION, head[1..], last);
      var grown := frag + head[0].piece.payload;
      assert frag + Whole(head, last) == grown + Whole(head[1..], last);
      AfterFragment(d, OP_CONTINUATION, Within(max, DataOp(text), grown), head[0], more);
      ContinuationGathers(max, text, grown, head[1..], last);
      var m := if text then Text(frag + Whole(head, last)) else Binary(frag + Whole(head, last));
      assert ControlMessages(head[0].controls) + (Interleaved(head[1..]) + [m]) == Interleaved(head) + [m];
      assert DataFrames(OP_CONTINUATION, head, last)
          == [FrameOf(false, OP_CONTINUATION, head[0].piece)] + ControlFrames(head[0].controls) + more;
    }
  }

  /** A fragment is absorbed, the control frames after it come out, and the message goes on. */
  lemma {:induction false} AfterFragment(d: DecoderState, op: opcode, e: DecoderState, f: Fragment, more: seq<Sent>)
    requires Turn(d, Raw(FrameOf(false, op, f.piece))) == Absorb(e)
    ensures Gather(d, [FrameOf(false, op, f.piece)] + ControlFrames(f.controls) + more)
         == Gathered(ControlMessages(f.controls) + Gather(e, more).messages, Gather(e, more).state)
  {
    var first := FrameOf(false, op, f.piece);
    GatherFirst(d, first, ControlFrames(f.controls) + more);
    assert [first] + ControlFrames(f.controls) + more == [first] + (ControlFrames(f.controls) + more);
    ControlsGather(e, f.controls);
    GatherAppend(e, ControlFrames(f.controls), more);
  }

  lemma {:induction false} ItemGathers(max: nat, it: Item)
    requires Acceptable(it, max)
    ensures Gather(Idle(max), ItemFrames(it)) == Gathered(Meaning(it), Ok(Idle(max)))
  {
    var d := Idle(max);
    match it
    case OneControl(c) => assert [ControlFrame(c)][1..] == [];
    case Data(text, head, last) =>
      if |head| == 0 {
        assert [FrameOf(true, DataOp(text), last)][1..] == [];
      } else {
        var more := DataFrames(OP_CONTINUATION, head[1..], last);
        AfterFragment(d, DataOp(text), Within(max, DataOp(text), head[0].piece.payload), head[0], more);
        ContinuationGathers(max, text, head[0].piece.payload, head[1..], last);
        var m := if text then Text(Whole(head, last)) else Binary(Whole(head, last));
        assert ControlMessages(head[0].controls) + (Interleaved(head[1..]) + [m]) == Interleaved(head) + [m];
      }
  }

  lemma {:induction false} ItemsGather(max: nat, items: seq<Item>)
    requires forall i | 0 <= i < |items| :: Acceptable(items[i], max)
    ensures Gather(Idle(max), Frames(items)) == Gathered(Meanings(items), Ok(Idle(max)))
    decreases |items|
  {
    if |items| > 0 {
      ItemGathers(max, items[0]);
      ItemsGather(max, items[1..]);
      GatherAppend(Idle(max), ItemFrames(items[0]), Frames(items[1..]));
    }
  }

  /** Reassembly inverts every conforming encoding: any masks, any fragmentation, any interleaved control frames,
      any length forms and any division into arrivals give exactly the messages meant, and no error. */
  lemma {:induction false} ConversationReadsBack(max: nat, items: seq<Item>, chunks: seq<seq<byte>>)
    requires forall i | 0 <= i < |items| :: Acceptable(items[i], max)
    requires Conforming(Frames(items), max) && Concat(chunks) == Wire(Frames(items))
    ensures Feed(Idle(max), [], chunks) == Drained(Meanings(items), More(Idle(max), []))
  {
    ItemsGather(max, items);
    DrainIsGather(Idle(max), Frames(items));
    WholeStream(Idle(max), chunks);
  }

  // --- the objects ---

  class Decoder {
    const maxMessage: nat
    var fragOpcode: Option<opcode>
    var frag: seq<byte>

    ghost function State(): DecoderState
      reads this
    {
      Dec(maxMessage, fragOpcode, frag)
    }

    constructor (max: nat)
      ensures State() == Idle(max) && Bounded(State())
    {
      maxMessage, fragOpcode, frag := max, None, [];
    }

    /** `None` with no error asks for more bytes. `rest` is what stays in the caller's buffer. */
    method Next(buf: seq<byte>) returns (r: Result<Option<Message>, DecodeError>, rest: seq<byte>)
      modifies this
      ensures match NextOf(old(State()), buf)
              case Pending(d, more) => r == Ok(None) && State() == d && rest == more
              case Cut(d, more, m) => r == Ok(Some(m)) && State() == d && rest == more
              case Failed(e) => r == Err(e)
    {
      rest := buf;
      while true
        invariant NextOf(State(), rest) == NextOf(old(State()), buf)
        decreases |rest|
      {
        var p := TakeFrame(rest, maxMessage);
        match p {
          case NeedMore => return Ok(None), rest;
          case Bad(e) => return Err(e), rest;
          case Got(f, used) =>
            rest := rest[used..];
            if f.opcode == OP_CLOSE || f.opcode == OP_PING || f.opcode == OP_PONG {
              if !f.fin {
                return Err(FragmentedControl), rest;
              }
              return Ok(Some(if f.opcode == OP_CLOSE then Close(f.payload)
                             else if f.opcode == OP_PING then Ping(f.payload) else Pong(f.payload))), rest;
            } else if f.opcode == OP_TEXT || f.opcode == OP_BINARY {
              if fragOpcode.Some? {
                return Err(NestedMessage), rest;
              }
              if f.fin {
                return Done(FinishMessage(f.opcode, f.payload)), rest;
              }
              fragOpcode := Some(f.opcode);
              frag := f.payload;
            } else if f.opcode == OP_CONTINUATION {
              if fragOpcode.None? {
                return Err(StrayContinuation), rest;
              }
              if |frag| + |f.payload| > maxMessage {
                return Err(TooBig), rest;
              }
              frag := frag + f.payload;
              if f.fin {
                var op, payload := fragOpcode.value, frag;
                fragOpcode, frag := None, [];
                return Done(FinishMessage(op, payload)), rest;
              }
            } else {
              return Err(ReservedOpcode), rest;
            }
        }
      }
    }

    /** The tunnel's reading side: each arrival is appended to the buffer, then messages are taken until there
        is none; the client's close or the first error ends it. */
    method Tunnel(chunks: seq<seq<byte>>) returns (messages: seq<Message>, error: Option<DecodeError>)
      requires State() == Idle(maxMessage)
      modifies this
      ensures var whole := Drain(Idle(maxMessage), Concat(chunks));
        && messages == UpToClose(whole.messages)
        && error == if HasClose(whole.messages) then None else ErrorOf(whole.end)
    {
      messages, error := [], None;
      var buf: seq<byte> := [];
      ghost var all := Drain(Idle(maxMessage), Concat(chunks));
      TunnelStarts(maxMessage, chunks);
      for i := 0 to |chunks|
        invariant error == None && !HasClose(messages) && Tail(all, messages, Feed(State(), buf, chunks[i..]))
      {
        TunnelTurn(all, messages, State(), buf, chunks, i);
        var more, closed;
        more, buf, closed, error := TakeAll(buf + chunks[i]);
        messages := messages + more;
        if closed || error.Some? {
          return;
        }
      }
      TunnelEnds(all, messages, State(), buf, chunks);
    }

    /** The inner loop of the tunnel. */
    method TakeAll(buf: seq<byte>)
        returns (messages: seq<Message>, rest: seq<byte>, closed: bool, error: Option<DecodeError>)
      modifies this
      ensures var r := Drain(old(State()), buf);
        && messages == UpToClose(r.messages) && closed == HasClose(r.messages)
        && (!closed ==> match r.end
                        case Stop(e) => error == Some(e)
                        case More(d, more) => error == None && State() == d && rest == more)
        && (closed ==> error == None)
    {
      messages, rest, closed, error := [], buf, false, None;
      ghost var all := Drain(State(), buf);
      while true
        invariant !HasClose(messages) && Tail(all, messages, Drain(State(), rest))
        decreases |rest|
      {
        ghost var d, before := State(), rest;
        NextConsumes(d, before);
        var r;
        r, rest := Next(rest);
        match r {
          case Err(e) =>
            NoCloseAtAll(messages);
            assert messages + [] == messages;
            return messages, rest, false, Some(e);
          case Ok(None) =>
            NoCloseAtAll(messages);
            assert messages + [] == messages;
            return messages, rest, false, None;
          case Ok(Some(m)) =>
            DrainOneMore(d, before, State(), rest, m);
            ghost var later := Drain(State(), rest).messages;
            assert messages + ([m] + later) == messages + [m] + later;
            FirstClose(messages, m, later);
            messages := messages + [m];
            if m.Close? {
              return messages, rest, true, None;
            }
        }
      }
    }
  }

  predicate HasClose(ms: seq<Message>) {
    exists i :: 0 <= i < |ms| && ms[i].Close?
  }

  /** Up to and including the first close. */
  function UpToClose(ms: seq<Message>): seq<Message>
    decreases |ms|
  {
    if |ms| == 0 then [] else if ms[0].Close? then [ms[0]] else [ms[0]] + UpToClose(ms[1..])
  }

  lemma {:induction false} NoCloseAtAll(ms: seq<Message>)
    requires !HasClose(ms)
    ensures UpToClose(ms) == ms
    decreases |ms|
  {
    if |ms| > 0 {
      assert !ms[0].Close?;
      assert forall i | 0 <= i < |ms[1..]| :: ms[1..][i] == ms[i + 1];
      NoCloseAtAll(ms[1..]);
      assert [ms[0]] + ms[1..] == ms;
    }
  }

  /** Messages without a close, and one more. */
  lemma {:induction false} FirstClose(ms: seq<Message>, m: Message, later: seq<Message>)
    requires !HasClose(ms)
    ensures m.Close? ==> UpToClose(ms + [m] + later) == ms + [m] && HasClose(ms + [m] + later)
    ensures !m.Close? ==> !HasClose(ms + [m])
    decreases |ms|
  {
    var all := ms + [m] + later;
    assert all[|ms|] == m;
    if |ms| > 0 {
      assert !ms[0].Close?;
      assert forall i | 0 <= i < |ms[1..]| :: ms[1..][i] == ms[i + 1];
      FirstClose(ms[1..], m, later);
      assert all[0] == ms[0] && all[1..] == ms[1..] + [m] + later;
      assert [ms[0]] + (ms[1..] + [m]) == ms + [m];
    }
  }

  /** A close among the next messages is the first of all. */
  lemma {:induction false} CloseWithin(ms: seq<Message>, now: seq<Message>, all: seq<Message>)
    requires !HasClose(ms) && ms + now <= all
    ensures HasClose(now) ==> UpToClose(all) == ms + UpToClose(now) && HasClose(all)
    ensures !HasClose(now) ==> !HasClose(ms + now) && UpToClose(now) == now
    decreases |now|
  {
    if |now| == 0 {
      assert ms + now == ms;
    } else {
      var m := now[0];
      var later := all[|ms| + 1..];
      assert all == ms + [m] + later;
      FirstClose(ms, m, later);
      if m.Close? {
        assert HasClose(now);
      } else {
        assert ms + now == ms + [m] + now[1..];
        CloseWithin(ms + [m], now[1..], all);
        CloseBehind(now);
        assert ms + [m] + UpToClose(now[1..]) == ms + ([m] + UpToClose(now[1..]));
        assert [m] + now[1..] == now;
      }
    }
  }

  lemma {:induction false} CloseBehind(ms: seq<Message>)
    requires |ms| > 0 && !ms[0].Close?
    ensures HasClose(ms) <==> HasClose(ms[1..])
  {
    if HasClose(ms) {
      var i :| 0 <= i < |ms| && ms[i].Close?;
      assert ms[1..][i - 1].Close?;
    }
    if HasClose(ms[1..]) {
      var i :| 0 <= i < |ms[1..]| && ms[1..][i].Close?;
      assert ms[i + 1].Close?;
    }
  }

  /** `later` is what `all` has beyond the messages taken so far. */
  ghost predicate Tail(all: Drained, taken: seq<Message>, later: Drained) {
    all == Drained(taken + later.messages, later.end)
  }

  function ErrorOf(end: End): Option<DecodeError> {
    match end case Stop(e) => Some(e) case More(_, _) => None
  }

  /** One more arrival drained. */
  lemma {:induction false} FeedMore(all: Drained, taken: seq<Message>, d: DecoderState, buf: seq<byte>,
                                    chunks: seq<seq<byte>>, i: nat)
    requires i < |chunks| && Tail(all, taken, Feed(d, buf, chunks[i..]))
    ensures var now := Drain(d, buf + chunks[i]);
      match now.end
      case Stop(_) => all == Drained(taken + now.messages, now.end)
      case More(e, rest) => Tail(all, taken + now.messages, Feed(e, rest, chunks[i + 1..]))
  {
    assert chunks[i..][0] == chunks[i] && chunks[i..][1..] == chunks[i + 1..];
    var now := Drain(d, buf + chunks[i]);
    if now.end.More? {
      var later := Feed(now.end.dec, now.end.rest, chunks[i + 1..]);
      assert taken + (now.messages + later.messages) == taken + now.messages + later.messages;
    }
  }

  lemma {:induction false} TunnelStarts(max: nat, chunks: seq<seq<byte>>)
    ensures Tail(Drain(Idle(max), Concat(chunks)), [], Feed(Idle(max), [], chunks[0..]))
  {
    WholeStream(Idle(max), chunks);
    assert chunks[0..] == chunks;
    NothingTaken(Feed(Idle(max), [], chunks));
  }

  lemma {:induction false} NothingTaken(all: Drained)
    ensures Tail(all, [], all)
  {
    assert [] + all.messages == all.messages;
  }

  lemma {:induction false} TunnelEnds(all: Drained, taken: seq<Message>, d: DecoderState, buf: seq<byte>,
                                      chunks: seq<seq<byte>>)
    requires !HasClose(taken) && Tail(all, taken, Feed(d, buf, chunks[|chunks|..]))
    ensures all == Drained(taken, More(d, buf)) && UpToClose(taken) == taken
  {
    assert taken + [] == taken;
    NoCloseAtAll(taken);
  }

  /** One more arrival, which may hold the client's close. */
  lemma {:induction false} TunnelTurn(all: Drained, taken: seq<Message>, d: DecoderState, buf: seq<byte>,
                                      chunks: seq<seq<byte>>, i: nat)
    requires i < |chunks| && !HasClose(taken) && Tail(all, taken, Feed(d, buf, chunks[i..]))
    ensures var now := Drain(d, buf + chunks[i]);
      if HasClose(now.messages) then HasClose(all.messages) && UpToClose(all.messages) == taken + UpToClose(now.messages)
      else
        var grown := taken + UpToClose(now.messages);
        !HasClose(grown) && match now.end
                            case Stop(_) => all == Drained(grown, now.end) && UpToClose(grown) == grown
                            case More(e, rest) => Tail(all, grown, Feed(e, rest, chunks[i + 1..]))
  {
    var now := Drain(d, buf + chunks[i]);
    FeedMore(all, taken, d, buf, chunks, i);
    assert taken + now.messages <= all.messages;
    CloseWithin(taken, now.messages, all.messages);
    if !HasClose(now.messages) {
      NoCloseAtAll(taken + now.messages);
    }
  }

  function Done(r: Result<Message, DecodeError>): Result<Option<Message>, DecodeError> {
    match r case Ok(m) => Ok(Some(m)) case Err(e) => Err(e)
  }

  /** `parse_frame`, unmasking the payload in place. */
  method TakeFrame(buf: seq<byte>, max: nat) returns (p: Parse)
    ensures p == ParseFrame(buf, max)
  {
    if |buf| < 2 {
      return NeedMore;
    }
    if (buf[0] / 16) % 8 != 0 {
      return Bad(RsvBits);
    }
    if buf[1] < 128 {
      return Bad(Unmasked);
    }
    var l := ReadLength(buf);
    if l.None? {
      return NeedMore;
    }
    var Length(header, len) := l.value;
    var op := buf[0] % 16;
    if Control(op) && len > 125 {
      return Bad(LongControl);
    }
    if !Control(op) && len > max {
      return Bad(TooBig);
    }
    if |buf| < header + 4 + len {
      return NeedMore;
    }
    var start := header + 4;
    var payload := Unmask(buf[start..start + len], buf[header..start]);
    return Got(RawFrame(buf[0] >= 128, op, payload), start + len);
  }

  method Unmask(data: seq<byte>, key: mask) returns (payload: seq<byte>)
    ensures payload == Masked(data, key)
    ensures |payload| == |data| && forall i: nat, k: nat | i < |data| && k < 8 ::
      Bit(payload[i], k) == (Bit(data[i], k) + Bit(key[i % 4], k)) % 2
  {
    var a := new byte[|data|](i requires 0 <= i < |data| => data[i]);
    for i := 0 to a.Length
      invariant forall j | 0 <= j < i :: a[j] == Xor(data[j], key[j % 4])
      invariant forall j | i <= j < a.Length :: a[j] == data[j]
    {
      a[i] := Xor(a[i], key[i % 4]);
    }
    payload := a[..];
    forall i: nat, k: nat | i < |data| && k < 8
      ensures Bit(payload[i], k) == (Bit(data[i], k) + Bit(key[i % 4], k)) % 2
    {
      XorBitAt(data[i], key[i % 4], 8, k);
    }
  }

  // --- the server's frames ---

  function LengthHead(n: nat): seq<byte> {
    if n <= 125 then [n] else if n < 0x1_0000 then [126] + Be(n, 2) else [127] + Be(n, 8)
  }

  /** One unmasked frame with the fin bit; the length cast to 64 bits never truncates a real buffer. */
  function EncodeServer(op: opcode, payload: seq<byte>): seq<byte> {
    [128 + op] + LengthHead(|payload|) + payload
  }

  /** A client's view of a frame (section 5.2): fin, no reserved bits, no mask, and the minimal length form. */
  function ClientParse(buf: seq<byte>): Option<(opcode, seq<byte>, nat)> {
    if |buf| < 2 || buf[0] < 128 || (buf[0] / 16) % 8 != 0 || buf[1] >= 128 then None
    else
      match ReadLength(buf)
      case None => None
      case Some(Length(header, len)) =>
        var minimal := if len <= 125 then 2 else if len < 0x1_0000 then 4 else 10;
        if header != minimal || |buf| < header + len then None
        else Some((buf[0] % 16, buf[header..header + len], header + len))
  }

  lemma {:induction false} ServerLengthReads(buf: seq<byte>, first: byte, n: nat, rest: seq<byte>)
    requires n < U64_LIMIT && buf == [first] + LengthHead(n) + rest
    ensures |buf| >= 2 && buf[1] < 128 && ReadLength(buf) == Some(Length(1 + |LengthHead(n)|, n))
  {
    Spans();
    if 125 < n < 0x1_0000 {
      assert buf == [first, 126] + Be(n, 2) + rest;
      ReadBeOf([first, 126], n, 2, rest);
    } else if n >= 0x1_0000 {
      assert buf == [first, 127] + Be(n, 8) + rest;
      ReadBeOf([first, 127], n, 8, rest);
    }
  }

  lemma {:induction false} ClientGets(buf: seq<byte>, op: opcode, header: nat, payload: seq<byte>)
    requires |buf| >= 2 && buf[0] == 128 + op && buf[1] < 128
    requires ReadLength(buf) == Some(Length(header, |payload|)) && header == 1 + |LengthHead(|payload|)|
    requires header + |payload| <= |buf| && buf[header..header + |payload|] == payload
    ensures ClientParse(buf) == Some((op, payload, header + |payload|))
  {
  }

  /** A conforming client reads every server frame back, and finds its length in minimal form. */
  lemma {:induction false} ServerFrameReadsBack(op: opcode, payload: seq<byte>, rest: seq<byte>)
    requires |payload| < U64_LIMIT
    ensures ClientParse(EncodeServer(op, payload) + rest) == Some((op, payload, |EncodeServer(op, payload)|))
  {
    var head := [128 + op] + LengthHead(|payload|);
    var buf := head + payload + rest;
    assert EncodeServer(op, payload) + rest == buf;
    assert buf == [128 + op] + LengthHead(|payload|) + (payload + rest);
    ServerLengthReads(buf, 128 + op, |payload|, payload + rest);
    assert buf[|head|..|head| + |payload|] == payload;
    ClientGets(buf, op, |head|, payload);
  }

  /** `encode_close`. */
  function EncodeClose(code: u16, reason: seq<byte>): seq<byte> { EncodeServer(OP_CLOSE, Be(code, 2) + reason) }

  lemma {:induction false} CloseReadsBack(code: u16, reason: seq<byte>)
    requires |reason| <= 123
    ensures var r := ClientParse(EncodeClose(code, reason));
      r.Some? && r.value.0 == OP_CLOSE && |r.value.1| <= 125 && ReadBe(r.value.1, 0, 2) == code && r.value.1[2..] == reason
  {
    var payload := Be(code, 2) + reason;
    ServerFrameReadsBack(OP_CLOSE, payload, []);
    assert EncodeServer(OP_CLOSE, payload) + [] == EncodeServer(OP_CLOSE, payload);
    Spans();
    ReadBeOf([], code, 2, reason);
    assert [] + Be(code, 2) + reason == payload;
  }
}
