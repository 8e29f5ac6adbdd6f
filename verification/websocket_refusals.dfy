/** What the WebSocket decoder refuses: which offence ends a conversation, where, and with which error. */
module Refusals {
  import opened Bytes
  import opened Utf8
  import opened WebSocket

  // --- one frame ---

  type bits3 = r: int | 0 <= r < 8

  /** A frame as anybody may put it on the wire: any reserved bits, any opcode, masked or not. */
  datatype AnyFrame = AnyFrame(fin: bool, reserved: bits3, opcode: opcode, masked: bool, payload: seq<byte>, key: mask,
                               form: LengthForm)

  predicate HasForm(f: AnyFrame) {
    match f.form
    case Short => |f.payload| <= 125
    case Medium => |f.payload| < 0x1_0000
    case Long => |f.payload| < U64_LIMIT
  }

  function LengthOf(f: AnyFrame): (s: seq<byte>)
    requires HasForm(f)
    ensures |s| > 0 && (s[0] >= 128 <==> f.masked)
  {
    var s := LengthBytes(|f.payload|, f.form);
    if f.masked then s else [s[0] - 128] + s[1..]
  }

  function FirstByteOf(f: AnyFrame): byte {
    (if f.fin then 128 else 0) + 16 * f.reserved + f.opcode
  }

  function EncodeAny(f: AnyFrame): seq<byte>
    requires HasForm(f)
  {
    [FirstByteOf(f)] + LengthOf(f) + if f.masked then f.key + Masked(f.payload, f.key) else f.payload
  }

  /** What is wrong with the frame by itself. */
  function FrameOffence(f: AnyFrame, max: nat): Option<DecodeError> {
    if f.reserved > 0 then Some(RsvBits)
    else if !f.masked then Some(Unmasked)
    else if f.opcode >= 8 && |f.payload| > 125 then Some(LongControl)
    else if f.opcode < 8 && |f.payload| > max then Some(TooBig)
    else None
  }

  function AsSent(f: AnyFrame): Sent { Sent(f.fin, f.opcode, f.payload, f.key, f.form) }

  lemma {:induction false} FirstBits(f: AnyFrame)
    ensures var b: int := FirstByteOf(f); b / 16 % 8 == f.reserved && b % 16 == f.opcode && (b >= 128 <==> f.fin)
  {
  }

  lemma {:induction false} TooLongIsBad(buf: seq<byte>, max: nat, op: opcode, header: nat, len: nat)
    requires |buf| >= 2 && buf[0] / 16 % 8 == 0 && buf[0] % 16 == op && buf[1] >= 128
    requires ReadLength(buf) == Some(Length(header, len)) && len > if op >= 8 then 125 else max
    ensures ParseFrame(buf, max) == Bad(if op >= 8 then LongControl else TooBig)
  {
  }

  lemma {:induction false} EarlyOffence(f: AnyFrame, rest: seq<byte>, max: nat)
    requires HasForm(f) && (f.reserved > 0 || !f.masked)
    ensures ParseFrame(EncodeAny(f) + rest, max) == Bad(if f.reserved > 0 then RsvBits else Unmasked)
  {
    FirstBits(f);
    var buf := EncodeAny(f) + rest;
    assert buf[0] == FirstByteOf(f) && buf[1] == LengthOf(f)[0];
  }

  lemma {:induction false} LateOffence(f: AnyFrame, rest: seq<byte>, max: nat)
    requires HasForm(f) && f.reserved == 0 && f.masked && FrameOffence(f, max).Some?
    ensures ParseFrame(EncodeAny(f) + rest, max) == Bad(FrameOffence(f, max).value)
  {
    FirstBits(f);
    var buf := EncodeAny(f) + rest;
    var more := f.key + Masked(f.payload, f.key) + rest;
    assert buf == [FirstByteOf(f)] + LengthBytes(|f.payload|, f.form) + more;
    LengthReads(buf, FirstByteOf(f), |f.payload|, f.form, more);
    TooLongIsBad(buf, max, f.opcode, 1 + |LengthBytes(|f.payload|, f.form)|, |f.payload|);
  }

  /** A frame is refused for its offence, whatever follows it, and otherwise read as what it is. */
  lemma {:induction false} FrameIsJudged(f: AnyFrame, rest: seq<byte>, max: nat)
    requires HasForm(f)
    ensures ParseFrame(EncodeAny(f) + rest, max) ==
      if FrameOffence(f, max).Some? then Bad(FrameOffence(f, max).value)
      else Got(RawFrame(f.fin, f.opcode, f.payload), |EncodeAny(f)|)
  {
    if f.reserved > 0 || !f.masked {
      EarlyOffence(f, rest, max);
    } else if FrameOffence(f, max).Some? {
      LateOffence(f, rest, max);
    } else {
      FirstBits(f);
      assert EncodeAny(f) == EncodeClient(AsSent(f));
      FrameReadsBack(AsSent(f), rest, max);
    }
  }

  // --- one frame in a conversation ---

  /** The frames of a message that has begun, up to its last fragment so far. */
  function Continuations(open: seq<Fragment>): seq<Sent>
    decreases |open|
  {
    if |open| == 0 then []
    else [FrameOf(false, OP_CONTINUATION, open[0].piece)] + ControlFrames(open[0].controls) + Continuations(open[1..])
  }

  /** Empty if no message has begun. */
  function OpenFrames(text: bool, open: seq<Fragment>): seq<Sent> {
    if |open| == 0 then []
    else [FrameOf(false, DataOp(text), open[0].piece)] + ControlFrames(open[0].controls) + Continuations(open[1..])
  }

  function OpenBytes(open: seq<Fragment>): seq<byte>
    decreases |open|
  {
    if |open| == 0 then [] else open[0].piece.payload + OpenBytes(open[1..])
  }

  function StateIn(max: nat, text: bool, open: seq<Fragment>): DecoderState {
    if |open| == 0 then Idle(max) else Within(max, DataOp(text), OpenBytes(open))
  }

  lemma {:induction false} ContinuationsGather(max: nat, text: bool, frag: seq<byte>, open: seq<Fragment>)
    requires |frag + OpenBytes(open)| <= max
    ensures Gather(Within(max, DataOp(text), frag), Continuations(open))
         == Gathered(Interleaved(open), Ok(Within(max, DataOp(text), frag + OpenBytes(open))))
    decreases |open|
  {
    if |open| == 0 {
      assert frag + [] == frag;
    } else {
      var grown := frag + open[0].piece.payload;
      assert frag + OpenBytes(open) == grown + OpenBytes(open[1..]);
      AfterFragment(Within(max, DataOp(text), frag), OP_CONTINUATION, Within(max, DataOp(text), grown), open[0],
                    Continuations(open[1..]));
      ContinuationsGather(max, text, grown, open[1..]);
    }
  }

  lemma {:induction false} OpenGathers(max: nat, text: bool, open: seq<Fragment>)
    requires |OpenBytes(open)| <= max
    ensures Gather(Idle(max), OpenFrames(text, open)) == Gathered(Interleaved(open), Ok(StateIn(max, text, open)))
  {
    if |open| > 0 {
      var first := open[0].piece.payload;
      AfterFragment(Idle(max), DataOp(text), Within(max, DataOp(text), first), open[0], Continuations(open[1..]));
      ContinuationsGather(max, text, first, open[1..]);
    }
  }

  /** What is wrong with the frame where it stands: after whole messages, with `open` the fragments of one that has begun. */
  function Offence(max: nat, text: bool, open: seq<Fragment>, f: AnyFrame): Option<DecodeError> {
    if FrameOffence(f, max).Some? then FrameOffence(f, max)
    else if f.opcode == 0 then
      if |open| == 0 then Some(StrayContinuation)
      else if |OpenBytes(open)| + |f.payload| > max then Some(TooBig)
      else if f.fin && text && !ValidUtf8(OpenBytes(open) + f.payload) then Some(BadUtf8)
      else None
    else if f.opcode == 1 || f.opcode == 2 then
      if |open| > 0 then Some(NestedMessage)
      else if f.fin && f.opcode == 1 && !ValidUtf8(f.payload) then Some(BadUtf8)
      else None
    else if 8 <= f.opcode <= 10 then if f.fin then None else Some(FragmentedControl)
    else Some(ReservedOpcode)
  }

  lemma {:induction false} TurnRefuses(max: nat, text: bool, open: seq<Fragment>, f: AnyFrame)
    requires FrameOffence(f, max).None?
    ensures var t, o := Turn(StateIn(max, text, open), RawFrame(f.fin, f.opcode, f.payload)), Offence(max, text, open, f);
      (t.Fail? <==> o.Some?) && (o.Some? ==> t == Fail(o.value))
  {
  }

  lemma {:induction false} OffenceStops(max: nat, text: bool, open: seq<Fragment>, f: AnyFrame, rest: seq<byte>)
    requires HasForm(f) && Offence(max, text, open, f).Some?
    ensures Drain(StateIn(max, text, open), EncodeAny(f) + rest) == Drained([], Stop(Offence(max, text, open, f).value))
  {
    FrameIsJudged(f, rest, max);
    if FrameOffence(f, max).None? {
      TurnRefuses(max, text, open, f);
      NextOfFrame(StateIn(max, text, open), EncodeAny(f) + rest, RawFrame(f.fin, f.opcode, f.payload), |EncodeAny(f)|);
    }
  }

  lemma {:induction false} NoOffenceGoesOn(max: nat, text: bool, open: seq<Fragment>, f: AnyFrame)
    requires HasForm(f) && Offence(max, text, open, f).None?
    ensures Drain(StateIn(max, text, open), EncodeAny(f)).end.More?
  {
    var buf := EncodeAny(f);
    FrameIsJudged(f, [], max);
    assert buf + [] == buf && buf[|buf|..] == [];
    TurnRefuses(max, text, open, f);
    var t := Turn(StateIn(max, text, open), RawFrame(f.fin, f.opcode, f.payload));
    NextOfFrame(StateIn(max, text, open), buf, RawFrame(f.fin, f.opcode, f.payload), |buf|);
    DrainNothing(t.dec);
  }

  // --- the conversation ---

  /** A conversation so far: whole messages and control frames, then perhaps some fragments of a message. */
  ghost predicate SoFar(max: nat, items: seq<Item>, text: bool, open: seq<Fragment>) {
    && (forall i | 0 <= i < |items| :: Acceptable(items[i], max)) && |OpenBytes(open)| <= max
    && Conforming(Frames(items) + OpenFrames(text, open), max)
  }

  lemma {:induction false} SoFarDrains(max: nat, items: seq<Item>, text: bool, open: seq<Fragment>)
    requires SoFar(max, items, text, open)
    ensures Drain(Idle(max), Wire(Frames(items) + OpenFrames(text, open)))
         == Drained(Meanings(items) + Interleaved(open), More(StateIn(max, text, open), []))
  {
    ItemsGather(max, items);
    OpenGathers(max, text, open);
    GatherAppend(Idle(max), Frames(items), OpenFrames(text, open));
    DrainIsGather(Idle(max), Frames(items) + OpenFrames(text, open));
  }

  lemma {:induction false} SoFarAndOn(max: nat, items: seq<Item>, text: bool, open: seq<Fragment>, tail: seq<byte>)
    requires SoFar(max, items, text, open)
    ensures var later := Drain(StateIn(max, text, open), tail);
      Drain(Idle(max), Wire(Frames(items) + OpenFrames(text, open)) + tail)
        == Drained(Meanings(items) + Interleaved(open) + later.messages, later.end)
  {
    SoFarDrains(max, items, text, open);
    DrainSplit(Idle(max), Wire(Frames(items) + OpenFrames(text, open)), tail);
    assert [] + tail == tail;
  }

  /** The first frame out of order ends the conversation, however it arrives and whatever follows: the messages before it
      come out, none after it, and the error is the frame's offence. */
  lemma {:induction false} OffenceEndsIt(max: nat, items: seq<Item>, text: bool, open: seq<Fragment>, f: AnyFrame,
                                         rest: seq<byte>, chunks: seq<seq<byte>>)
    requires SoFar(max, items, text, open) && HasForm(f) && Offence(max, text, open, f).Some?
    requires Concat(chunks) == Wire(Frames(items) + OpenFrames(text, open)) + (EncodeAny(f) + rest)
    ensures Feed(Idle(max), [], chunks)
         == Drained(Meanings(items) + Interleaved(open), Stop(Offence(max, text, open, f).value))
  {
    WholeStream(Idle(max), chunks);
    SoFarAndOn(max, items, text, open, EncodeAny(f) + rest);
    OffenceStops(max, text, open, f, rest);
    var ms := Meanings(items) + Interleaved(open);
    assert ms + [] == ms;
  }

  /** And nothing else does. */
  lemma {:induction false} OnlyOffencesEndIt(max: nat, items: seq<Item>, text: bool, open: seq<Fragment>, f: AnyFrame,
                                             chunks: seq<seq<byte>>)
    requires SoFar(max, items, text, open) && HasForm(f)
    requires Concat(chunks) == Wire(Frames(items) + OpenFrames(text, open)) + EncodeAny(f)
    ensures Feed(Idle(max), [], chunks).end.Stop? <==> Offence(max, text, open, f).Some?
  {
    WholeStream(Idle(max), chunks);
    SoFarAndOn(max, items, text, open, EncodeAny(f));
    if Offence(max, text, open, f).Some? {
      OffenceStops(max, text, open, f, []);
      assert EncodeAny(f) + [] == EncodeAny(f);
    } else {
      NoOffenceGoesOn(max, text, open, f);
    }
  }
}
