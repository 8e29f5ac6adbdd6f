/** BWP frames: the fixed 16-byte header and the byte stream of whole frames. */
module Frame {
  import opened Bytes

  const FRAME_HEADER_LEN := 16
  /** The router fails a stream that announces a larger payload. */
  const MAX_FRAME_PAYLOAD := 64 * 1024 * 1024

  datatype FrameKind =
    | Hello | HelloAck | Request | RequestBody | Retire
    | Claim | ResponseHeaders | ResponseBody | Flush | End | Done | Error
    | Ping | Pong | Abort | Log | WsMessage

  /** The `repr(u8)` discriminant. */
  function Code(k: FrameKind): byte {
    match k
    case Hello => 1 case HelloAck => 2 case Request => 3 case RequestBody => 4 case Retire => 5
    case Claim => 6 case ResponseHeaders => 7 case ResponseBody => 8 case Flush => 9 case End => 10
    case Done => 11 case Error => 12 case Ping => 13 case Pong => 14 case Abort => 15
    case Log => 16 case WsMessage => 17
  }

  function KindOf(b: byte): Option<FrameKind> {
    match b
    case 1 => Some(Hello) case 2 => Some(HelloAck) case 3 => Some(Request) case 4 => Some(RequestBody)
    case 5 => Some(Retire) case 6 => Some(Claim) case 7 => Some(ResponseHeaders)
    case 8 => Some(ResponseBody) case 9 => Some(Flush) case 10 => Some(End) case 11 => Some(Done)
    case 12 => Some(Error) case 13 => Some(Ping) case 14 => Some(Pong) case 15 => Some(Abort)
    case 16 => Some(Log) case 17 => Some(WsMessage)
    case _ => None
  }

  datatype Header = Header(kind: FrameKind, flags: byte, requestId: u32, payloadLen: u32, aux: u32)

  function EncodeHeader(h: Header): (buf: seq<byte>)
    ensures |buf| == FRAME_HEADER_LEN
  {
    [Code(h.kind), h.flags, 0, 0] + Le(h.requestId, 4) + Le(h.payloadLen, 4) + Le(h.aux, 4)
  }

  /** `None` is the unknown-kind error, the only one `decode` has. */
  function DecodeHeader(buf: seq<byte>): Option<Header>
    requires |buf| >= FRAME_HEADER_LEN
  {
    match KindOf(buf[0])
    case None => None
    case Some(kind) =>
      Some(Header(kind, buf[1], ReadLe32(buf, 4), ReadLe32(buf, 8), ReadLe32(buf, 12)))
  }

  /** Filling the zeroed header array in place, field by field. */
  method FillHeader(h: Header) returns (buf: array<byte>)
    ensures fresh(buf) && buf[..] == EncodeHeader(h)
  {
    buf := new byte[FRAME_HEADER_LEN](_ => 0);
    buf[0] := Code(h.kind);
    buf[1] := h.flags;
    CopyInto(buf, 4, Le(h.requestId, 4));
    CopyInto(buf, 8, Le(h.payloadLen, 4));
    CopyInto(buf, 12, Le(h.aux, 4));
  }

  /** `copy_from_slice` into the four bytes at `pos`. */
  method CopyInto(buf: array<byte>, pos: nat, src: seq<byte>)
    requires |src| == 4 && pos + 4 <= buf.Length
    modifies buf
    ensures buf[..] == old(buf[..pos]) + src + old(buf[pos + 4..])
  {
    buf[pos], buf[pos + 1], buf[pos + 2], buf[pos + 3] := src[0], src[1], src[2], src[3];
  }

  lemma {:induction false} HeaderRoundTrip(h: Header, rest: seq<byte>)
    ensures DecodeHeader(EncodeHeader(h) + rest) == Some(h)
  {
    var first := [Code(h.kind), h.flags, 0, 0];
    var id, len, aux := Le(h.requestId, 4), Le(h.payloadLen, 4), Le(h.aux, 4);
    var buf := EncodeHeader(h) + rest;
    Spans();
    ReadLeOf(first, h.requestId, 4, len + aux + rest);
    assert buf == first + id + (len + aux + rest);
    ReadLeOf(first + id, h.payloadLen, 4, aux + rest);
    assert buf == (first + id) + len + (aux + rest);
    ReadLeOf(first + id + len, h.aux, 4, rest);
    assert buf == (first + id + len) + aux + rest;
  }

  lemma CodeOfKind(b: byte)
    ensures KindOf(b).Some? <==> 1 <= b <= 17
    ensures KindOf(b).Some? ==> Code(KindOf(b).value) == b
  {
  }

  lemma {:induction false} FieldReadsBack(buf: seq<byte>, pos: nat)
    requires pos + 4 <= |buf|
    ensures Le(ReadLe32(buf, pos), 4) == buf[pos..pos + 4]
  {
    LeOfRead(buf, pos, 4);
  }

  lemma {:induction false} FourSlices(buf: seq<byte>)
    requires |buf| == FRAME_HEADER_LEN
    ensures [buf[0], buf[1], 0, 0] + buf[4..8] + buf[8..12] + buf[12..16] == buf[2 := 0][3 := 0]
  {
  }

  /** Decoding fails exactly on a first byte outside 1..=17, and loses only the two reserved bytes. */
  lemma {:induction false} DecodedHeaderDeterminesBytes(buf: seq<byte>)
    requires |buf| == FRAME_HEADER_LEN
    ensures DecodeHeader(buf).Some? <==> 1 <= buf[0] <= 17
    ensures DecodeHeader(buf).Some? ==> EncodeHeader(DecodeHeader(buf).value) == buf[2 := 0][3 := 0]
  {
    CodeOfKind(buf[0]);
    if DecodeHeader(buf).Some? {
      FieldReadsBack(buf, 4);
      FieldReadsBack(buf, 8);
      FieldReadsBack(buf, 12);
      FourSlices(buf);
    }
  }

  /** A frame on the wire: its payload length is the payload's. */
  datatype Frame = Frame(kind: FrameKind, flags: byte, id: u32, aux: u32, payload: seq<byte>)

  /** No more than the 64 MiB a reader takes. */
  predicate Sendable(f: Frame) {
    |f.payload| <= 64 * 1024 * 1024
  }

  /** `FrameHeader::new` and an empty payload. */
  function Bare(kind: FrameKind, id: u32): Frame {
    Frame(kind, 0, id, 0, [])
  }

  /** The `as u32` cast of the payload length truncates. */
  function HeaderOf(f: Frame): Header {
    Header(f.kind, f.flags, f.id, |f.payload| % U32_LIMIT, f.aux)
  }

  /** `push_frame`. */
  function EncodeFrame(f: Frame): seq<byte> {
    EncodeHeader(HeaderOf(f)) + f.payload
  }

  function EncodeFrames(fs: seq<Frame>): seq<byte> {
    if fs == [] then [] else EncodeFrame(fs[0]) + EncodeFrames(fs[1..])
  }

  /** `read_frame`: the first frame of the stream and its length, if a whole acceptable one is there. */
  function FirstFrame(buf: seq<byte>): (r: Option<(Frame, nat)>)
    ensures r.Some? ==> FRAME_HEADER_LEN <= r.value.1 <= |buf|
  {
    if |buf| < FRAME_HEADER_LEN then None else
      match DecodeHeader(buf)
      case None => None
      case Some(h) =>
        if h.payloadLen > MAX_FRAME_PAYLOAD || |buf| < FRAME_HEADER_LEN + h.payloadLen then None
        else
          var end := FRAME_HEADER_LEN + h.payloadLen;
          Some((Frame(h.kind, h.flags, h.requestId, h.aux, buf[FRAME_HEADER_LEN..end]), end))
  }

  /** `read_frame` called until it fails: end of stream, unknown kind or an oversized length. */
  function DecodeFrames(buf: seq<byte>): seq<Frame>
    decreases |buf|
  {
    match FirstFrame(buf)
    case None => []
    case Some((f, n)) => [f] + DecodeFrames(buf[n..])
  }

  lemma {:induction false} FirstAfterHeader(head: seq<byte>, h: Header, payload: seq<byte>, rest: seq<byte>)
    requires |head| == FRAME_HEADER_LEN && DecodeHeader(head + (payload + rest)) == Some(h)
    requires h.payloadLen == |payload| <= MAX_FRAME_PAYLOAD
    ensures FirstFrame(head + (payload + rest))
         == Some((Frame(h.kind, h.flags, h.requestId, h.aux, payload), FRAME_HEADER_LEN + |payload|))
  {
    var buf := head + (payload + rest);
    assert buf[FRAME_HEADER_LEN..FRAME_HEADER_LEN + |payload|] == payload;
  }

  lemma {:induction false} FirstOfEncoded(f: Frame, rest: seq<byte>)
    requires Sendable(f)
    ensures FirstFrame(EncodeFrame(f) + rest) == Some((f, FRAME_HEADER_LEN + |f.payload|))
  {
    var h := HeaderOf(f);
    HeaderRoundTrip(h, f.payload + rest);
    FirstAfterHeader(EncodeHeader(h), h, f.payload, rest);
    Reassociate(EncodeHeader(h), f.payload, rest);
  }

  lemma {:induction false} DecodeFirst(f: Frame, rest: seq<byte>)
    requires Sendable(f)
    ensures DecodeFrames(EncodeFrame(f) + rest) == [f] + DecodeFrames(rest)
  {
    FirstOfEncoded(f, rest);
    var buf := EncodeFrame(f) + rest;
    assert buf[FRAME_HEADER_LEN + |f.payload|..] == rest;
  }

  lemma {:induction false} FirstFrameStable(a: seq<byte>, b: seq<byte>)
    requires FirstFrame(a).Some?
    ensures FirstFrame(a + b) == FirstFrame(a)
  {
    var ab := a + b;
    assert ab[4..8] == a[4..8] && ab[8..12] == a[8..12] && ab[12..16] == a[12..16];
    ReadLeStable(ab, a, 4, 4);
    ReadLeStable(ab, a, 8, 4);
    ReadLeStable(ab, a, 12, 4);
    var end := FirstFrame(a).value.1;
    assert ab[FRAME_HEADER_LEN..end] == a[FRAME_HEADER_LEN..end];
  }

  lemma {:induction false} Reassociate(a: seq<byte>, b: seq<byte>, c: seq<byte>)
    ensures (a + b) + c == a + (b + c)
  {
  }

  /** Whole frames written back to back are read back one by one. */
  lemma {:induction false} FramesRoundTrip(fs: seq<Frame>, rest: seq<byte>)
    requires forall f | f in fs :: Sendable(f)
    ensures DecodeFrames(EncodeFrames(fs) + rest) == fs + DecodeFrames(rest)
  {
    if fs == [] {
      assert EncodeFrames(fs) + rest == rest;
    } else {
      var tail := EncodeFrames(fs[1..]);
      FramesRoundTrip(fs[1..], rest);
      DecodeFirst(fs[0], tail + rest);
      EncodeFramesCons(fs, rest);
      FrameSeqAssoc(fs, DecodeFrames(rest));
    }
  }

  lemma {:induction false} EncodeFramesCons(fs: seq<Frame>, rest: seq<byte>)
    requires fs != []
    ensures EncodeFrames(fs) + rest == EncodeFrame(fs[0]) + (EncodeFrames(fs[1..]) + rest)
  {
    Reassociate(EncodeFrame(fs[0]), EncodeFrames(fs[1..]), rest);
  }

  lemma {:induction false} FrameSeqAssoc(fs: seq<Frame>, more: seq<Frame>)
    requires fs != []
    ensures [fs[0]] + (fs[1..] + more) == fs + more
  {
  }

  /** What has been read never changes as more bytes arrive. */
  lemma {:induction false} DecodedFramesGrow(a: seq<byte>, b: seq<byte>)
    ensures DecodeFrames(a) <= DecodeFrames(a + b)
    decreases |a|
  {
    if FirstFrame(a).Some? {
      FirstFrameStable(a, b);
      var n := FirstFrame(a).value.1;
      assert (a + b)[n..] == a[n..] + b;
      DecodedFramesGrow(a[n..], b);
    }
  }

  lemma {:induction false} EncodeFramesAppend(a: seq<Frame>, b: seq<Frame>)
    ensures EncodeFrames(a + b) == EncodeFrames(a) + EncodeFrames(b)
  {
    if a == [] {
      assert a + b == b;
    } else {
      assert (a + b)[0] == a[0] && (a + b)[1..] == a[1..] + b;
      EncodeFramesAppend(a[1..], b);
    }
  }

  // --- frames over the limit ---

  /** The length that the header of a frame announces. */
  function Announced(f: Frame): nat {
    |f.payload| % U32_LIMIT
  }

  /** The frames before the first one over the limit. */
  function UpToOversized(fs: seq<Frame>): seq<Frame> {
    if |fs| == 0 || !Sendable(fs[0]) then [] else [fs[0]] + UpToOversized(fs[1..])
  }

  /** The first frame over the limit, if there is one, announces a length over the limit: its own has not wrapped
      round to a small one. */
  predicate OversizedShows(fs: seq<Frame>) {
    |fs| > 0 ==> if Sendable(fs[0]) then OversizedShows(fs[1..]) else Announced(fs[0]) > MAX_FRAME_PAYLOAD
  }

  lemma {:induction false} FirstOfOversized(f: Frame, rest: seq<byte>)
    requires !Sendable(f)
    ensures var buf := EncodeFrame(f) + rest;
      if Announced(f) > MAX_FRAME_PAYLOAD then FirstFrame(buf).None?
      else FirstFrame(buf).Some? && |FirstFrame(buf).value.0.payload| < |f.payload|
  {
    var h := HeaderOf(f);
    HeaderRoundTrip(h, f.payload + rest);
    Reassociate(EncodeHeader(h), f.payload, rest);
    OversizedHead(EncodeHeader(h) + (f.payload + rest), h, f.payload);
  }

  lemma {:induction false} OversizedHead(buf: seq<byte>, h: Header, payload: seq<byte>)
    requires |buf| >= FRAME_HEADER_LEN + |payload| && DecodeHeader(buf) == Some(h) && |payload| > MAX_FRAME_PAYLOAD
    ensures if h.payloadLen > MAX_FRAME_PAYLOAD then FirstFrame(buf).None?
            else FirstFrame(buf).Some? && |FirstFrame(buf).value.0.payload| < |payload|
  {
  }

  /** A wire with a frame over the limit reads as the frames before the first such one. */
  lemma {:induction false} ReadUpToOversized(fs: seq<Frame>)
    requires OversizedShows(fs)
    ensures DecodeFrames(EncodeFrames(fs)) == UpToOversized(fs)
    decreases |fs|
  {
    if |fs| > 0 {
      if Sendable(fs[0]) {
        ReadUpToOversized(fs[1..]);
        DecodeFirst(fs[0], EncodeFrames(fs[1..]));
      } else {
        FirstOfOversized(fs[0], EncodeFrames(fs[1..]));
      }
    }
  }

  lemma {:induction false} UpToOversizedIsPrefix(fs: seq<Frame>)
    ensures UpToOversized(fs) <= fs
    decreases |fs|
  {
    if |fs| > 0 {
      UpToOversizedIsPrefix(fs[1..]);
      assert fs == [fs[0]] + fs[1..];
    }
  }

  lemma {:induction false} PrefixBehindFirst(fs: seq<Frame>, more: seq<Frame>)
    requires |fs| > 0
    ensures [fs[0]] + more <= fs ==> more <= fs[1..]
  {
    assert forall i | 0 <= i < |more| :: more[i] == ([fs[0]] + more)[i + 1];
  }

  lemma {:induction false} FirstHeard(buf: seq<byte>)
    ensures FirstFrame(buf).Some? ==> |DecodeFrames(buf)| > 0 && DecodeFrames(buf)[0] == FirstFrame(buf).value.0
  {
  }

  /** A length that has wrapped round makes the reader hear a frame that nobody wrote. */
  lemma {:induction false} WrappedIsMisheard(fs: seq<Frame>)
    requires !OversizedShows(fs)
    ensures !(DecodeFrames(EncodeFrames(fs)) <= fs)
    decreases |fs|
  {
    var tail := EncodeFrames(fs[1..]);
    if Sendable(fs[0]) {
      WrappedIsMisheard(fs[1..]);
      DecodeFirst(fs[0], tail);
      PrefixBehindFirst(fs, DecodeFrames(tail));
    } else {
      FirstOfOversized(fs[0], tail);
      FirstHeard(EncodeFrame(fs[0]) + tail);
    }
  }

  /** The reader hears only frames that were written exactly if no oversized length has wrapped round. */
  lemma {:induction false} WireIsReadExactly(fs: seq<Frame>)
    ensures DecodeFrames(EncodeFrames(fs)) <= fs <==> OversizedShows(fs)
  {
    if OversizedShows(fs) {
      ReadUpToOversized(fs);
      UpToOversizedIsPrefix(fs);
    } else {
      WrappedIsMisheard(fs);
    }
  }
}
