/** Framing of an application's response: content-length for a short one, chunked coding for the rest. */
module HttpResponse {
  import opened Bytes
  import opened PoolState

  /** A response that completes within this size goes out with its length. */
  const STREAM_THRESHOLD := 256 * 1024
  const CR: byte := 13
  const LF: byte := 10
  const COLON: byte := 58
  const CRLF: seq<byte> := [13, 10]
  const LAST_CHUNK: seq<byte> := [48, 13, 10, 13, 10]

  // --- numbers ---

  function HexDigit(d: nat): byte
    requires d < 16
  {
    if d < 10 then 48 + d else 87 + d
  }

  function Hex(n: nat): (s: seq<byte>)
    ensures |s| > 0
  {
    if n < 16 then [HexDigit(n)] else Hex(n / 16) + [HexDigit(n % 16)]
  }

  function HexValueOf(b: byte): Option<nat> {
    if 48 <= b <= 57 then Some(b - 48)
    else if 97 <= b <= 102 then Some(b - 87)
    else if 65 <= b <= 70 then Some(b - 55)
    else None
  }

  predicate AllHex(s: seq<byte>) {
    forall i | 0 <= i < |s| :: HexValueOf(s[i]).Some?
  }

  function HexValue(s: seq<byte>): nat
    requires AllHex(s)
    decreases |s|
  {
    if |s| == 0 then 0 else 16 * HexValue(s[..|s| - 1]) + HexValueOf(s[|s| - 1]).value
  }

  lemma {:induction false} HexReads(n: nat)
    ensures AllHex(Hex(n)) && HexValue(Hex(n)) == n
    ensures n > 0 ==> Hex(n)[0] != 48
  {
    if n < 16 {
      assert [HexDigit(n)][..0] == [];
    } else {
      HexReads(n / 16);
      var s := Hex(n);
      assert s[..|s| - 1] == Hex(n / 16);
    }
  }

  function DecimalDigits(n: nat): (s: seq<byte>)
    ensures |s| > 0
  {
    if n < 10 then [48 + n] else DecimalDigits(n / 10) + [48 + n % 10]
  }

  predicate AllDecimal(s: seq<byte>) {
    forall i | 0 <= i < |s| :: 48 <= s[i] <= 57
  }

  function DecimalValue(s: seq<byte>): nat
    requires AllDecimal(s)
    decreases |s|
  {
    if |s| == 0 then 0 else 10 * DecimalValue(s[..|s| - 1]) + (s[|s| - 1] - 48)
  }

  lemma {:induction false} DecimalReads(n: nat)
    ensures AllDecimal(DecimalDigits(n)) && DecimalValue(DecimalDigits(n)) == n
  {
    if n < 10 {
      assert [48 + n][..0] == [];
    } else {
      DecimalReads(n / 10);
      var s := DecimalDigits(n);
      assert s[..|s| - 1] == DecimalDigits(n / 10);
    }
  }

  // --- chunked coding ---

  /** `write_chunk`: nothing for empty data. */
  function ChunkBytes(data: seq<byte>): seq<byte> {
    if |data| == 0 then [] else Hex(|data|) + CRLF + data + CRLF
  }

  function ChunksBytes(chunks: seq<seq<byte>>): seq<byte>
    decreases |chunks|
  {
    if |chunks| == 0 then [] else ChunkBytes(chunks[0]) + ChunksBytes(chunks[1..])
  }

  /** Number of hexadecimal digits at the front. */
  function HexPrefix(s: seq<byte>): (n: nat)
    ensures n <= |s| && AllHex(s[..n])
    decreases |s|
  {
    if |s| == 0 || HexValueOf(s[0]).None? then 0
    else
      var n := HexPrefix(s[1..]);
      assert s[..n + 1] == [s[0]] + s[1..][..n];
      n + 1
  }

  predicate StartsWithCrlf(s: seq<byte>) { |s| >= 2 && s[0] == CR && s[1] == LF }

  /** The chunked-body grammar without extensions and trailers (section 7.1 of RFC 9112): the content and what
      follows the body. */
  function Dechunk(s: seq<byte>): Option<(seq<byte>, seq<byte>)>
    decreases |s|
  {
    var n := HexPrefix(s);
    if n == 0 || !StartsWithCrlf(s[n..]) then None
    else
      var size, rest := HexValue(s[..n]), s[n + 2..];
      if size == 0 then if StartsWithCrlf(rest) then Some(([], rest[2..])) else None
      else if |rest| < size + 2 || !StartsWithCrlf(rest[size..]) then None
      else
        match Dechunk(rest[size + 2..])
        case None => None
        case Some((more, after)) => Some((rest[..size] + more, after))
  }

  lemma {:induction false} HexPrefixOf(digits: seq<byte>, rest: seq<byte>)
    requires AllHex(digits) && |rest| > 0 && rest[0] == CR
    ensures HexPrefix(digits + rest) == |digits|
    decreases |digits|
  {
    var s := digits + rest;
    if |digits| > 0 {
      assert s[1..] == digits[1..] + rest;
      HexPrefixOf(digits[1..], rest);
    } else {
      assert s == rest;
    }
  }

  /** `data` and its line end in front of `rest`. */
  lemma {:induction false} DataSlices(tail: seq<byte>, data: seq<byte>, rest: seq<byte>)
    requires tail == data + CRLF + rest
    ensures |tail| >= |data| + 2 && tail[..|data|] == data && StartsWithCrlf(tail[|data|..]) && tail[|data| + 2..] == rest
  {
    assert tail[|data|..] == CRLF + rest;
  }

  function InFront(data: seq<byte>, d: Option<(seq<byte>, seq<byte>)>): Option<(seq<byte>, seq<byte>)> {
    match d case None => None case Some((more, after)) => Some((data + more, after))
  }

  lemma {:induction false} SizedChunk(s: seq<byte>, k: nat, data: seq<byte>, rest: seq<byte>)
    requires |data| > 0 && HexPrefix(s) == k > 0 && HexValue(s[..k]) == |data|
    requires StartsWithCrlf(s[k..]) && s[k + 2..] == data + CRLF + rest
    ensures Dechunk(s) == InFront(data, Dechunk(rest))
  {
    DataSlices(s[k + 2..], data, rest);
  }

  /** A size line in front of anything. */
  lemma {:induction false} SizeLine(digits: seq<byte>, tail: seq<byte>)
    requires AllHex(digits)
    ensures var s := digits + CRLF + tail; HexPrefix(s) == |digits| && s[..|digits|] == digits
    ensures var s := digits + CRLF + tail; StartsWithCrlf(s[|digits|..]) && s[|digits| + 2..] == tail
  {
    var s := digits + CRLF + tail;
    assert s == digits + (CRLF + tail);
    HexPrefixOf(digits, CRLF + tail);
    assert s[|digits|..] == CRLF + tail;
  }

  /** A chunk in front of anything is read off. */
  lemma {:induction false} DechunkOne(data: seq<byte>, rest: seq<byte>)
    requires |data| > 0
    ensures Dechunk(ChunkBytes(data) + rest) == InFront(data, Dechunk(rest))
  {
    HexReads(|data|);
    var tail := data + CRLF + rest;
    SizeLine(Hex(|data|), tail);
    assert ChunkBytes(data) + rest == Hex(|data|) + CRLF + tail;
    SizedChunk(Hex(|data|) + CRLF + tail, |Hex(|data|)|, data, rest);
  }

  lemma {:induction false} DechunkLast(rest: seq<byte>)
    ensures Dechunk(LAST_CHUNK + rest) == Some(([], rest))
  {
    var zero: seq<byte> := [48];
    assert zero[..0] == [] && HexValue(zero) == 0;
    SizeLine(zero, CRLF + rest);
    assert LAST_CHUNK + rest == zero + CRLF + (CRLF + rest);
    assert (CRLF + rest)[2..] == rest;
  }

  /** One more chunk in front, empty or not. */
  lemma {:induction false} DechunkCons(data: seq<byte>, content: seq<byte>, rest: seq<byte>, d: Option<(seq<byte>, seq<byte>)>)
    requires Dechunk(rest) == InFront(content, d)
    ensures Dechunk(ChunkBytes(data) + rest) == InFront(data + content, d)
  {
    if |data| > 0 {
      DechunkOne(data, rest);
      BothInFront(data, content, d);
    } else {
      assert ChunkBytes(data) + rest == rest;
      assert data + content == content;
    }
  }

  lemma {:induction false} ChunksCons(chunks: seq<seq<byte>>, tail: seq<byte>)
    requires |chunks| > 0
    ensures ChunksBytes(chunks) + tail == ChunkBytes(chunks[0]) + (ChunksBytes(chunks[1..]) + tail)
    ensures Concat(chunks) == chunks[0] + Concat(chunks[1..])
  {
  }

  lemma {:induction false} NoChunks(tail: seq<byte>)
    ensures ChunksBytes([]) + tail == tail && InFront(Concat([]), Dechunk(tail)) == Dechunk(tail)
  {
    NothingInFront(Dechunk(tail));
  }

  /** Chunks in front of anything are read off one by one, the empty ones left out. */
  lemma {:induction false} DechunkAll(chunks: seq<seq<byte>>, tail: seq<byte>)
    ensures Dechunk(ChunksBytes(chunks) + tail) == InFront(Concat(chunks), Dechunk(tail))
    decreases |chunks|
  {
    if chunks == [] {
      NoChunks(tail);
    } else {
      DechunkAll(chunks[1..], tail);
      ChunksCons(chunks, tail);
      DechunkCons(chunks[0], Concat(chunks[1..]), ChunksBytes(chunks[1..]) + tail, Dechunk(tail));
    }
  }

  lemma {:induction false} NothingInFront(d: Option<(seq<byte>, seq<byte>)>)
    ensures InFront([], d) == d
  {
    if d.Some? {
      assert [] + d.value.0 == d.value.0;
    }
  }

  lemma {:induction false} BothInFront(a: seq<byte>, b: seq<byte>, d: Option<(seq<byte>, seq<byte>)>)
    ensures InFront(a, InFront(b, d)) == InFront(a + b, d)
  {
    if d.Some? {
      assert a + (b + d.value.0) == a + b + d.value.0;
    }
  }

  /** What is written chunk by chunk and closed is read back as the data, however it was divided. */
  lemma {:induction false} ChunkedReadsBack(chunks: seq<seq<byte>>)
    ensures Dechunk(ChunksBytes(chunks) + LAST_CHUNK) == Some((Concat(chunks), []))
  {
    DechunkAll(chunks, LAST_CHUNK);
    DechunkLast([]);
    assert LAST_CHUNK + [] == LAST_CHUNK && Concat(chunks) + [] == Concat(chunks);
  }

  /** Without the last chunk it is not a body. */
  lemma {:induction false} UnclosedIsNoBody(chunks: seq<seq<byte>>)
    ensures Dechunk(ChunksBytes(chunks)).None?
  {
    DechunkAll(chunks, []);
    assert ChunksBytes(chunks) + [] == ChunksBytes(chunks);
  }

  lemma {:induction false} ChunksMore(chunks: seq<seq<byte>>, data: seq<byte>)
    ensures ChunksBytes(chunks + [data]) == ChunksBytes(chunks) + ChunkBytes(data)
    ensures Concat(chunks + [data]) == Concat(chunks) + data
    decreases |chunks|
  {
    ConcatAppend(chunks, [data]);
    assert [data][1..] == [] && Concat([data]) == data;
    if |chunks| == 0 {
      assert chunks + [data] == [data];
    } else {
      assert (chunks + [data])[1..] == chunks[1..] + [data];
      ChunksMore(chunks[1..], data);
    }
  }

  // --- what the worker sends ---

  /** One result of waiting for the worker: an event, the budget elapsed, or its channel closed. */
  datatype Arrival = Ev(event: Event) | Silence | HungUp

  predicate IsEnd(a: Arrival) {
    match a
    case Ev(e) => e.EvEnd? || e.EvFailed?
    case _ => true
  }

  /** The first arrival that ends the response: an end, a failure, silence or a closed channel; past the last one the
      channel is closed. */
  function EndIndex(arrivals: seq<Arrival>): (t: nat)
    ensures t <= |arrivals| && (t < |arrivals| ==> IsEnd(arrivals[t]))
    ensures t < |arrivals| && arrivals[t].Ev? ==> arrivals[t].event.EvEnd? || arrivals[t].event.EvFailed?
    ensures forall i | 0 <= i < t :: !IsEnd(arrivals[i])
    ensures forall i | 0 <= i < t :: arrivals[i].Ev? && !arrivals[i].event.EvEnd? && !arrivals[i].event.EvFailed?
    decreases |arrivals|
  {
    if |arrivals| == 0 || IsEnd(arrivals[0]) then 0 else 1 + EndIndex(arrivals[1..])
  }

  function EndOf(arrivals: seq<Arrival>): Arrival {
    var t := EndIndex(arrivals);
    if t < |arrivals| then arrivals[t] else HungUp
  }

  /** The bytes of the body chunks. */
  function Payload(arrivals: seq<Arrival>): seq<byte>
    decreases |arrivals|
  {
    if |arrivals| == 0 then [] else Grown(Payload(arrivals[..|arrivals| - 1]), arrivals[|arrivals| - 1])
  }

  function Grown(payload: seq<byte>, a: Arrival): seq<byte> {
    if a.Ev? && a.event.EvChunk? then payload + a.event.data else payload
  }

  predicate HasFlush(arrivals: seq<Arrival>) {
    exists i :: 0 <= i < |arrivals| && arrivals[i] == Ev(EvFlush)
  }

  /** The events up to the end of the response. */
  function Body(arrivals: seq<Arrival>): seq<Arrival> { arrivals[..EndIndex(arrivals)] }

  /** Whether the length can no longer be announced. */
  predicate Streams(before: seq<Arrival>) {
    HasFlush(before) || |Payload(before)| > 256 * 1024
  }

  /** What goes out after the head. `reusable` is false where the connection must close. */
  datatype Sent =
    | Timeout
    | WithLength(length: seq<byte>, body: seq<byte>, reusable: bool)
    | Chunked(body: seq<byte>, reusable: bool)

  /** What the framing carries: the content if the message is whole. */
  function Content(s: Sent): Option<seq<byte>> {
    match s
    case Timeout => None
    case WithLength(length, body, _) =>
      if AllDecimal(length) && DecimalValue(length) == |body| then Some(body) else None
    case Chunked(body, _) =>
      match Dechunk(body)
      case Some((content, rest)) => if |rest| == 0 then Some(content) else None
      case None => None
  }

  datatype Asked = Head | Connect | Other

  /** Where section 6.3 of RFC 9112 has a client read no body, whatever the head announces. */
  predicate Bodyless(asked: Asked, status: nat) {
    asked.Head? || 100 <= status < 200 || status == 204 || status == 304 || (asked.Connect? && 200 <= status < 300)
  }

  /** What the client makes of the answer. */
  function Received(s: Sent, bodyless: bool): Option<seq<byte>> {
    if bodyless && !s.Timeout? then Some([]) else Content(s)
  }

  /** What a client that reads no body finds where it expects the next response. */
  function LeftOver(s: Sent, bodyless: bool): seq<byte> {
    if bodyless && !s.Timeout? then s.body else []
  }

  /** How a response must come out. A short failure goes out with the length of what there is and closes the
      connection; a long one lacks its last chunk. Silence on a flushed stream closes it in good order. */
  predicate Right(arrivals: seq<Arrival>, s: Sent) {
    var before, end, payload := Body(arrivals), EndOf(arrivals), Payload(Body(arrivals));
    if Streams(before) then
      s.Chunked? && if end == Ev(EvEnd) || (end.Silence? && HasFlush(before))
                    then Content(s) == Some(payload) && s.reusable
                    else Content(s).None? && !s.reusable
    else if end.Ev? then s.WithLength? && Content(s) == Some(payload) && (s.reusable <==> end.event.EvEnd?)
    else s.Timeout?
  }

  /** The framing asks neither for the method nor for the status, so a response that ended is recovered whole exactly
      if it may have a body or is empty, and the connection stays in step exactly if it may have a body or goes out
      empty with a length: the end of an empty chunked body is five bytes that nobody reads. */
  lemma {:induction false} RecoveredExactly(arrivals: seq<Arrival>, s: Sent, bodyless: bool)
    requires Right(arrivals, s) && EndOf(arrivals) == Ev(EvEnd)
    ensures Received(s, bodyless) == Some(Payload(Body(arrivals))) <==> !bodyless || Payload(Body(arrivals)) == []
    ensures LeftOver(s, bodyless) == [] <==>
      !bodyless || (Payload(Body(arrivals)) == [] && !Streams(Body(arrivals)))
  {
    UnclosedIsNoBody([]);
  }

  /** An answer to HEAD with a body: the client has no body, and the bytes come where the next answer should. */
  lemma {:induction false} HeadFallsOutOfStep(data: seq<byte>, status: nat, s: Sent)
    requires 0 < |data| <= STREAM_THRESHOLD && Right([Ev(EvChunk(data)), Ev(EvEnd)], s)
    ensures s.reusable && Received(s, Bodyless(Head, status)) == Some([]) && LeftOver(s, Bodyless(Head, status)) == data
  {
    var arrivals := [Ev(EvChunk(data)), Ev(EvEnd)];
    NotYet(arrivals, 1);
    assert EndIndex(arrivals) == 1;
    var before := Body(arrivals);
    assert before == [Ev(EvChunk(data))] && before[..0] == [];
    assert Payload(before) == Grown(Payload([]), Ev(EvChunk(data)));
    assert !HasFlush(before);
  }

  lemma {:induction false} PayloadMore(arrivals: seq<Arrival>, i: nat)
    requires i < |arrivals|
    ensures Payload(arrivals[..i + 1]) == Grown(Payload(arrivals[..i]), arrivals[i])
    ensures HasFlush(arrivals[..i + 1]) <==> HasFlush(arrivals[..i]) || arrivals[i] == Ev(EvFlush)
  {
    var s, t := arrivals[..i + 1], arrivals[..i];
    assert s[..i] == t;
    if HasFlush(t) {
      var j :| 0 <= j < |t| && t[j] == Ev(EvFlush);
      assert s[j] == Ev(EvFlush);
    }
    if arrivals[i] == Ev(EvFlush) {
      assert s[i] == Ev(EvFlush);
    }
  }

  /** No event of the first i ends the response, so a response that streams by then streams. */
  lemma {:induction false} StreamsLater(arrivals: seq<Arrival>, i: nat, t: nat)
    requires i <= t <= |arrivals| && Streams(arrivals[..i])
    ensures Streams(arrivals[..t])
    decreases t - i
  {
    if i < t {
      PayloadMore(arrivals, i);
      StreamsLater(arrivals, i + 1, t);
    }
  }

  lemma {:induction false} NotYet(arrivals: seq<Arrival>, i: nat)
    requires i <= |arrivals| && forall j | 0 <= j < i :: !IsEnd(arrivals[j])
    ensures i <= EndIndex(arrivals)
    ensures i < |arrivals| && IsEnd(arrivals[i]) ==> EndIndex(arrivals) == i
  {
  }

  // --- the framing half of the dispatch ---

  /** The buffering phase: events up to the first flush, the threshold or the end. */
  method Buffer(arrivals: seq<Arrival>) returns (i: nat, buffered: seq<byte>, end: Option<Arrival>)
    ensures i <= EndIndex(arrivals) && buffered == Payload(arrivals[..i])
    ensures end.None? ==> Streams(arrivals[..i])
    ensures end.Some? ==> i == EndIndex(arrivals) && end.value == EndOf(arrivals) && !Streams(arrivals[..i])
  {
    i, buffered, end := 0, [], None;
    var flushRequested := false;
    while !flushRequested && |buffered| <= STREAM_THRESHOLD
      invariant i <= |arrivals| && forall j | 0 <= j < i :: !IsEnd(arrivals[j])
      invariant buffered == Payload(arrivals[..i]) && flushRequested == HasFlush(arrivals[..i])
      decreases |arrivals| - i
    {
      NotYet(arrivals, i);
      var a := if i < |arrivals| then arrivals[i] else HungUp;
      if IsEnd(a) {
        return i, buffered, Some(a);
      }
      PayloadMore(arrivals, i);
      match a.event {
        case EvChunk(data) => buffered := buffered + data;
        case EvFlush => flushRequested := true;
        case _ =>
      }
      i := i + 1;
    }
    NotYet(arrivals, i);
  }

  /** How the streaming phase closes after the given chunks. */
  function Close(wire: seq<byte>, end: Arrival, flushed: bool): Sent {
    if end == Ev(EvEnd) || (end.Silence? && flushed) then Chunked(wire + LAST_CHUNK, true) else Chunked(wire, false)
  }

  lemma {:induction false} ClosesRight(arrivals: seq<Arrival>, chunks: seq<seq<byte>>)
    requires Streams(Body(arrivals)) && Concat(chunks) == Payload(Body(arrivals))
    ensures Right(arrivals, Close(ChunksBytes(chunks), EndOf(arrivals), HasFlush(Body(arrivals))))
  {
    ChunkedReadsBack(chunks);
    UnclosedIsNoBody(chunks);
  }

  ghost predicate Written(wire: seq<byte>, chunks: seq<seq<byte>>, payload: seq<byte>) {
    wire == ChunksBytes(chunks) && Concat(chunks) == payload
  }

  lemma {:induction false} WriteMore(wire: seq<byte>, chunks: seq<seq<byte>>, payload: seq<byte>, data: seq<byte>)
    requires Written(wire, chunks, payload)
    ensures Written(wire + ChunkBytes(data), chunks + [data], payload + data)
  {
    ChunksMore(chunks, data);
  }

  lemma {:induction false} OneWritten(data: seq<byte>)
    ensures Written(ChunkBytes(data), [data], data)
  {
    ChunksMore([], data);
    assert [] + [data] == [data];
  }

  method Forward(e: Event, wire: seq<byte>, ghost chunks: seq<seq<byte>>, ghost payload: seq<byte>)
      returns (more: seq<byte>, ghost grown: seq<seq<byte>>)
    requires Written(wire, chunks, payload)
    ensures Written(more, grown, Grown(payload, Ev(e)))
  {
    more, grown := wire, chunks;
    if e.EvChunk? {
      WriteMore(wire, chunks, payload, e.data);
      more, grown := wire + ChunkBytes(e.data), chunks + [e.data];
    }
  }

  /** The loop of the streaming phase: each chunk as it comes. */
  method PumpChunks(arrivals: seq<Arrival>, first: nat, buffered: seq<byte>)
      returns (wire: seq<byte>, streaming: bool, i: nat, ghost chunks: seq<seq<byte>>)
    requires first <= EndIndex(arrivals) && buffered == Payload(arrivals[..first])
    ensures i == EndIndex(arrivals) && streaming == HasFlush(arrivals[..i])
    ensures Written(wire, chunks, Payload(arrivals[..i]))
  {
    wire, streaming, i, chunks := ChunkBytes(buffered), HasFlush(arrivals[..first]), first, [buffered];
    OneWritten(buffered);
    while i < |arrivals| && !IsEnd(arrivals[i])
      invariant first <= i <= |arrivals| && forall j | 0 <= j < i :: !IsEnd(arrivals[j])
      invariant streaming == HasFlush(arrivals[..i])
      invariant Written(wire, chunks, Payload(arrivals[..i]))
    {
      PayloadMore(arrivals, i);
      wire, chunks := Forward(arrivals[i].event, wire, chunks, Payload(arrivals[..i]));
      if arrivals[i].event.EvFlush? {
        streaming := true;
      }
      i := i + 1;
    }
    NotYet(arrivals, i);
  }

  /** The streaming phase and its end. */
  method Stream(arrivals: seq<Arrival>, first: nat, buffered: seq<byte>) returns (s: Sent)
    requires first <= EndIndex(arrivals) && buffered == Payload(arrivals[..first]) && Streams(arrivals[..first])
    ensures Right(arrivals, s)
  {
    ghost var chunks;
    var wire, streaming, i;
    wire, streaming, i, chunks := PumpChunks(arrivals, first, buffered);
    StreamsLater(arrivals, first, i);
    ClosesRight(arrivals, chunks);
    var end := if i < |arrivals| then arrivals[i] else HungUp;
    if end == Ev(EvEnd) || (end.Silence? && streaming) {
      s := Chunked(wire + LAST_CHUNK, true);
    } else {
      s := Chunked(wire, false);
    }
    assert s == Close(wire, end, streaming);
  }

  /** The framing half of `dispatch_to_app`, after the worker's headers. Whichever framing is chosen, it carries
      exactly the payload of a response that ended; one cut short closes the connection, and if it was not streamed
      only that tells the client. */
  method Respond(arrivals: seq<Arrival>) returns (s: Sent)
    ensures Right(arrivals, s)
    ensures EndOf(arrivals) == Ev(EvEnd) ==> forall bodyless ::
      Received(s, bodyless) == Some(Payload(Body(arrivals))) <==> !bodyless || Payload(Body(arrivals)) == []
  {
    s := Frame(arrivals);
    forall bodyless | EndOf(arrivals) == Ev(EvEnd)
      ensures Received(s, bodyless) == Some(Payload(Body(arrivals))) <==> !bodyless || Payload(Body(arrivals)) == []
    {
      RecoveredExactly(arrivals, s, bodyless);
    }
  }

  method Frame(arrivals: seq<Arrival>) returns (s: Sent)
    ensures Right(arrivals, s)
  {
    var i, buffered, end := Buffer(arrivals);
    if end.Some? {
      if !end.value.Ev? {
        return Timeout;
      }
      DecimalReads(|buffered|);
      return WithLength(DecimalDigits(|buffered|), buffered, end.value.event.EvEnd?);
    }
    s := Stream(arrivals, i, buffered);
  }

  // --- the head ---

  function Lower(b: byte): byte { if 65 <= b <= 90 then b + 32 else b }

  function Lowered(s: seq<byte>): seq<byte> {
    seq(|s|, i requires 0 <= i < |s| => Lower(s[i]))
  }

  /** What stands before the colon. */
  function NameOf(line: seq<byte>): seq<byte>
    decreases |line|
  {
    if |line| == 0 || line[0] == COLON then [] else [line[0]] + NameOf(line[1..])
  }

  const CONTENT_LENGTH: seq<byte> := [99, 111, 110, 116, 101, 110, 116, 45, 108, 101, 110, 103, 116, 104]
  const TRANSFER_ENCODING: seq<byte> :=
    [116, 114, 97, 110, 115, 102, 101, 114, 45, 101, 110, 99, 111, 100, 105, 110, 103]
  const CONNECTION: seq<byte> := [99, 111, 110, 110, 101, 99, 116, 105, 111, 110]

  /** Headers that the router alone sets. */
  predicate FramingName(name: seq<byte>) {
    var n := Lowered(name);
    n == CONTENT_LENGTH || n == TRANSFER_ENCODING || n == CONNECTION
  }

  predicate HasControl(line: seq<byte>) {
    exists i :: 0 <= i < |line| && (line[i] < 0x20 || line[i] == 0x7F)
  }

  /** A `response_headers` operation of the configuration: no value removes. */
  datatype Op = Op(name: seq<byte>, value: Option<seq<byte>>)

  predicate Removed(ops: seq<Op>, name: seq<byte>) {
    exists i :: 0 <= i < |ops| && Lowered(ops[i].name) == Lowered(name)
  }

  predicate Forwarded(ops: seq<Op>, line: seq<byte>) {
    |line| > 0 && !FramingName(NameOf(line)) && !HasControl(line) && !Removed(ops, NameOf(line))
  }

  function OpLines(ops: seq<Op>): seq<seq<byte>>
    decreases |ops|
  {
    if |ops| == 0 then []
    else
      var last := ops[|ops| - 1];
      OpLines(ops[..|ops| - 1]) + if last.value.Some? then [last.name + [COLON, 32] + last.value.value] else []
  }

  // --- the same, byte by byte ---

  /** The byte is the letter, in either case. */
  predicate SameLetter(b: byte, c: char) {
    b as int == c as int || (65 <= b <= 90 && b + 32 == c as int)
  }

  /** The name is the lower-case word, whatever the case of its own letters. */
  predicate IsWord(name: seq<byte>, word: string) {
    |name| == |word| && forall i | 0 <= i < |word| :: SameLetter(name[i], word[i])
  }

  predicate SameName(a: seq<byte>, b: seq<byte>) {
    |a| == |b| && forall i | 0 <= i < |a| ::
      a[i] == b[i] || (65 <= a[i] <= 90 && b[i] == a[i] + 32) || (65 <= b[i] <= 90 && a[i] == b[i] + 32)
  }

  /** The name of a line is what stands before its first colon, or all of it. */
  predicate IsName(name: seq<byte>, line: seq<byte>) {
    name <= line && 58 !in name && (|name| < |line| ==> line[|name|] == 58)
  }

  /** A worker's line that goes through: not empty, not about framing, without a control byte, and not named by the
      configuration. */
  ghost predicate GoesThrough(ops: seq<Op>, line: seq<byte>) {
    exists name :: IsName(name, line) && Passes(ops, line, name)
  }

  predicate Passes(ops: seq<Op>, line: seq<byte>, name: seq<byte>) {
    && line != []
    && !IsWord(name, "content-length") && !IsWord(name, "transfer-encoding") && !IsWord(name, "connection")
    && (forall i | 0 <= i < |line| :: line[i] >= 32 && line[i] != 127)
    && (forall i | 0 <= i < |ops| :: !SameName(ops[i].name, name))
  }

  lemma {:induction false} NameIsName(line: seq<byte>)
    ensures IsName(NameOf(line), line) && forall name :: IsName(name, line) ==> name == NameOf(line)
    decreases |line|
  {
    if |line| > 0 && line[0] != COLON {
      NameIsName(line[1..]);
      assert line == [line[0]] + line[1..];
      forall name | IsName(name, line)
        ensures name == NameOf(line)
      {
        assert |name| > 0 && name[0] == line[0];
        assert name == [name[0]] + name[1..] && IsName(name[1..], line[1..]);
      }
    }
  }

  lemma {:induction false} LoweredIsWord(name: seq<byte>, word: string, bytes: seq<byte>)
    requires |bytes| == |word| && forall i | 0 <= i < |word| :: bytes[i] == word[i] as int && !(65 <= bytes[i] <= 90)
    ensures Lowered(name) == bytes <==> IsWord(name, word)
  {
    if IsWord(name, word) {
      assert forall i | 0 <= i < |word| :: SameLetter(name[i], word[i]) && Lowered(name)[i] == bytes[i];
    }
    if Lowered(name) == bytes {
      assert forall i | 0 <= i < |word| :: Lowered(name)[i] == bytes[i];
    }
  }

  lemma {:induction false} LoweredIsSame(a: seq<byte>, b: seq<byte>)
    ensures Lowered(a) == Lowered(b) <==> SameName(a, b)
  {
    if Lowered(a) == Lowered(b) {
      assert |a| == |Lowered(a)| == |Lowered(b)| == |b|;
      forall i | 0 <= i < |a|
        ensures a[i] == b[i] || (65 <= a[i] <= 90 && b[i] == a[i] + 32) || (65 <= b[i] <= 90 && a[i] == b[i] + 32)
      {
        assert Lowered(a)[i] == Lower(a[i]) && Lowered(b)[i] == Lower(b[i]);
      }
    }
  }

  lemma {:induction false} ForwardedMeans(ops: seq<Op>, line: seq<byte>)
    ensures Forwarded(ops, line) <==> GoesThrough(ops, line)
  {
    var name := NameOf(line);
    NameIsName(line);
    LoweredIsWord(name, "content-length", CONTENT_LENGTH);
    LoweredIsWord(name, "transfer-encoding", TRANSFER_ENCODING);
    LoweredIsWord(name, "connection", CONNECTION);
    forall i | 0 <= i < |ops|
      ensures Lowered(ops[i].name) == Lowered(name) <==> SameName(ops[i].name, name)
    {
      LoweredIsSame(ops[i].name, name);
    }
  }

  /** One line, `name: value`, for each operation at the places `at`, which are all that have a value, in their order. */
  ghost predicate SetAt(lines: seq<seq<byte>>, ops: seq<Op>, at: seq<nat>) {
    && |at| == |lines| && (forall j, k | 0 <= j < k < |at| :: at[j] < at[k])
    && (forall k | 0 <= k < |at| :: at[k] < |ops| && ops[at[k]].value.Some?
                                    && lines[k] == ops[at[k]].name + [58, 32] + ops[at[k]].value.value)
    && (forall i: nat | i < |ops| :: ops[i].value.Some? <==> i in at)
  }

  lemma {:induction false} OpSets(lines: seq<seq<byte>>, ops: seq<Op>, at: seq<nat>, op: Op)
    requires SetAt(lines, ops, at) && op.value.Some?
    ensures SetAt(lines + [op.name + [58, 32] + op.value.value], ops + [op], at + [|ops|])
  {
    var more, places := ops + [op], at + [|ops|];
    assert places[|at|] == |ops|;
    forall i: nat | i < |more|
      ensures more[i].value.Some? <==> i in places
    {
      if i < |ops| {
        assert more[i] == ops[i];
        assert i in at <==> i in places;
      }
    }
  }

  lemma {:induction false} OpRemoves(lines: seq<seq<byte>>, ops: seq<Op>, at: seq<nat>, op: Op)
    requires SetAt(lines, ops, at) && op.value.None?
    ensures SetAt(lines, ops + [op], at)
  {
    assert forall i: nat | i < |ops| :: (ops + [op])[i] == ops[i];
  }

  lemma {:induction false} OpLinesMore(ops: seq<Op>, op: Op)
    ensures op.value.Some? ==> OpLines(ops + [op]) == OpLines(ops) + [op.name + [58, 32] + op.value.value]
    ensures op.value.None? ==> OpLines(ops + [op]) == OpLines(ops)
  {
    assert (ops + [op])[..|ops|] == ops;
  }

  lemma {:induction false} OpLinesAreSet(ops: seq<Op>) returns (at: seq<nat>)
    ensures SetAt(OpLines(ops), ops, at)
    decreases |ops|
  {
    at := [];
    if |ops| > 0 {
      var short, op := ops[..|ops| - 1], ops[|ops| - 1];
      at := OpLinesAreSet(short);
      assert ops == short + [op];
      OpLinesMore(short, op);
      if op.value.Some? {
        OpSets(OpLines(short), short, at, op);
        at := at + [|short|];
      } else {
        OpRemoves(OpLines(short), short, at, op);
      }
    }
  }

  /** The worker's lines that go through, then the configuration's. */
  method HeadLines(worker: seq<seq<byte>>, ops: seq<Op>) returns (lines: seq<seq<byte>>)
    ensures exists kept, set_ :: lines == kept + set_ && KeptFrom(kept, worker, ops) && exists at :: SetAt(set_, ops, at)
  {
    lines := [];
    for i := 0 to |worker|
      invariant lines == Kept(worker[..i], ops)
    {
      assert worker[..i + 1][..i] == worker[..i];
      var line := worker[i];
      if |line| > 0 && !FramingName(NameOf(line)) {
        if !HasControl(line) && !Removed(ops, NameOf(line)) {
          lines := lines + [line];
        }
      }
    }
    assert worker[..|worker|] == worker;
    ghost var kept := lines;
    ghost var at := KeptIsKeptFrom(worker, ops);
    ghost var places := OpLinesAreSet(ops);
    for i := 0 to |ops|
      invariant lines == kept + OpLines(ops[..i])
    {
      assert ops[..i + 1][..i] == ops[..i];
      if ops[i].value.Some? {
        lines := lines + [ops[i].name + [COLON, 32] + ops[i].value.value];
      }
    }
    assert ops[..|ops|] == ops;
  }

  function Kept(worker: seq<seq<byte>>, ops: seq<Op>): seq<seq<byte>>
    decreases |worker|
  {
    if |worker| == 0 then []
    else
      var last := worker[|worker| - 1];
      Kept(worker[..|worker| - 1], ops) + if Forwarded(ops, last) then [last] else []
  }

  /** The lines at the places `at`, in their order: those and no others go through. */
  ghost predicate KeptAt(kept: seq<seq<byte>>, worker: seq<seq<byte>>, ops: seq<Op>, at: seq<nat>) {
    && |at| == |kept| && (forall k | 0 <= k < |at| :: at[k] < |worker| && kept[k] == worker[at[k]])
    && (forall j, k | 0 <= j < k < |at| :: at[j] < at[k])
    && (forall i: nat | i < |worker| :: GoesThrough(ops, worker[i]) <==> i in at)
  }

  ghost predicate KeptFrom(kept: seq<seq<byte>>, worker: seq<seq<byte>>, ops: seq<Op>) {
    exists at :: KeptAt(kept, worker, ops, at)
  }

  lemma {:induction false} LineKept(kept: seq<seq<byte>>, worker: seq<seq<byte>>, ops: seq<Op>, at: seq<nat>, line: seq<byte>)
    requires KeptAt(kept, worker, ops, at) && GoesThrough(ops, line)
    ensures KeptAt(kept + [line], worker + [line], ops, at + [|worker|])
  {
    var more, places := worker + [line], at + [|worker|];
    assert places[|at|] == |worker|;
    forall i: nat | i < |more|
      ensures GoesThrough(ops, more[i]) <==> i in places
    {
      if i < |worker| {
        assert more[i] == worker[i];
        assert i in at <==> i in places;
      }
    }
  }

  lemma {:induction false} LineDropped(kept: seq<seq<byte>>, worker: seq<seq<byte>>, ops: seq<Op>, at: seq<nat>, line: seq<byte>)
    requires KeptAt(kept, worker, ops, at) && !GoesThrough(ops, line)
    ensures KeptAt(kept, worker + [line], ops, at)
  {
    var more := worker + [line];
    forall i: nat | i < |more|
      ensures GoesThrough(ops, more[i]) <==> i in at
    {
      if i < |worker| {
        assert more[i] == worker[i];
      }
    }
  }

  lemma {:induction false} KeptIsKeptFrom(worker: seq<seq<byte>>, ops: seq<Op>) returns (at: seq<nat>)
    ensures KeptAt(Kept(worker, ops), worker, ops, at)
    decreases |worker|
  {
    at := [];
    if |worker| > 0 {
      var short, line := worker[..|worker| - 1], worker[|worker| - 1];
      var before := KeptIsKeptFrom(short, ops);
      assert worker == short + [line];
      ForwardedMeans(ops, line);
      if Forwarded(ops, line) {
        LineKept(Kept(short, ops), short, ops, before, line);
        at := before + [|short|];
      } else {
        LineDropped(Kept(short, ops), short, ops, before, line);
        at := before;
        assert Kept(worker, ops) == Kept(short, ops);
      }
    }
  }
}
