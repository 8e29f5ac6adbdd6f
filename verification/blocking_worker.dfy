/** The blocking worker: the calls a handler makes and the frames they put on the wire. */
module BlockingWorker {
  import opened Bytes
  import opened Frame
  import opened PoolSweep
  import Request

  /** Output buffered up to this size is drained early. */
  const DRAIN_AT := 256 * 1024
  const PONG_IDLE: u32 := 0
  const PONG_BUSY: u32 := 1

  /** The head of a control frame as read from the stream; `None` does not decode. */
  type Head = Option<Header>

  /** One worker: frames written, frames buffered, control frames unread, and the state of the current request.
      `closed`: the router has closed the stream, after what is in `inbox`. */
  datatype Side = Side(sent: seq<Frame>, queued: seq<Frame>, inbox: seq<Head>, closed: bool,
                       id: u32, headersSent: bool, endSent: bool, doneSent: bool, aborted: bool)

  /** What a handler does, and what reaches the worker in between. */
  datatype Call =
    | SendHeaders(status: u16, headers: seq<byte>) | SendBody(chunk: seq<byte>) | SendFlush
    | DoFinish | FinishNow | SendError(message: seq<byte>)
    | Arrive(heads: seq<Head>, hangUp: bool)

  function PongFrame(id: u32, status: u32): Frame { Frame(FrameKind.Pong, 0, id, status, []) }

  // --- the steps ---

  function Push(s: Side, f: Frame): Side { s.(queued := s.queued + [f]) }

  function Drain(s: Side): Side { s.(sent := s.sent + s.queued, queued := []) }

  predicate AbortsUs(h: Head, id: u32) {
    h.Some? && h.value.kind.Abort? && h.value.requestId == id
  }

  function Answer(h: Head, status: u32): seq<Frame> {
    if h.Some? && h.value.kind.Ping? then [PongFrame(h.value.requestId, status)] else []
  }

  /** `poll_control`: reads until an Abort for this request, the end of what has arrived, or the end of the stream. */
  function Poll(s: Side): Side
    decreases |s.inbox|
  {
    if s.aborted then s
    else if s.inbox == [] then s.(aborted := s.closed)
    else
      var h, rest := s.inbox[0], s.inbox[1..];
      if AbortsUs(h, s.id) then s.(inbox := rest, aborted := true)
      else Poll(s.(inbox := rest, sent := s.sent + Answer(h, PONG_BUSY)))
  }

  function BodyFrame(id: u32, chunk: seq<byte>): Frame { Frame(ResponseBody, 0, id, 0, chunk) }

  function EarlyDrain(s: Side): Side {
    if |EncodeFrames(s.queued)| >= DRAIN_AT then Drain(s) else s
  }

  function EndStep(s: Side): Side {
    if s.endSent then s else Push(s, Bare(End, s.id)).(endSent := true)
  }

  function FinishStep(s: Side): Side {
    if s.doneSent then s else Push(EndStep(s), Bare(Done, s.id)).(doneSent := true)
  }

  function ErrorStep(s: Side, message: seq<byte>): Side {
    Push(s, Frame(FrameKind.Error, 0, s.id, 0, message)).(endSent := true, doneSent := true)
  }

  /** The `ClientGone` of `send_body` and `flush`. */
  predicate Refused(s: Side) { Poll(s).aborted }

  function Step(s: Side, c: Call): Side {
    match c
    case SendHeaders(status, headers) =>
      Push(s, Frame(ResponseHeaders, 0, s.id, status, headers)).(headersSent := true)
    case SendBody(chunk) => if Refused(s) then Poll(s) else EarlyDrain(Push(Poll(s), BodyFrame(s.id, chunk)))
    case SendFlush => if Refused(s) then Poll(s) else Drain(Push(Poll(s), Bare(Flush, s.id)))
    case DoFinish => FinishStep(s)
    case FinishNow => Drain(EndStep(s))
    case SendError(message) => ErrorStep(s, message)
    case Arrive(heads, hangUp) => if s.closed then s else s.(inbox := s.inbox + heads, closed := hangUp)
  }

  function RunCalls(s: Side, calls: seq<Call>): Side {
    if calls == [] then s else Step(RunCalls(s, calls[..|calls| - 1]), calls[|calls| - 1])
  }

  /** The calls the Responder's assertions allow, with nothing after the terminal frame. */
  predicate Legal(s: Side, c: Call) {
    match c
    case SendHeaders(_, _) => !s.headersSent && !s.doneSent
    case SendBody(_) => s.headersSent && !s.endSent
    case SendFlush => s.headersSent && !s.endSent
    case SendError(_) => !s.doneSent
    case _ => true
  }

  ghost predicate LegalCalls(s: Side, calls: seq<Call>) {
    forall i | 0 <= i < |calls| :: Legal(RunCalls(s, calls[..i]), calls[i])
  }

  // --- what is said, whenever it is written ---

  /** Without the answers to liveness probes. */
  function Plain(fs: seq<Frame>): seq<Frame> {
    if fs == [] then []
    else
      var last := fs[|fs| - 1];
      Plain(fs[..|fs| - 1]) + if last.kind.Pong? then [] else [last]
  }

  /** Everything written or buffered, in order, probes aside. */
  function Said(s: Side): seq<Frame> { Plain(s.sent) + s.queued }

  ghost predicate NoPongs(fs: seq<Frame>) {
    forall i | 0 <= i < |fs| :: !fs[i].kind.Pong?
  }

  lemma {:induction false} PlainAppend(a: seq<Frame>, b: seq<Frame>)
    ensures Plain(a + b) == Plain(a) + Plain(b)
  {
    if b == [] {
      assert a + b == a;
    } else {
      var n := |b| - 1;
      assert (a + b)[..|a| + n] == a + b[..n];
      PlainAppend(a, b[..n]);
    }
  }

  lemma {:induction false} PlainMore(fs: seq<Frame>, f: Frame)
    ensures Plain(fs + [f]) == Plain(fs) + if f.kind.Pong? then [] else [f]
  {
    assert (fs + [f])[..|fs|] == fs;
  }

  lemma {:induction false} PlainWithoutPongs(fs: seq<Frame>)
    requires NoPongs(fs)
    ensures Plain(fs) == fs
    decreases |fs|
  {
    if |fs| > 0 {
      var n := |fs| - 1;
      PlainWithoutPongs(fs[..n]);
      assert !fs[n].kind.Pong?;
      assert fs == fs[..n] + [fs[n]];
    }
  }

  /** Polling says nothing. */
  lemma {:induction false} PollSays(s: Side)
    ensures var t := Poll(s);
      && t == s.(sent := t.sent, inbox := t.inbox, aborted := t.aborted)
      && Plain(t.sent) == Plain(s.sent)
    decreases |s.inbox|
  {
    if !s.aborted && s.inbox != [] && !AbortsUs(s.inbox[0], s.id) {
      var more := Answer(s.inbox[0], PONG_BUSY);
      PlainAppend(s.sent, more);
      assert Plain(more) == [];
      PollSays(s.(inbox := s.inbox[1..], sent := s.sent + more));
    }
  }

  // --- what polling finds ---

  /** Among the heads is an Abort for the request. */
  predicate HoldsAbort(heads: seq<Head>, id: u32) {
    exists i :: 0 <= i < |heads| && heads[i].Some? && heads[i].value.kind.Abort? && heads[i].value.requestId == id
  }

  /** The ids of the liveness probes among the heads, in order. */
  function Probes(heads: seq<Head>): seq<u32>
    decreases |heads|
  {
    if |heads| == 0 then []
    else
      (if heads[0].Some? && heads[0].value.kind.Ping? then [heads[0].value.requestId] else []) + Probes(heads[1..])
  }

  /** Each probe has its one answer, in order, with its own id and the status. */
  ghost predicate Ponged(before: seq<Frame>, after: seq<Frame>, ids: seq<u32>, status: u32) {
    && |after| == |before| + |ids| && before <= after
    && forall i | 0 <= i < |ids| :: after[|before| + i] == Frame(FrameKind.Pong, 0, ids[i], status, [])
  }

  lemma {:induction false} PongedOn(before: seq<Frame>, h: Head, after: seq<Frame>, rest: seq<u32>, status: u32)
    requires Ponged(before + Answer(h, status), after, rest, status)
    ensures Ponged(before, after, (if h.Some? && h.value.kind.Ping? then [h.value.requestId] else []) + rest, status)
  {
  }

  lemma {:induction false} AbortComesFirstOrLater(h: Head, rest: seq<Head>, id: u32)
    ensures HoldsAbort([h] + rest, id) <==> HoldsAbort([h], id) || HoldsAbort(rest, id)
  {
    var heads := [h] + rest;
    assert heads[0] == h && [h][0] == h && heads[1..] == rest;
    if HoldsAbort(rest, id) {
      var i :| 0 <= i < |rest| && rest[i].Some? && rest[i].value.kind.Abort? && rest[i].value.requestId == id;
      assert heads[i + 1] == rest[i];
    }
    assert forall i | 0 < i < |heads| :: heads[i] == rest[i - 1];
  }

  /** From s the poll has read k heads, none of them an Abort for the request, and answered the probes among them, all
      busy. It went on to the first such Abort, which it consumed, or to the end of what there is; then the client is
      gone if the router has closed the stream. */
  ghost predicate Polled(s: Side, t: Side, k: nat) {
    && k <= |s.inbox| && !HoldsAbort(s.inbox[..k], s.id) && Ponged(s.sent, t.sent, Probes(s.inbox[..k]), 1)
    && if HoldsAbort(s.inbox, s.id)
       then k < |s.inbox| && HoldsAbort([s.inbox[k]], s.id) && t.inbox == s.inbox[k + 1..] && t.aborted
       else k == |s.inbox| && t.inbox == [] && t.aborted == s.closed
  }

  lemma {:induction false} PolledOn(s: Side, h: Head, rest: seq<Head>, t: Side, k: nat)
    requires s.inbox == [h] + rest && !HoldsAbort([h], s.id)
    requires Polled(s.(inbox := rest, sent := s.sent + Answer(h, 1)), t, k)
    ensures Polled(s, t, k + 1)
  {
    AbortComesFirstOrLater(h, rest, s.id);
    AbortComesFirstOrLater(h, rest[..k], s.id);
    assert s.inbox[..k + 1] == [h] + rest[..k] && ([h] + rest[..k])[1..] == rest[..k];
    PongedOn(s.sent, h, t.sent, Probes(rest[..k]), 1);
    assert k < |rest| ==> s.inbox[k + 1] == rest[k] && s.inbox[k + 2..] == rest[k + 1..];
  }

  lemma {:induction false} PollExactly(s: Side) returns (k: nat)
    requires !s.aborted
    ensures Polled(s, Poll(s), k)
    decreases |s.inbox|
  {
    k := 0;
    if |s.inbox| > 0 {
      var h, rest := s.inbox[0], s.inbox[1..];
      assert s.inbox == [h] + rest && [h][0] == h;
      AbortComesFirstOrLater(h, rest, s.id);
      if !AbortsUs(h, s.id) {
        k := PollExactly(s.(inbox := rest, sent := s.sent + Answer(h, PONG_BUSY)));
        PolledOn(s, h, rest, Poll(s), k);
        k := k + 1;
      }
    }
  }

  lemma {:induction false} RefusedMeans(s: Side)
    ensures Refused(s) <==> s.aborted || s.closed || HoldsAbort(s.inbox, s.id)
  {
    if !s.aborted {
      var k := PollExactly(s);
    }
  }

  /** By the end of the calls an Abort for the request or the end of the stream has come. */
  predicate ClientGone(s: Side, calls: seq<Call>) {
    s.aborted || s.closed || HoldsAbort(s.inbox, s.id)
    || exists i :: 0 <= i < |calls| && calls[i].Arrive? && (calls[i].hangUp || HoldsAbort(calls[i].heads, s.id))
  }

  lemma {:induction false} GoneAfterMore(s: Side, calls: seq<Call>, c: Call)
    ensures ClientGone(s, calls + [c])
       <==> ClientGone(s, calls) || (c.Arrive? && (c.hangUp || HoldsAbort(c.heads, s.id)))
  {
    var more := calls + [c];
    assert more[|calls|] == c && forall i | 0 <= i < |calls| :: more[i] == calls[i];
  }

  lemma {:induction false} AbortAmongMore(a: seq<Head>, b: seq<Head>, id: u32)
    ensures HoldsAbort(a + b, id) <==> HoldsAbort(a, id) || HoldsAbort(b, id)
  {
    var ab := a + b;
    assert forall i | 0 <= i < |a| :: ab[i] == a[i];
    assert forall i | 0 <= i < |b| :: ab[|a| + i] == b[i];
    assert forall i | |a| <= i < |ab| :: ab[i] == b[i - |a|];
  }

  lemma {:induction false} PollKeepsVerdict(s: Side)
    ensures Refused(Poll(s)) <==> Refused(s)
  {
    if !s.aborted {
      var k := PollExactly(s);
      PollSays(s);
      RefusedMeans(Poll(s));
    }
  }

  lemma {:induction false} VerdictIgnoresOutput(s: Side, t: Side)
    requires t.aborted == s.aborted && t.closed == s.closed && t.inbox == s.inbox && t.id == s.id
    ensures Refused(t) <==> Refused(s)
  {
    RefusedMeans(s);
    RefusedMeans(t);
  }

  /** No call but an arrival changes whether the client is known to be gone. */
  lemma {:induction false} StepVerdict(s: Side, c: Call)
    ensures Refused(Step(s, c)) <==> Refused(s) || (c.Arrive? && (c.hangUp || HoldsAbort(c.heads, s.id)))
  {
    match c
    case SendBody(chunk) =>
      PollKeepsVerdict(s);
      VerdictIgnoresOutput(Poll(s), Step(s, c));
    case SendFlush =>
      PollKeepsVerdict(s);
      VerdictIgnoresOutput(Poll(s), Step(s, c));
    case Arrive(heads, hangUp) =>
      RefusedMeans(s);
      RefusedMeans(Step(s, c));
      AbortAmongMore(s.inbox, heads, s.id);
    case _ => VerdictIgnoresOutput(s, Step(s, c));
  }

  lemma {:induction false} StepKeepsId(s: Side, c: Call)
    ensures Step(s, c).id == s.id
  {
    if c.SendBody? || c.SendFlush? {
      PollSays(s);
    }
  }

  lemma {:induction false} CallsKeepId(s: Side, calls: seq<Call>)
    ensures RunCalls(s, calls).id == s.id
    decreases |calls|
  {
    if |calls| > 0 {
      var n := |calls| - 1;
      CallsKeepId(s, calls[..n]);
      StepKeepsId(RunCalls(s, calls[..n]), calls[n]);
    }
  }

  /** A chunk or flush is refused exactly if by then an Abort for the request or the end of the stream has come. */
  lemma {:induction false} RefusedExactly(s: Side, calls: seq<Call>)
    ensures Refused(RunCalls(s, calls)) <==> ClientGone(s, calls)
    decreases |calls|
  {
    if |calls| == 0 {
      RefusedMeans(s);
    } else {
      var n := |calls| - 1;
      RefusedExactly(s, calls[..n]);
      CallsKeepId(s, calls[..n]);
      StepVerdict(RunCalls(s, calls[..n]), calls[n]);
      GoneAfterMore(s, calls[..n], calls[n]);
      assert calls == calls[..n] + [calls[n]];
    }
  }

  lemma {:induction false} DrainSays(s: Side)
    requires NoPongs(s.queued)
    ensures Said(Drain(s)) == Said(s)
  {
    PlainAppend(s.sent, s.queued);
    PlainWithoutPongs(s.queued);
  }

  lemma {:induction false} EarlyDrainSays(s: Side)
    requires NoPongs(s.queued)
    ensures Said(EarlyDrain(s)) == Said(s) && NoPongs(EarlyDrain(s).queued)
    ensures EarlyDrain(s) == s.(sent := EarlyDrain(s).sent, queued := EarlyDrain(s).queued)
  {
    DrainSays(s);
  }

  /** What one call adds. */
  function Spoken(s: Side, c: Call): seq<Frame> {
    match c
    case SendHeaders(status, headers) => [Frame(ResponseHeaders, 0, s.id, status, headers)]
    case SendBody(chunk) => if Refused(s) then [] else [BodyFrame(s.id, chunk)]
    case SendFlush => if Refused(s) then [] else [Bare(Flush, s.id)]
    case DoFinish => if s.doneSent then [] else Ending(s) + [Bare(Done, s.id)]
    case FinishNow => Ending(s)
    case SendError(message) => [Frame(FrameKind.Error, 0, s.id, 0, message)]
    case Arrive(_, _) => []
  }

  function Ending(s: Side): seq<Frame> {
    if s.endSent then [] else [Bare(End, s.id)]
  }

  lemma {:induction false} EndSays(s: Side)
    requires NoPongs(s.queued)
    ensures Said(EndStep(s)) == Said(s) + Ending(s) && NoPongs(EndStep(s).queued)
  {
  }

  lemma {:induction false} FinishSays(s: Side)
    requires NoPongs(s.queued)
    ensures Said(FinishStep(s)) == Said(s) + Spoken(s, DoFinish) && NoPongs(FinishStep(s).queued)
  {
    EndSays(s);
  }

  lemma {:induction false} BodySays(s: Side, chunk: seq<byte>)
    requires NoPongs(s.queued)
    ensures var t := Step(s, SendBody(chunk));
      && Said(t) == Said(s) + Spoken(s, SendBody(chunk)) && NoPongs(t.queued) && SameFlags(s, t)
  {
    PollSays(s);
    if !Refused(s) {
      EarlyDrainSays(Push(Poll(s), BodyFrame(s.id, chunk)));
    }
  }

  lemma {:induction false} FlushSays(s: Side)
    requires NoPongs(s.queued)
    ensures var t := Step(s, SendFlush);
      && Said(t) == Said(s) + Spoken(s, SendFlush) && NoPongs(t.queued) && SameFlags(s, t)
  {
    PollSays(s);
    if !Refused(s) {
      DrainSays(Push(Poll(s), Bare(Flush, s.id)));
    }
  }

  /** The request and how far its response has come. */
  predicate SameFlags(s: Side, t: Side) {
    t.id == s.id && t.headersSent == s.headersSent && t.endSent == s.endSent && t.doneSent == s.doneSent
  }

  lemma {:induction false} StepSays(s: Side, c: Call)
    requires NoPongs(s.queued)
    ensures Said(Step(s, c)) == Said(s) + Spoken(s, c) && NoPongs(Step(s, c).queued)
    ensures Step(s, c).id == s.id && Step(s, c).doneSent == (s.doneSent || c.DoFinish? || c.SendError?)
    ensures Step(s, c).endSent == (s.endSent || (c.DoFinish? && !s.doneSent) || c.FinishNow? || c.SendError?)
  {
    match c
    case SendBody(chunk) => BodySays(s, chunk);
    case SendFlush => FlushSays(s);
    case DoFinish => FinishSays(s);
    case FinishNow =>
      EndSays(s);
      DrainSays(EndStep(s));
    case _ =>
  }

  /** The frames a list of calls adds, and the chunks it got accepted. */
  function SpokenBy(s: Side, calls: seq<Call>): seq<Frame> {
    if calls == [] then []
    else
      var n := |calls| - 1;
      SpokenBy(s, calls[..n]) + Spoken(RunCalls(s, calls[..n]), calls[n])
  }

  function Accepted(s: Side, calls: seq<Call>): seq<byte> {
    if calls == [] then []
    else
      var n := |calls| - 1;
      Accepted(s, calls[..n])
      + if calls[n].SendBody? && !Refused(RunCalls(s, calls[..n])) then calls[n].chunk else []
  }

  /** The bodies carried by the frames, put together. */
  function Bodies(fs: seq<Frame>): seq<byte> {
    if fs == [] then []
    else
      var last := fs[|fs| - 1];
      Bodies(fs[..|fs| - 1]) + if last.kind.ResponseBody? then last.payload else []
  }

  lemma {:induction false} BodiesAppend(a: seq<Frame>, b: seq<Frame>)
    ensures Bodies(a + b) == Bodies(a) + Bodies(b)
  {
    if b == [] {
      assert a + b == a;
    } else {
      var n := |b| - 1;
      assert (a + b)[..|a| + n] == a + b[..n];
      BodiesAppend(a, b[..n]);
    }
  }

  predicate Ends(f: Frame) { f.kind.Done? || f.kind.Error? }

  /** A frame of the response proper. */
  predicate Response(f: Frame, id: u32) {
    f.id == id && (f.kind.ResponseHeaders? || f.kind.ResponseBody? || f.kind.Flush? || f.kind.End?)
  }

  ghost predicate AllResponse(fs: seq<Frame>, id: u32) {
    forall i | 0 <= i < |fs| :: Response(fs[i], id)
  }

  /** Response frames, and after them exactly one Done or Error once the request is over. */
  ghost predicate Story(fs: seq<Frame>, id: u32, over: bool) {
    if over then fs != [] && Ends(fs[|fs| - 1]) && fs[|fs| - 1].id == id && AllResponse(fs[..|fs| - 1], id)
    else AllResponse(fs, id)
  }

  ghost predicate Fresh(s: Side) {
    s.queued == [] && !s.headersSent && !s.endSent && !s.doneSent && !s.aborted
  }

  lemma {:induction false} StoryGoesOn(fs: seq<Frame>, s: Side, c: Call)
    requires Story(fs, s.id, s.doneSent) && Legal(s, c) && (s.doneSent ==> s.endSent)
    ensures Story(fs + Spoken(s, c), s.id, s.doneSent || c.DoFinish? || c.SendError?)
  {
    var more := Spoken(s, c);
    if more == [] {
      assert fs + more == fs;
    } else if c.DoFinish? {
      assert (fs + more)[..|fs + more| - 1] == fs + Ending(s);
    } else if c.SendError? {
      assert (fs + more)[..|fs + more| - 1] == fs;
    }
  }

  /** Side t has said `fs` about its request since `before`. */
  ghost predicate Telling(before: seq<Frame>, fs: seq<Frame>, t: Side) {
    Said(t) == before + fs && NoPongs(t.queued) && (t.doneSent ==> t.endSent) && Story(fs, t.id, t.doneSent)
  }

  lemma {:induction false} TellsOn(before: seq<Frame>, fs: seq<Frame>, t: Side, c: Call)
    requires Telling(before, fs, t) && Legal(t, c)
    ensures Telling(before, fs + Spoken(t, c), Step(t, c)) && Step(t, c).id == t.id
  {
    StepSays(t, c);
    StoryGoesOn(fs, t, c);
  }

  lemma {:induction false} FewerLegalCalls(s: Side, calls: seq<Call>, n: nat)
    requires LegalCalls(s, calls) && n <= |calls|
    ensures LegalCalls(s, calls[..n])
  {
    forall i | 0 <= i < n
      ensures Legal(RunCalls(s, calls[..n][..i]), calls[..n][i])
    {
      assert calls[..n][..i] == calls[..i];
    }
  }

  /** Whatever legal calls a handler makes, its frames tell one story. */
  lemma {:induction false} CallsTell(s: Side, calls: seq<Call>)
    requires Fresh(s) && LegalCalls(s, calls)
    ensures Telling(Said(s), SpokenBy(s, calls), RunCalls(s, calls)) && RunCalls(s, calls).id == s.id
  {
    if calls != [] {
      var n := |calls| - 1;
      FewerLegalCalls(s, calls, n);
      CallsTell(s, calls[..n]);
      TellsOn(Said(s), SpokenBy(s, calls[..n]), RunCalls(s, calls[..n]), calls[n]);
    }
  }

  lemma {:induction false} OneBody(f: Frame)
    ensures Bodies([f]) == if f.kind.ResponseBody? then f.payload else []
  {
    assert [f][..0] == [];
  }

  lemma {:induction false} SpokenBodies(s: Side, c: Call)
    ensures Bodies(Spoken(s, c)) == if c.SendBody? && !Refused(s) then c.chunk else []
  {
    OneBody(Bare(End, s.id));
    OneBody(Bare(Done, s.id));
    BodiesAppend(Ending(s), [Bare(Done, s.id)]);
    var fs := Spoken(s, c);
    if |fs| == 1 {
      OneBody(fs[0]);
    }
  }

  /** The bodies on the wire are the accepted chunks, in order. */
  lemma {:induction false} BodiesAreAccepted(s: Side, calls: seq<Call>)
    ensures Bodies(SpokenBy(s, calls)) == Accepted(s, calls)
  {
    if calls != [] {
      var n := |calls| - 1;
      var t := RunCalls(s, calls[..n]);
      BodiesAreAccepted(s, calls[..n]);
      BodiesAppend(SpokenBy(s, calls[..n]), Spoken(t, calls[n]));
      SpokenBodies(t, calls[n]);
    }
  }

  /** Every chunk the calls send, put together. */
  function AllBodies(calls: seq<Call>): seq<byte> {
    if calls == [] then []
    else
      var n := |calls| - 1;
      AllBodies(calls[..n]) + if calls[n].SendBody? then calls[n].chunk else []
  }

  /** While the client stays, every chunk is accepted. */
  lemma {:induction false} AllAccepted(s: Side, calls: seq<Call>)
    requires !ClientGone(s, calls)
    ensures Accepted(s, calls) == AllBodies(calls)
    decreases |calls|
  {
    if |calls| > 0 {
      var n := |calls| - 1;
      assert calls == calls[..n] + [calls[n]];
      GoneAfterMore(s, calls[..n], calls[n]);
      AllAccepted(s, calls[..n]);
      RefusedExactly(s, calls[..n]);
    }
  }

  // --- one request ---

  /** The handler's calls and whether it returned `Ok`. */
  datatype Script = Script(calls: seq<Call>, ok: bool)

  /** Claim, written at once, and a new Responder over a cleared buffer. */
  function Begin(s: Side, id: u32): Side {
    s.(sent := s.sent + [Bare(Claim, id)], queued := [], id := id,
       headersSent := false, endSent := false, doneSent := false, aborted := false)
  }

  const HANDLER_FAILED: seq<byte> :=
    [104, 97, 110, 100, 108, 101, 114, 32, 102, 97, 105, 108, 101, 100]

  /** The call the loop makes after the handler. */
  function Last(s: Side, ok: bool): Call {
    if ok || s.doneSent then DoFinish else SendError(HANDLER_FAILED)
  }

  function Serve(s: Side, id: u32, script: Script): Side {
    var t := RunCalls(Begin(s, id), script.calls);
    Drain(Step(t, Last(t, script.ok)))
  }

  /** Everything a request said, from its Claim to its terminal frame. */
  function Answered(s: Side, id: u32, script: Script): seq<Frame> {
    var b := Begin(s, id);
    var t := RunCalls(b, script.calls);
    SpokenBy(b, script.calls) + Spoken(t, Last(t, script.ok))
  }

  ghost predicate LegalScript(s: Side, id: u32, script: Script) {
    LegalCalls(Begin(s, id), script.calls)
  }

  /** Every request: Claim, its response frames, exactly one Done or Error; nothing stays buffered. */
  lemma {:induction false} RequestStory(s: Side, id: u32, script: Script)
    requires LegalScript(s, id, script)
    ensures var t, fs := Serve(s, id, script), Answered(s, id, script);
      && Plain(t.sent) == Plain(s.sent) + [Bare(Claim, id)] + fs && t.queued == []
      && Story(fs, id, true)
  {
    var b := Begin(s, id);
    var t := RunCalls(b, script.calls);
    CallsTell(b, script.calls);
    TellsOn(Said(b), SpokenBy(b, script.calls), t, Last(t, script.ok));
    DrainSays(Step(t, Last(t, script.ok)));
    BeginSays(s, id);
  }

  lemma {:induction false} BeginSays(s: Side, id: u32)
    ensures Said(Begin(s, id)) == Plain(s.sent) + [Bare(Claim, id)]
    ensures Plain(s.sent + [Bare(Claim, id)]) == Plain(s.sent) + [Bare(Claim, id)]
  {
    PlainMore(s.sent, Bare(Claim, id));
  }

  lemma {:induction false} RequestBodies(s: Side, id: u32, script: Script)
    ensures Bodies(Answered(s, id, script)) == Accepted(Begin(s, id), script.calls)
  {
    var b := Begin(s, id);
    var t := RunCalls(b, script.calls);
    BodiesAreAccepted(b, script.calls);
    BodiesAppend(SpokenBy(b, script.calls), Spoken(t, Last(t, script.ok)));
    SpokenBodies(t, Last(t, script.ok));
  }

  // --- no body after the end ---

  predicate HasEnd(fs: seq<Frame>)
    decreases |fs|
  {
    |fs| > 0 && (fs[|fs| - 1].kind.End? || HasEnd(fs[..|fs| - 1]))
  }

  /** No body frame comes after an End. */
  predicate Tidy(fs: seq<Frame>)
    decreases |fs|
  {
    |fs| == 0 || (Tidy(fs[..|fs| - 1]) && (fs[|fs| - 1].kind.ResponseBody? ==> !HasEnd(fs[..|fs| - 1])))
  }

  lemma {:induction false} TidyMore(fs: seq<Frame>, f: Frame)
    ensures HasEnd(fs + [f]) == (HasEnd(fs) || f.kind.End?)
    ensures Tidy(fs + [f]) == (Tidy(fs) && (f.kind.ResponseBody? ==> !HasEnd(fs)))
  {
    assert (fs + [f])[..|fs|] == fs;
  }

  lemma {:induction false} SpokenIsTidy(fs: seq<Frame>, s: Side, c: Call)
    requires Tidy(fs) && (HasEnd(fs) ==> s.endSent) && Legal(s, c)
    ensures Tidy(fs + Spoken(s, c))
    ensures HasEnd(fs + Spoken(s, c)) ==> s.endSent || (c.DoFinish? && !s.doneSent) || c.FinishNow?
  {
    TidyMore(fs, Bare(End, s.id));
    match c
    case SendHeaders(_, _) => TidyMore(fs, Spoken(s, c)[0]);
    case SendBody(chunk) =>
      TidyMore(fs, BodyFrame(s.id, chunk));
      assert fs + [] == fs;
    case SendFlush =>
      TidyMore(fs, Bare(Flush, s.id));
      assert fs + [] == fs;
    case DoFinish => TidyFinish(fs, s);
    case FinishNow => assert fs + [] == fs;
    case SendError(_) => TidyMore(fs, Spoken(s, c)[0]);
    case Arrive(_, _) => assert fs + [] == fs;
  }

  lemma {:induction false} EndThenDone(fs: seq<Frame>, ending: seq<Frame>, done: Frame)
    ensures fs + (ending + [done]) == fs + ending + [done] && fs + [] == fs
  {
  }

  lemma {:induction false} TidyFinish(fs: seq<Frame>, s: Side)
    requires Tidy(fs) && (HasEnd(fs) ==> s.endSent)
    ensures Tidy(fs + Spoken(s, DoFinish))
    ensures HasEnd(fs + Spoken(s, DoFinish)) ==> s.endSent || !s.doneSent
  {
    if s.doneSent {
      assert fs + [] == fs;
    } else {
      TidyMore(fs, Bare(End, s.id));
      EndThenDone(fs, Ending(s), Bare(Done, s.id));
      TidyMore(fs + Ending(s), Bare(Done, s.id));
    }
  }

  lemma {:induction false} TidyStep(fs: seq<Frame>, s: Side, c: Call)
    requires Tidy(fs) && (HasEnd(fs) ==> s.endSent) && Legal(s, c) && NoPongs(s.queued)
    ensures Tidy(fs + Spoken(s, c)) && (HasEnd(fs + Spoken(s, c)) ==> Step(s, c).endSent)
  {
    SpokenIsTidy(fs, s, c);
    StepSays(s, c);
  }

  predicate TidySaid(fs: seq<Frame>, t: Side) {
    Tidy(fs) && (HasEnd(fs) ==> t.endSent)
  }

  lemma {:induction false} TakeOneLess(calls: seq<Call>, n: nat)
    requires 0 < n <= |calls|
    ensures |calls[..n]| == n && calls[..n - 1] == calls[..n][..|calls[..n]| - 1] && calls[..n][n - 1] == calls[n - 1]
  {
  }

  lemma {:induction false} TidyAfter(s: Side, calls: seq<Call>, before: seq<Call>)
    requires Fresh(s) && |calls| > 0 && before == calls[..|calls| - 1] && LegalCalls(s, before)
    requires Legal(RunCalls(s, before), calls[|before|]) && TidySaid(SpokenBy(s, before), RunCalls(s, before))
    ensures TidySaid(SpokenBy(s, calls), RunCalls(s, calls))
  {
    CallsTell(s, before);
    TidyStep(SpokenBy(s, before), RunCalls(s, before), calls[|before|]);
  }

  lemma {:induction false} OneMoreTidy(s: Side, calls: seq<Call>, n: nat)
    requires Fresh(s) && LegalCalls(s, calls) && 0 < n <= |calls|
    requires TidySaid(SpokenBy(s, calls[..n - 1]), RunCalls(s, calls[..n - 1]))
    ensures TidySaid(SpokenBy(s, calls[..n]), RunCalls(s, calls[..n]))
  {
    TakeOneLess(calls, n);
    FewerLegalCalls(s, calls, n - 1);
    assert Legal(RunCalls(s, calls[..n - 1]), calls[n - 1]);
    TidyAfter(s, calls[..n], calls[..n - 1]);
  }

  lemma {:induction false} CallsAreTidy(s: Side, calls: seq<Call>, n: nat)
    requires Fresh(s) && LegalCalls(s, calls) && n <= |calls|
    ensures TidySaid(SpokenBy(s, calls[..n]), RunCalls(s, calls[..n]))
    decreases n
  {
    if n == 0 {
      assert calls[..0] == [];
    } else {
      CallsAreTidy(s, calls, n - 1);
      OneMoreTidy(s, calls, n);
    }
  }

  /** Nor over a whole request. */
  lemma {:induction false} RequestIsTidy(s: Side, id: u32, script: Script)
    requires LegalScript(s, id, script)
    ensures Tidy(Answered(s, id, script))
  {
    var b := Begin(s, id);
    var t := RunCalls(b, script.calls);
    CallsAreTidy(b, script.calls, |script.calls|);
    assert script.calls[..|script.calls|] == script.calls;
    SpokenIsTidy(SpokenBy(b, script.calls), t, Last(t, script.ok));
  }

  /** Answers to probes make no difference. */
  lemma {:induction false} TidyIgnoresPongs(fs: seq<Frame>)
    ensures HasEnd(Plain(fs)) == HasEnd(fs) && Tidy(Plain(fs)) == Tidy(fs)
    decreases |fs|
  {
    if |fs| > 0 {
      var before, f := fs[..|fs| - 1], fs[|fs| - 1];
      assert fs == before + [f];
      TidyIgnoresPongs(before);
      PlainMore(before, f);
      TidyMore(before, f);
      if f.kind.Pong? {
        assert Plain(fs) == Plain(before);
      } else {
        TidyMore(Plain(before), f);
      }
    }
  }

  lemma {:induction false} TidyPrefix(fs: seq<Frame>, n: nat)
    requires Tidy(fs) && n <= |fs|
    ensures Tidy(fs[..n])
    decreases |fs|
  {
    if n == |fs| {
      assert fs[..n] == fs;
    } else {
      TidyPrefix(fs[..|fs| - 1], n);
      assert fs[..|fs| - 1][..n] == fs[..n];
    }
  }

  // --- the grammar of the wire ---

  /** Between requests, inside one, or past a frame that does not belong. */
  datatype Phase = Free | Serving(id: u32) | Broken

  function Advance(p: Phase, f: Frame): Phase {
    match p
    case Free => if f.kind.Claim? then Serving(f.id) else Broken
    case Serving(id) => if f.id == id && Ends(f) then Free else if Response(f, id) then p else Broken
    case Broken => Broken
  }

  function PhaseAfter(fs: seq<Frame>): Phase {
    if fs == [] then Free else Advance(PhaseAfter(fs[..|fs| - 1]), fs[|fs| - 1])
  }

  lemma {:induction false} PhaseAfterMore(fs: seq<Frame>, f: Frame)
    ensures PhaseAfter(fs + [f]) == Advance(PhaseAfter(fs), f)
  {
    assert (fs + [f])[..|fs|] == fs;
  }

  lemma {:induction false} BrokenStays(fs: seq<Frame>, n: nat)
    requires n <= |fs| && PhaseAfter(fs) != Broken
    ensures PhaseAfter(fs[..n]) != Broken
    decreases |fs|
  {
    if n == |fs| {
      assert fs[..n] == fs;
    } else {
      BrokenStays(fs[..|fs| - 1], n);
      assert fs[..|fs| - 1][..n] == fs[..n];
    }
  }

  lemma {:induction false} ResponsePhase(before: seq<Frame>, fs: seq<Frame>, id: u32)
    requires PhaseAfter(before) == Serving(id) && AllResponse(fs, id)
    ensures PhaseAfter(before + fs) == Serving(id)
  {
    if fs == [] {
      assert before + fs == before;
    } else {
      var n := |fs| - 1;
      assert Response(fs[n], id);
      ResponsePhase(before, fs[..n], id);
      PhaseAfterMore(before + fs[..n], fs[n]);
      assert before + fs == before + fs[..n] + [fs[n]];
    }
  }

  lemma {:induction false} StoryPhase(before: seq<Frame>, fs: seq<Frame>, id: u32, over: bool)
    requires PhaseAfter(before) == Serving(id) && Story(fs, id, over)
    ensures PhaseAfter(before + fs) == if over then Free else Serving(id)
  {
    if over {
      var n := |fs| - 1;
      ResponsePhase(before, fs[..n], id);
      PhaseAfterMore(before + fs[..n], fs[n]);
      assert before + fs == before + fs[..n] + [fs[n]];
    } else {
      ResponsePhase(before, fs, id);
    }
  }

  /** The claim a phase leaves open. */
  function OpenIn(p: Phase): multiset<u32> {
    if p.Serving? then multiset{p.id} else multiset{}
  }

  lemma {:induction false} AdvanceOpens(p: Phase, f: Frame)
    requires Advance(p, f) != Broken
    ensures OpenIn(Advance(p, f)) ==
      if f.kind.Claim? then OpenIn(p) + multiset{f.id} else if Ends(f) then OpenIn(p) - multiset{f.id} else OpenIn(p)
  {
  }

  lemma {:induction false} OneMoreFrame(before: seq<Frame>, f: Frame)
    requires OpenClaims(before) == OpenIn(PhaseAfter(Plain(before)))
    requires PhaseAfter(Plain(before + [f])) != Broken
    ensures OpenClaims(before + [f]) == OpenIn(PhaseAfter(Plain(before + [f])))
  {
    PlainMore(before, f);
    OpenAfter(before, f);
    if f.kind.Pong? {
      assert Plain(before + [f]) == Plain(before);
    } else {
      PhaseAfterMore(Plain(before), f);
      AdvanceOpens(PhaseAfter(Plain(before)), f);
    }
  }

  /** A wire that follows the grammar has at most the one open claim the grammar is in. */
  lemma {:induction false} PhaseBoundsClaims(fs: seq<Frame>)
    requires PhaseAfter(Plain(fs)) != Broken
    ensures OpenClaims(fs) == OpenIn(PhaseAfter(Plain(fs)))
  {
    if fs != [] {
      var before, f := fs[..|fs| - 1], fs[|fs| - 1];
      assert fs == before + [f];
      PlainMore(before, f);
      BrokenStays(Plain(fs), |Plain(before)|);
      assert Plain(fs)[..|Plain(before)|] == Plain(before);
      PhaseBoundsClaims(before);
      OneMoreFrame(before, f);
    }
  }

  lemma {:induction false} PlainPrefix(fs: seq<Frame>, n: nat)
    requires n <= |fs|
    ensures Plain(fs[..n]) <= Plain(fs)
  {
    PlainAppend(fs[..n], fs[n..]);
    assert fs == fs[..n] + fs[n..];
  }

  lemma {:induction false} GrammarHonoursGrant(fs: seq<Frame>, said: seq<Frame>)
    requires Plain(fs) <= said && PhaseAfter(said) != Broken
    ensures HonoursGrant(fs, 1)
  {
    forall n | 0 <= n <= |fs|
      ensures |OpenClaims(fs[..n])| <= 1
    {
      PlainPrefix(fs, n);
      BrokenStays(said, |Plain(fs[..n])|);
      assert said[..|Plain(fs[..n])|] == Plain(fs[..n]);
      PhaseBoundsClaims(fs[..n]);
    }
  }

  // --- the loop ---

  const MAX_DGRAM := 256 * 1024

  /** What wakes the worker: control frames, or a datagram that it won. */
  datatype Turn = Control(heads: seq<Head>, hangUp: bool) | Datagram(data: seq<byte>, script: Script)

  datatype Loop = Loop(side: Side, served: nat, alive: bool)

  function Arrived(s: Side, heads: seq<Head>, hangUp: bool): Side { Step(s, Arrive(heads, hangUp)) }

  /** `answer_idle_control` reads all there is. */
  function IdlePoll(s: Side): Side
    decreases |s.inbox|
  {
    if s.inbox == [] then s
    else IdlePoll(s.(inbox := s.inbox[1..], sent := s.sent + Answer(s.inbox[0], PONG_IDLE)))
  }

  /** The end of the stream ends the worker. */
  function IdleStep(l: Loop): Loop {
    l.(side := IdlePoll(l.side), alive := !l.side.closed)
  }

  /** `recv` into the fixed buffer cuts a longer datagram. */
  function Received(data: seq<byte>): seq<byte> {
    if |data| > MAX_DGRAM then data[..MAX_DGRAM] else data
  }

  /** What the worker makes of a datagram. */
  datatype Verdict = Ignore | Exit | Unreadable(id: u32) | Take(id: u32)

  function Judge(data: seq<byte>): Verdict {
    if |data| < FRAME_HEADER_LEN then Ignore
    else
      match DecodeHeader(data[..FRAME_HEADER_LEN])
      case None => Exit
      case Some(h) =>
        if h.kind.Retire? then Exit
        else if !h.kind.Request? || FRAME_HEADER_LEN + h.payloadLen > |data| then Ignore
        else if Request.Parse(data[FRAME_HEADER_LEN..FRAME_HEADER_LEN + h.payloadLen]).Ok? then Take(h.requestId)
        else Unreadable(h.requestId)
  }

  /** A frame sent as one datagram: a request is served under its id if it fits the 256 KiB buffer and its payload can
      be read, claimed without being served if it cannot, and lost if it does not fit; anything else is passed over, but
      Retire ends the worker. */
  lemma {:induction false} DatagramIsJudged(f: Frame)
    requires |f.payload| < U32_LIMIT
    ensures f.kind.Request? && |f.payload| + 16 <= 256 * 1024 ==>
      Judge(Received(EncodeFrame(f))) == if Request.Parse(f.payload).Ok? then Take(f.id) else Unreadable(f.id)
    ensures f.kind.Request? && |f.payload| + 16 > 256 * 1024 ==> Judge(Received(EncodeFrame(f))) == Ignore
    ensures f.kind.Retire? ==> Judge(Received(EncodeFrame(f))) == Exit
    ensures !f.kind.Request? && !f.kind.Retire? ==> Judge(Received(EncodeFrame(f))) == Ignore
  {
    HeaderIsRead(f);
    ReceivedParts(EncodeHeader(HeaderOf(f)), f.payload);
    JudgedByHeader(Received(EncodeFrame(f)), HeaderOf(f));
  }

  lemma {:induction false} HeaderIsRead(f: Frame)
    requires |f.payload| < U32_LIMIT
    ensures |Received(EncodeFrame(f))| >= FRAME_HEADER_LEN && HeaderOf(f).payloadLen == |f.payload|
    ensures DecodeHeader(Received(EncodeFrame(f))[..FRAME_HEADER_LEN]) == Some(HeaderOf(f))
  {
    ReceivedParts(EncodeHeader(HeaderOf(f)), f.payload);
    HeaderRoundTrip(HeaderOf(f), []);
    assert EncodeHeader(HeaderOf(f)) + [] == EncodeHeader(HeaderOf(f));
  }

  lemma {:induction false} ReceivedParts(head: seq<byte>, payload: seq<byte>)
    requires |head| == FRAME_HEADER_LEN
    ensures var data := Received(head + payload); |data| >= FRAME_HEADER_LEN && data[..FRAME_HEADER_LEN] == head
    ensures var data := Received(head + payload);
      if |payload| + 16 <= 256 * 1024 then |data| == 16 + |payload| && data[16..16 + |payload|] == payload
      else |data| < 16 + |payload|
  {
  }

  lemma {:induction false} JudgedByHeader(data: seq<byte>, h: Header)
    requires |data| >= FRAME_HEADER_LEN && DecodeHeader(data[..FRAME_HEADER_LEN]) == Some(h)
    ensures h.kind.Request? && 16 + h.payloadLen <= |data| ==>
      Judge(data) == if Request.Parse(data[16..16 + h.payloadLen]).Ok? then Take(h.requestId) else Unreadable(h.requestId)
    ensures h.kind.Request? && 16 + h.payloadLen > |data| ==> Judge(data) == Ignore
    ensures h.kind.Retire? ==> Judge(data) == Exit
    ensures !h.kind.Request? && !h.kind.Retire? ==> Judge(data) == Ignore
  {
  }

  function TurnStep(l: Loop, t: Turn, maxRequests: nat): Loop {
    match t
    case Control(heads, hangUp) => IdleStep(l.(side := Arrived(l.side, heads, hangUp)))
    case Datagram(data, script) =>
      match Judge(Received(data))
      case Ignore => l
      case Exit => l.(alive := false)
      case Unreadable(id) => l.(side := l.side.(sent := l.side.sent + [Bare(Claim, id)]), alive := false)
      case Take(id) =>
        Loop(Serve(l.side, id, script), l.served + 1, !(maxRequests > 0 && l.served + 1 >= maxRequests))
  }

  function Start(): Loop { Loop(Side([], [], [], false, 0, false, false, false, false), 0, true) }

  function RunTurns(turns: seq<Turn>, maxRequests: nat): Loop {
    if turns == [] then Start()
    else
      var n := |turns| - 1;
      var l := RunTurns(turns[..n], maxRequests);
      if l.alive then TurnStep(l, turns[n], maxRequests) else l
  }

  ghost predicate LegalTurn(l: Loop, t: Turn) {
    t.Datagram? && Judge(Received(t.data)).Take? ==> LegalScript(l.side, Judge(Received(t.data)).id, t.script)
  }

  ghost predicate LegalTurns(turns: seq<Turn>, maxRequests: nat) {
    forall i | 0 <= i < |turns| :: LegalTurn(RunTurns(turns[..i], maxRequests), turns[i])
  }

  /** Between turns a live worker owes nothing and buffers nothing. */
  ghost predicate Settled(l: Loop) {
    && PhaseAfter(Plain(l.side.sent)) != Broken
    && (l.alive ==> PhaseAfter(Plain(l.side.sent)).Free? && l.side.queued == [])
  }

  lemma {:induction false} IdlePollSays(s: Side)
    ensures var t := IdlePoll(s); t == s.(sent := t.sent, inbox := []) && Plain(t.sent) == Plain(s.sent)
    decreases |s.inbox|
  {
    if s.inbox != [] {
      var more := Answer(s.inbox[0], PONG_IDLE);
      PlainAppend(s.sent, more);
      assert Plain(more) == [];
      IdlePollSays(s.(inbox := s.inbox[1..], sent := s.sent + more));
    }
  }

  /** Between requests every probe is answered idle. */
  lemma {:induction false} IdlePollExactly(s: Side)
    ensures IdlePoll(s).inbox == [] && Ponged(s.sent, IdlePoll(s).sent, Probes(s.inbox), 0)
    decreases |s.inbox|
  {
    if |s.inbox| > 0 {
      var h, rest := s.inbox[0], s.inbox[1..];
      IdlePollExactly(s.(inbox := rest, sent := s.sent + Answer(h, PONG_IDLE)));
      PongedOn(s.sent, h, IdlePoll(s).sent, Probes(rest), 0);
    }
  }

  lemma {:induction false} SettledAfterIdle(l: Loop, heads: seq<Head>, hangUp: bool)
    requires Settled(l) && l.alive
    ensures Settled(IdleStep(l.(side := Arrived(l.side, heads, hangUp))))
  {
    IdlePollSays(Arrived(l.side, heads, hangUp));
  }

  lemma {:induction false} ClaimPhase(s: Side, id: u32)
    requires PhaseAfter(Plain(s.sent)).Free?
    ensures PhaseAfter(Plain(s.sent) + [Bare(Claim, id)]) == Serving(id)
    ensures Plain(s.sent + [Bare(Claim, id)]) == Plain(s.sent) + [Bare(Claim, id)]
  {
    PhaseAfterMore(Plain(s.sent), Bare(Claim, id));
    BeginSays(s, id);
  }

  lemma {:induction false} TellingHonoursGrant(before: seq<Frame>, fs: seq<Frame>, t: Side)
    requires Telling(before, fs, t) && PhaseAfter(before) == Serving(t.id)
    ensures HonoursGrant(t.sent, 1)
  {
    StoryPhase(before, fs, t.id, t.doneSent);
    GrammarHonoursGrant(t.sent, Said(t));
  }

  /** While a handler runs, for as long as it likes, at most its own request is open. */
  lemma {:induction false} HandlerHonoursGrant(s: Side, id: u32, calls: seq<Call>)
    requires PhaseAfter(Plain(s.sent)).Free? && LegalCalls(Begin(s, id), calls)
    ensures HonoursGrant(RunCalls(Begin(s, id), calls).sent, 1)
  {
    var b := Begin(s, id);
    CallsTell(b, calls);
    ClaimPhase(s, id);
    BeginSays(s, id);
    TellingHonoursGrant(Said(b), SpokenBy(b, calls), RunCalls(b, calls));
  }

  lemma {:induction false} SettledAfterServe(l: Loop, id: u32, script: Script)
    requires Settled(l) && l.alive && LegalScript(l.side, id, script)
    ensures var t := Serve(l.side, id, script); PhaseAfter(Plain(t.sent)).Free? && t.queued == []
  {
    RequestStory(l.side, id, script);
    ClaimPhase(l.side, id);
    StoryPhase(Plain(l.side.sent) + [Bare(Claim, id)], Answered(l.side, id, script), id, true);
  }

  lemma {:induction false} TurnSettles(l: Loop, t: Turn, maxRequests: nat)
    requires Settled(l) && l.alive && LegalTurn(l, t)
    ensures Settled(TurnStep(l, t, maxRequests))
  {
    match t
    case Control(heads, hangUp) => SettledAfterIdle(l, heads, hangUp);
    case Datagram(data, script) =>
      match Judge(Received(data))
      case Take(id) => SettledAfterServe(l, id, script);
      case Unreadable(id) => ClaimPhase(l.side, id);
      case _ =>
  }

  lemma {:induction false} FewerTurns(turns: seq<Turn>, maxRequests: nat, n: nat)
    requires LegalTurns(turns, maxRequests) && n <= |turns|
    ensures LegalTurns(turns[..n], maxRequests)
  {
    forall i | 0 <= i < n
      ensures LegalTurn(RunTurns(turns[..n][..i], maxRequests), turns[..n][i])
    {
      assert turns[..n][..i] == turns[..i];
    }
  }

  lemma {:induction false} RunSettles(turns: seq<Turn>, maxRequests: nat)
    requires LegalTurns(turns, maxRequests)
    ensures Settled(RunTurns(turns, maxRequests))
  {
    if turns != [] {
      var n := |turns| - 1;
      FewerTurns(turns, maxRequests, n);
      RunSettles(turns[..n], maxRequests);
      assert LegalTurn(RunTurns(turns[..n], maxRequests), turns[n]);
      if RunTurns(turns[..n], maxRequests).alive {
        TurnSettles(RunTurns(turns[..n], maxRequests), turns[n], maxRequests);
      }
    }
  }

  /** In every run the blocking worker keeps to the concurrency of one that it declared. */
  lemma {:induction false} RunHonoursGrant(turns: seq<Turn>, maxRequests: nat)
    requires LegalTurns(turns, maxRequests)
    ensures HonoursGrant(RunTurns(turns, maxRequests).side.sent, 1)
  {
    RunSettles(turns, maxRequests);
    var sent := RunTurns(turns, maxRequests).side.sent;
    GrammarHonoursGrant(sent, Plain(sent));
  }

  // --- the objects ---

  lemma {:induction false} DrainedBytes(sent: seq<Frame>, queued: seq<Frame>, stream: seq<byte>, out: seq<byte>)
    requires stream == EncodeFrames(sent) && out == EncodeFrames(queued)
    ensures stream + out == EncodeFrames(sent + queued) && EncodeFrames([]) == []
  {
    EncodeFramesAppend(sent, queued);
  }

  class Responder {
    var stream: seq<byte>
    var out: seq<byte>
    var inbox: seq<Head>
    var closed: bool
    var id: u32
    var headersSent: bool
    var endSent: bool
    var doneSent: bool
    var aborted: bool
    ghost var sent: seq<Frame>
    ghost var queued: seq<Frame>

    /** Both byte buffers hold whole frames. */
    ghost predicate Valid()
      reads this
    {
      stream == EncodeFrames(sent) && out == EncodeFrames(queued)
    }

    ghost function State(): Side
      reads this
    {
      Side(sent, queued, inbox, closed, id, headersSent, endSent, doneSent, aborted)
    }

    constructor ()
      ensures Valid() && State() == Start().side
    {
      stream, out, inbox, closed, id := [], [], [], false, 0;
      headersSent, endSent, doneSent, aborted := false, false, false, false;
      sent, queued := [], [];
    }

    method PushFrame(f: Frame)
      requires Valid()
      modifies this`out, this`queued
      ensures Valid() && State() == Push(old(State()), f)
    {
      EncodeFramesAppend(queued, [f]);
      OneFrame(f);
      out := out + EncodeFrame(f);
      queued := queued + [f];
    }

    /** `write_all` of whole frames straight to the stream. */
    method Write(f: Frame)
      requires Valid()
      modifies this`stream, this`sent
      ensures Valid() && State() == old(State()).(sent := old(sent) + [f])
    {
      EncodeFramesAppend(sent, [f]);
      OneFrame(f);
      stream := stream + EncodeFrame(f);
      sent := sent + [f];
    }

    method DrainOut()
      requires Valid()
      modifies this
      ensures Valid() && State() == Drain(old(State()))
    {
      ghost var all := sent + queued;
      DrainedBytes(sent, queued, stream, out);
      stream := stream + out;
      sent := all;
      out := [];
      queued := [];
    }

    method SendHeaders(status: u16, headers: seq<byte>)
      requires Valid() && !headersSent
      modifies this
      ensures Valid() && State() == Step(old(State()), Call.SendHeaders(status, headers))
    {
      PushFrame(Frame(ResponseHeaders, 0, id, status, headers));
      headersSent := true;
    }

    method SendBody(chunk: seq<byte>) returns (clientGone: bool)
      requires Valid() && headersSent && !endSent
      modifies this
      ensures Valid() && State() == Step(old(State()), Call.SendBody(chunk))
      ensures clientGone <==> old(aborted) || old(closed) || HoldsAbort(old(inbox), old(id))
      ensures !clientGone ==> |out| < 256 * 1024
    {
      PollSays(State());
      RefusedMeans(State());
      clientGone := PollControl();
      if !clientGone {
        PushFrame(BodyFrame(id, chunk));
        if |out| >= DRAIN_AT {
          DrainOut();
        }
      }
    }

    method SendFlush() returns (clientGone: bool)
      requires Valid() && headersSent && !endSent
      modifies this
      ensures Valid() && State() == Step(old(State()), Call.SendFlush)
      ensures clientGone <==> old(aborted) || old(closed) || HoldsAbort(old(inbox), old(id))
      ensures !clientGone ==> out == []
    {
      PollSays(State());
      RefusedMeans(State());
      clientGone := PollControl();
      if !clientGone {
        PushFrame(Bare(Flush, id));
        DrainOut();
      }
    }

    /** A liveness probe is answered at once. */
    method Reply(h: Head, status: u32)
      requires Valid()
      modifies this`stream, this`sent
      ensures Valid() && sent == old(sent) + Answer(h, status)
    {
      if h.Some? && h.value.kind.Ping? {
        Write(PongFrame(h.value.requestId, status));
      } else {
        assert sent + [] == sent;
      }
    }

    method PollControl() returns (gone: bool)
      requires Valid()
      modifies this
      ensures Valid() && State() == Poll(old(State())) && gone == aborted
      ensures gone <==> old(aborted) || old(closed) || HoldsAbort(old(inbox), old(id))
      ensures !old(aborted) ==> exists k :: Polled(old(State()), State(), k)
    {
      if aborted {
        return true;
      }
      ghost var s := State();
      while inbox != [] && !aborted
        invariant Valid() && Poll(State()) == Poll(s)
        decreases |inbox|
      {
        var h := inbox[0];
        inbox := inbox[1..];
        if AbortsUs(h, id) {
          aborted := true;
        } else {
          Reply(h, PONG_BUSY);
        }
      }
      if !aborted {
        aborted := closed;
      }
      RefusedMeans(s);
      ghost var k := PollExactly(s);
      return aborted;
    }

    method SendEnd()
      requires Valid()
      modifies this
      ensures Valid() && State() == EndStep(old(State()))
    {
      if !endSent {
        PushFrame(Bare(End, id));
        endSent := true;
      }
    }

    method Finish()
      requires Valid()
      modifies this
      ensures Valid() && State() == FinishStep(old(State()))
    {
      if doneSent {
        return;
      }
      SendEnd();
      PushFrame(Bare(Done, id));
      doneSent := true;
    }

    method FinishNow()
      requires Valid()
      modifies this
      ensures Valid() && State() == Step(old(State()), Call.FinishNow)
    {
      SendEnd();
      DrainOut();
    }

    method SendError(message: seq<byte>)
      requires Valid()
      modifies this
      ensures Valid() && State() == ErrorStep(old(State()), message)
    {
      PushFrame(Frame(FrameKind.Error, 0, id, 0, message));
      endSent := true;
      doneSent := true;
    }

    /** One call of the handler. */
    method Perform(c: Call)
      requires Valid() && Legal(State(), c)
      modifies this
      ensures Valid() && State() == Step(old(State()), c)
    {
      match c
      case SendHeaders(status, headers) => SendHeaders(status, headers);
      case SendBody(chunk) => var gone := SendBody(chunk);
      case SendFlush => var gone := SendFlush();
      case DoFinish => Finish();
      case FinishNow => FinishNow();
      case SendError(message) => SendError(message);
      case Arrive(heads, hangUp) =>
        if !closed {
          inbox := inbox + heads;
          closed := hangUp;
        }
    }

    /** The handler. */
    method Handle(calls: seq<Call>)
      requires Valid() && LegalCalls(State(), calls)
      modifies this
      ensures Valid() && State() == RunCalls(old(State()), calls)
    {
      ghost var b := State();
      for i := 0 to |calls|
        invariant Valid() && State() == RunCalls(b, calls[..i])
      {
        assert calls[..i + 1][..i] == calls[..i];
        assert Legal(RunCalls(b, calls[..i]), calls[i]);
        Perform(calls[i]);
      }
      assert calls[..|calls|] == calls;
    }

    /** A new request: Claim goes out at once, the buffer is cleared. */
    method Reset(request: u32)
      requires Valid()
      modifies this
      ensures Valid() && State() == Begin(old(State()), request)
    {
      Write(Bare(Claim, request));
      out, queued := [], [];
      id, headersSent, endSent, doneSent, aborted := request, false, false, false, false;
    }

    /** One request: Claim, the handler, its terminal frame, the rest of the response in a single write. */
    method ServeRequest(request: u32, script: Script)
      requires Valid() && LegalScript(State(), request, script)
      modifies this
      ensures Valid() && State() == Serve(old(State()), request, script)
    {
      Reset(request);
      Handle(script.calls);
      if script.ok {
        Finish();
      } else if !doneSent {
        SendError(HANDLER_FAILED);
      }
      DrainOut();
    }

    method AnswerIdleControl() returns (ok: bool)
      requires Valid()
      modifies this
      ensures Valid() && State() == IdlePoll(old(State())) && ok == !old(closed)
      ensures inbox == [] && Ponged(old(sent), sent, Probes(old(inbox)), 0)
    {
      ghost var s := State();
      while inbox != []
        invariant Valid() && closed == s.closed && IdlePoll(State()) == IdlePoll(s)
        decreases |inbox|
      {
        var h := inbox[0];
        inbox := inbox[1..];
        Reply(h, PONG_IDLE);
      }
      IdlePollExactly(s);
      return !closed;
    }
  }

  lemma {:induction false} OneFrame(f: Frame)
    ensures EncodeFrames([f]) == EncodeFrame(f)
  {
    assert [f][1..] == [] && EncodeFrames([]) == [];
  }

  /** The loop of `run` over whatever wakes it. */
  method Run(r: Responder, turns: seq<Turn>, maxRequests: nat) returns (alive: bool)
    requires r.Valid() && r.State() == Start().side && LegalTurns(turns, maxRequests)
    modifies r
    ensures r.Valid() && r.State() == RunTurns(turns, maxRequests).side
    ensures alive == RunTurns(turns, maxRequests).alive
    ensures HonoursGrant(r.sent, 1)
  {
    var served := 0;
    alive := true;
    for i := 0 to |turns|
      invariant r.Valid() && Loop(r.State(), served, alive) == RunTurns(turns[..i], maxRequests)
    {
      assert turns[..i + 1][..i] == turns[..i];
      if alive {
        assert LegalTurn(RunTurns(turns[..i], maxRequests), turns[i]);
        alive, served := TakeTurn(r, turns[i], served, maxRequests);
      }
    }
    assert turns[..|turns|] == turns;
    RunHonoursGrant(turns, maxRequests);
  }

  method TakeTurn(r: Responder, t: Turn, served: nat, maxRequests: nat) returns (alive: bool, count: nat)
    requires r.Valid() && LegalTurn(Loop(r.State(), served, true), t)
    modifies r
    ensures r.Valid() && Loop(r.State(), count, alive) == TurnStep(Loop(old(r.State()), served, true), t, maxRequests)
  {
    alive, count := true, served;
    match t
    case Control(heads, hangUp) =>
      r.Perform(Arrive(heads, hangUp));
      alive := r.AnswerIdleControl();
    case Datagram(data, script) =>
      match Judge(Received(data)) {
        case Ignore =>
        case Exit => alive := false;
        case Unreadable(id) =>
          r.Write(Bare(Claim, id));
          alive := false;
        case Take(id) =>
          r.ServeRequest(id, script);
          count := served + 1;
          alive := !(maxRequests > 0 && count >= maxRequests);
      }
  }
}
