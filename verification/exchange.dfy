/** A whole exchange: a request submitted, sent, served by the blocking worker and heard to its end. */
module Exchange {
  import opened Bytes
  import opened Frame
  import opened PoolState
  import opened PoolDemux
  import opened PoolPermits
  import opened PoolRuns
  import opened Compose
  import Request
  import W = BlockingWorker

  // --- the pool's side ---

  /** The request is submitted and sent, and a worker with a grant of one has come up. */
  function Opened(cfg: Config): State {
    State(Table(map[1 := Pending(0, None, None, false, None)], 2, 1),
          Permits(cfg.queueMax - 1, 0, map[], map[0 := 1]),
          Crew(map[0 := Worker(7, 1, false, 0)], map[0 := Reader(0, {})], 1, [], {}, {}),
          Trace([Channel([], 0)], [[]], map[]), 0)
  }

  lemma {:induction false} OpenedIsReached(cfg: Config, at: (seq<Action>, State) -> bool)
    requires OneWorkerFits(cfg) && GoesOn(cfg, true, at) && at([], Init(cfg))
    ensures at([] + [Reserve] + [Submit] + [Sent(0)] + [Join(0, 7, 1)], Opened(cfg))
  {
    SubmittedIsReached(cfg, true, at);
    var sent := Next(cfg, Submitted(cfg), Sent(0));
    Onward(cfg, true, at, [] + [Reserve] + [Submit], Submitted(cfg), Sent(0));
    assert Next(cfg, sent, Join(0, 7, 1)) == Opened(cfg);
    Onward(cfg, true, at, [] + [Reserve] + [Submit] + [Sent(0)], sent, Join(0, 7, 1));
  }

  /** The worker is at work on the request, and has been heard this far. */
  ghost predicate InHand(s: State, heard: seq<Frame>) {
    && s.crew.readers == map[0 := Reader(0, {1})] && s.crew.workers == map[0 := Worker(7, 1, false, 0)]
    && 1 in s.table.pending && s.table.pending[1].channel == 0
    && |s.trace.channels| == 1 && s.trace.streams == [heard]
    && s.trace.claims == map[0 := ClaimRecord(0, 0, 1, 0, Live)]
  }

  /** The request is finished. */
  ghost predicate Through(s: State, heard: seq<Frame>) {
    && s.crew.readers == map[0 := Reader(0, {})] && s.crew.workers == map[0 := Worker(7, 1, false, 0)]
    && |s.trace.channels| == 1 && s.trace.streams == [heard]
    && 0 in s.trace.claims && s.trace.claims[0].stream == 0 && s.trace.claims[0].start == 0
    && s.trace.claims[0].fate.Finished?
  }

  lemma {:induction false} ClaimHeard(cfg: Config)
    ensures InHand(Next(cfg, Opened(cfg), Hear(0, Bare(Claim, 1), {})), [Bare(Claim, 1)])
  {
    assert TurnFor(Opened(cfg).crew, 0, Bare(Claim, 1)).TakeClaim?;
    assert [] + [Bare(Claim, 1)] == [Bare(Claim, 1)];
  }

  lemma {:induction false} MoreHeard(cfg: Config, s: State, heard: seq<Frame>, f: Frame)
    requires InHand(s, heard) && (f.kind.Pong? || W.Response(f, 1))
    ensures InHand(Next(cfg, s, Hear(0, f, {})), heard + [f])
  {
  }

  lemma {:induction false} EndHeard(cfg: Config, s: State, heard: seq<Frame>, f: Frame)
    requires InHand(s, heard) && Terminal(f, 1)
    ensures Through(Next(cfg, s, Hear(0, f, {})), heard + [f])
  {
    assert TurnFor(s.crew, 0, f).Free?;
    var none: set<u32> := {1} - {1};
    assert none == {};
  }

  lemma {:induction false} PongHeard(cfg: Config, s: State, heard: seq<Frame>, f: Frame)
    requires Through(s, heard) && f.kind.Pong?
    ensures Through(Next(cfg, s, Hear(0, f, {})), heard + [f])
  {
  }

  // --- the worker's frames ---

  /** What stands behind the Claim: response frames, one terminal frame, and answers to probes anywhere. */
  ghost predicate OneStory(rest: seq<Frame>) {
    forall i | 0 <= i < |rest| ::
      (rest[i].kind.Pong? || W.Response(rest[i], 1) || Terminal(rest[i], 1))
      && (Terminal(rest[i], 1) ==> OnlyPongs(rest[i + 1..]))
  }

  ghost predicate OnlyPongs(fs: seq<Frame>) {
    forall i | 0 <= i < |fs| :: fs[i].kind.Pong?
  }

  lemma {:induction false} NothingPlain(fs: seq<Frame>)
    requires W.Plain(fs) == []
    ensures OnlyPongs(fs)
  {
    forall i | 0 <= i < |fs|
      ensures fs[i].kind.Pong?
    {
      if !fs[i].kind.Pong? {
        var j := PlainKeepsFrame(fs, i);
      }
    }
  }

  lemma {:induction false} StoryAt(rest: seq<Frame>, i: nat)
    requires W.Story(W.Plain(rest), 1, true) && i < |rest|
    ensures rest[i].kind.Pong? || W.Response(rest[i], 1) || Terminal(rest[i], 1)
    ensures Terminal(rest[i], 1) ==> OnlyPongs(rest[i + 1..])
  {
    if !rest[i].kind.Pong? {
      var fs := W.Plain(rest);
      var j := PlainKeepsFrame(rest, i);
      assert j < |fs| - 1 ==> W.Response(fs[..|fs| - 1][j], 1);
      if Terminal(rest[i], 1) {
        PlainWhole(rest, 1, i + 1);
        PlainTail(rest[..i + 1], rest);
        NothingPlain(rest[i + 1..]);
      }
    }
  }

  lemma {:induction false} StretchIsOneStory(rest: seq<Frame>, body: seq<byte>)
    requires Stretch(rest, 1, body)
    ensures OneStory(rest) && !Calm(rest, 1)
  {
    StretchEnds(rest, 1, body);
    forall i | 0 <= i < |rest|
      ensures rest[i].kind.Pong? || W.Response(rest[i], 1) || Terminal(rest[i], 1)
      ensures Terminal(rest[i], 1) ==> OnlyPongs(rest[i + 1..])
    {
      StoryAt(rest, i);
    }
  }

  // --- heard to the end ---

  lemma {:induction false} CalmSoFar(rest: seq<Frame>, n: nat)
    requires OneStory(rest) && n < |rest|
    ensures Calm(rest[..n + 1], 1) <==> Calm(rest[..n], 1) && !Terminal(rest[n], 1)
    ensures !Calm(rest[..n], 1) ==> rest[n].kind.Pong?
  {
    assert forall i | 0 <= i < n :: rest[..n + 1][i] == rest[..n][i] == rest[i];
    assert rest[..n + 1][n] == rest[n];
    if !Calm(rest[..n], 1) {
      var i :| 0 <= i < n && Terminal(rest[..n][i], 1);
      assert rest[i + 1..][n - i - 1] == rest[n];
    }
  }

  ghost predicate HeardTo(s: State, rest: seq<Frame>, n: nat)
    requires n <= |rest|
  {
    if Calm(rest[..n], 1) then InHand(s, [Bare(Claim, 1)] + rest[..n]) else Through(s, [Bare(Claim, 1)] + rest[..n])
  }

  lemma {:induction false} OneMoreHeard(cfg: Config, s: State, rest: seq<Frame>, n: nat)
    requires OneStory(rest) && n < |rest| && HeardTo(s, rest, n)
    ensures HeardTo(Next(cfg, s, Hear(0, rest[n], {})), rest, n + 1)
  {
    var heard := [Bare(Claim, 1)] + rest[..n];
    CalmSoFar(rest, n);
    assert [Bare(Claim, 1)] + rest[..n + 1] == heard + [rest[n]];
    if !Calm(rest[..n], 1) {
      PongHeard(cfg, s, heard, rest[n]);
    } else if Terminal(rest[n], 1) {
      EndHeard(cfg, s, heard, rest[n]);
    } else {
      MoreHeard(cfg, s, heard, rest[n]);
    }
  }

  lemma {:induction false} AllHeard(cfg: Config, at: (seq<Action>, State) -> bool, rest: seq<Frame>, n: nat)
      returns (actions: seq<Action>, s: State)
    requires OneWorkerFits(cfg) && GoesOn(cfg, true, at) && at([], Init(cfg)) && OneStory(rest) && n <= |rest|
    ensures at(actions, s) && HeardTo(s, rest, n)
    decreases n
  {
    if n == 0 {
      OpenedIsReached(cfg, at);
      ClaimHeard(cfg);
      var opening := [] + [Reserve] + [Submit] + [Sent(0)] + [Join(0, 7, 1)];
      s := Next(cfg, Opened(cfg), Hear(0, Bare(Claim, 1), {}));
      Onward(cfg, true, at, opening, Opened(cfg), Hear(0, Bare(Claim, 1), {}));
      actions := opening + [Hear(0, Bare(Claim, 1), {})];
      assert rest[..0] == [] && [Bare(Claim, 1)] + [] == [Bare(Claim, 1)];
    } else {
      var before, t := AllHeard(cfg, at, rest, n - 1);
      OneMoreHeard(cfg, t, rest, n - 1);
      s := Next(cfg, t, Hear(0, rest[n - 1], {}));
      assert !rest[n - 1].kind.Claim?;
      Onward(cfg, true, at, before, t, Hear(0, rest[n - 1], {}));
      actions := before + [Hear(0, rest[n - 1], {})];
    }
  }

  /** The one turn of the worker's loop. */
  function OneTurn(payload: seq<byte>, script: W.Script): seq<W.Turn> {
    [W.Datagram(EncodeFrame(Frame(FrameKind.Request, 0, 1, 0, payload)), script)]
  }

  /** A payload that fits a datagram and can be read, and a handler whose calls are legal and whose frames the reader
      takes. */
  ghost predicate Servable(payload: seq<byte>, script: W.Script) {
    && Request.Parse(payload).Ok? && |payload| + 16 <= 256 * 1024 && W.LegalScript(W.Start().side, 1, script)
    && forall f | f in W.Serve(W.Start().side, 1, script).sent :: Sendable(f)
  }

  lemma {:induction false} OneTurnServes(payload: seq<byte>, script: W.Script, maxRequests: nat)
    requires Servable(payload, script)
    ensures var turns := OneTurn(payload, script);
      && Serves(turns, maxRequests, 0, 1) && W.LegalTurns(turns, maxRequests) && Before(turns, maxRequests, 0) == W.Start().side
      && W.RunTurns(turns, maxRequests).side == W.Serve(W.Start().side, 1, script)
  {
    var turns := OneTurn(payload, script);
    W.DatagramIsJudged(Frame(FrameKind.Request, 0, 1, 0, payload));
    assert turns[..0] == [] && turns[..1] == turns;
    TurnIsServe(turns, maxRequests, 0, 1);
  }

  lemma {:induction false} ReadWhole(sent: seq<Frame>)
    requires forall f | f in sent :: Sendable(f)
    ensures OversizedShows(sent) && DecodeFrames(EncodeFrames(sent)) == sent
  {
    FramesRoundTrip(sent, []);
    assert EncodeFrames(sent) + [] == EncodeFrames(sent) && sent + DecodeFrames([]) == sent;
    NoneOversized(sent);
  }

  lemma {:induction false} NoneOversized(fs: seq<Frame>)
    requires forall f | f in fs :: Sendable(f)
    ensures OversizedShows(fs)
    decreases |fs|
  {
    if |fs| > 0 {
      NoneOversized(fs[1..]);
    }
  }

  /** For every handler there is a fair run in which a request is submitted, sent, claimed, served and heard to its end:
      it finishes, and its channel holds exactly what the handler's calls mean. So what is proved of such pairs of runs
      is proved of something. */
  lemma {:induction false} WholeExchange(cfg: Config, payload: seq<byte>, script: W.Script, maxRequests: nat)
      returns (actions: seq<Action>)
    requires OneWorkerFits(cfg) && Servable(payload, script)
    ensures FairRun(cfg, actions) && SmallRun(cfg, actions)
    ensures var t, turns := Run(cfg, actions).trace, OneTurn(payload, script);
      && Joined(t, 0, turns, maxRequests, EncodeFrames(W.RunTurns(turns, maxRequests).side.sent), 0, 1)
      && |t.channels| == 1 && t.claims[0].fate.Finished?
      && t.channels[0].sent == Meant(W.Begin(W.Start().side, 1), AllCalls(script))
  {
    var turns := OneTurn(payload, script);
    OneTurnServes(payload, script, maxRequests);
    var sent := W.Serve(W.Start().side, 1, script).sent;
    var rest := StretchOfServe(W.Start().side, 1, script);
    assert sent == [Bare(Claim, 1)] + rest;
    StretchIsOneStory(rest, W.Accepted(W.Begin(W.Start().side, 1), script.calls));
    RunsGoOn(cfg, true);
    var s;
    actions, s := AllHeard(cfg, RunsTo(cfg, true), rest, |rest|);
    assert rest[..|rest|] == rest;
    ReadWhole(sent);
    EndToEnd(cfg, actions, turns, maxRequests, EncodeFrames(sent), 0, 0, 1);
  }

  // --- an ordinary answer ---

  function BodyCalls(chunks: seq<seq<byte>>): seq<W.Call> {
    seq(|chunks|, i requires 0 <= i < |chunks| => W.SendBody(chunks[i]))
  }

  function ChunkEvents(chunks: seq<seq<byte>>): seq<Event> {
    seq(|chunks|, i requires 0 <= i < |chunks| => EvChunk(chunks[i]))
  }

  /** Headers, any number of chunks, and a handler that returns well. */
  function Plainly(status: u16, headers: seq<byte>, chunks: seq<seq<byte>>): W.Script {
    W.Script([W.SendHeaders(status, headers)] + BodyCalls(chunks), true)
  }

  /** Its calls are legal. */
  lemma {:induction false} PlainAnswerIsLegal(s: W.Side, status: u16, headers: seq<byte>, chunks: seq<seq<byte>>)
    requires W.Fresh(s)
    ensures W.LegalCalls(s, Plainly(status, headers, chunks).calls)
  {
    var calls := Plainly(status, headers, chunks).calls;
    forall i | 0 <= i < |calls|
      ensures W.Legal(W.RunCalls(s, calls[..i]), calls[i])
    {
      AfterChunks(s, status, headers, chunks, i);
    }
  }

  /** While the client stays they mean the headers, the chunks one by one, and the end. */
  lemma {:induction false} PlainAnswerMeans(s: W.Side, status: u16, headers: seq<byte>, chunks: seq<seq<byte>>)
    requires W.Fresh(s) && !s.closed && !W.HoldsAbort(s.inbox, s.id) && 100 <= status <= 599
    ensures Meant(s, AllCalls(Plainly(status, headers, chunks)))
         == [EvHeaders(status, headers)] + ChunkEvents(chunks) + [EvEnd, EvEnd]
  {
    var calls := Plainly(status, headers, chunks).calls;
    ChunksMean(s, status, headers, chunks, |chunks|);
    assert calls[..|chunks| + 1] == calls && ChunkEvents(chunks)[..|chunks|] == ChunkEvents(chunks);
    assert !Ended(calls) && !Over(calls);
    FinishBehind(s, calls);
  }

  lemma {:induction false} FinishBehind(s: W.Side, calls: seq<W.Call>)
    requires !Ended(calls) && !Over(calls)
    ensures Meant(s, calls + [W.DoFinish]) == Meant(s, calls) + [EvEnd, EvEnd]
  {
    assert (calls + [W.DoFinish])[..|calls|] == calls;
  }

  lemma {:induction false} OneChunkMore(s: W.Side, c: W.Call)
    requires c.SendHeaders? || c.SendBody?
    ensures var t := W.Step(s, c);
      t.headersSent == (s.headersSent || c.SendHeaders?) && t.endSent == s.endSent && t.doneSent == s.doneSent
  {
    if c.SendBody? {
      W.PollSays(s);
    }
  }

  lemma {:induction false} AfterChunks(s: W.Side, status: u16, headers: seq<byte>, chunks: seq<seq<byte>>, n: nat)
    requires W.Fresh(s) && n <= |Plainly(status, headers, chunks).calls|
    ensures var t := W.RunCalls(s, Plainly(status, headers, chunks).calls[..n]);
      t.headersSent == (n > 0) && !t.endSent && !t.doneSent
    decreases n
  {
    var calls := Plainly(status, headers, chunks).calls;
    if n > 0 {
      AfterChunks(s, status, headers, chunks, n - 1);
      OneChunkMore(W.RunCalls(s, calls[..n - 1]), calls[n - 1]);
      assert calls[..n][..n - 1] == calls[..n - 1];
    } else {
      assert calls[..0] == [];
    }
  }

  lemma {:induction false} ChunksMean(s: W.Side, status: u16, headers: seq<byte>, chunks: seq<seq<byte>>, n: nat)
    requires W.Fresh(s) && !s.closed && !W.HoldsAbort(s.inbox, s.id) && 100 <= status <= 599 && n <= |chunks|
    ensures Meant(s, Plainly(status, headers, chunks).calls[..n + 1]) == [EvHeaders(status, headers)] + ChunkEvents(chunks)[..n]
    decreases n
  {
    var calls := Plainly(status, headers, chunks).calls;
    assert !W.ClientGone(s, calls[..n]);
    if n > 0 {
      ChunksMean(s, status, headers, chunks, n - 1);
      OneMoreChunk(status, headers, chunks, n);
      OneChunkMeans(s, calls[..n], chunks[n - 1]);
    } else {
      assert calls[..1] == [W.SendHeaders(status, headers)] && calls[..1][..0] == [];
    }
  }

  lemma {:induction false} OneMoreChunk(status: u16, headers: seq<byte>, chunks: seq<seq<byte>>, n: nat)
    requires 0 < n <= |chunks|
    ensures var calls := Plainly(status, headers, chunks).calls; calls[..n + 1] == calls[..n] + [W.SendBody(chunks[n - 1])]
    ensures [EvHeaders(status, headers)] + ChunkEvents(chunks)[..n]
         == [EvHeaders(status, headers)] + ChunkEvents(chunks)[..n - 1] + [EvChunk(chunks[n - 1])]
  {
  }

  lemma {:induction false} OneChunkMeans(s: W.Side, calls: seq<W.Call>, chunk: seq<byte>)
    requires !W.ClientGone(s, calls)
    ensures Meant(s, calls + [W.SendBody(chunk)]) == Meant(s, calls) + [EvChunk(chunk)]
  {
    assert (calls + [W.SendBody(chunk)])[..|calls|] == calls;
  }
}
