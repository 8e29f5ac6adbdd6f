/** Both ends of the protocol together: what a handler sends is what the client's channel receives. */
module Compose {
  import opened Bytes
  import opened Frame
  import opened PoolState
  import opened PoolDemux
  import opened PoolPermits
  import opened PoolSweep
  import W = BlockingWorker

  /** The body bytes of a channel's events, put together. */
  function Chunks(evs: seq<Event>): seq<byte> {
    if evs == [] then []
    else
      var last := evs[|evs| - 1];
      Chunks(evs[..|evs| - 1]) + if last.EvChunk? then last.data else []
  }

  lemma {:induction false} ChunksMore(evs: seq<Event>, ev: Event)
    ensures Chunks(evs + [ev]) == Chunks(evs) + if ev.EvChunk? then ev.data else []
  {
    assert (evs + [ev])[..|evs|] == evs;
  }

  lemma {:induction false} ChunksAppend(a: seq<Event>, b: seq<Event>)
    ensures Chunks(a + b) == Chunks(a) + Chunks(b)
    decreases |b|
  {
    if |b| == 0 {
      assert a + b == a;
    } else {
      var before, ev := b[..|b| - 1], b[|b| - 1];
      ChunksAppend(a, before);
      ChunksAppendOne(a, before, ev);
      assert b == before + [ev];
    }
  }

  lemma {:induction false} ChunksAppendOne(a: seq<Event>, b: seq<Event>, ev: Event)
    requires Chunks(a + b) == Chunks(a) + Chunks(b)
    ensures Chunks(a + (b + [ev])) == Chunks(a) + Chunks(b + [ev])
  {
    ChunksMore(a + b, ev);
    ChunksMore(b, ev);
    assert a + (b + [ev]) == a + b + [ev];
    BytesRegrouped(Chunks(a), Chunks(b), if ev.EvChunk? then ev.data else []);
  }

  lemma {:induction false} BytesRegrouped(a: seq<byte>, b: seq<byte>, c: seq<byte>)
    ensures a + b + c == a + (b + c)
  {
  }

  lemma {:induction false} ChunksStart(a: seq<Event>, b: seq<Event>)
    requires a <= b
    ensures Chunks(a) <= Chunks(b)
  {
    assert b == a + b[|a|..];
    ChunksAppend(a, b[|a|..]);
  }

  ghost predicate BodiesFor(fs: seq<Frame>, id: u32) {
    forall i | 0 <= i < |fs| && fs[i].kind.ResponseBody? :: fs[i].id == id
  }

  /** The reader's translation keeps the bodies. */
  lemma {:induction false} ChunksAreBodies(fs: seq<Frame>, id: u32)
    requires BodiesFor(fs, id)
    ensures Chunks(Project(fs, id)) == W.Bodies(fs)
    decreases |fs|
  {
    if |fs| > 0 {
      var before, f := fs[..|fs| - 1], fs[|fs| - 1];
      assert fs == before + [f];
      ChunksAreBodies(before, id);
      OneMoreBody(before, f, id);
    }
  }

  lemma {:induction false} OneMoreBody(before: seq<Frame>, f: Frame, id: u32)
    requires Chunks(Project(before, id)) == W.Bodies(before) && (f.kind.ResponseBody? ==> f.id == id)
    ensures Chunks(Project(before + [f], id)) == W.Bodies(before + [f])
  {
    W.BodiesAppend(before, [f]);
    W.OneBody(f);
    ProjectGrows(before, f, id);
    if f.id == id && |Translate(f)| > 0 {
      assert Translate(f) == [Translate(f)[0]];
      ChunksMore(Project(before, id), Translate(f)[0]);
    } else {
      assert Project(before + [f], id) == Project(before, id);
    }
  }

  lemma {:induction false} BodiesIgnorePongs(fs: seq<Frame>)
    ensures W.Bodies(W.Plain(fs)) == W.Bodies(fs)
    decreases |fs|
  {
    if |fs| > 0 {
      var n := |fs| - 1;
      BodiesIgnorePongs(fs[..n]);
      var last := if fs[n].kind.Pong? then [] else [fs[n]];
      W.BodiesAppend(W.Plain(fs[..n]), last);
      if |last| > 0 {
        W.OneBody(fs[n]);
      }
    }
  }

  // --- what a handler's calls mean to the client ---

  /** The calls have ended the response. */
  predicate Ended(calls: seq<W.Call>) {
    exists i :: 0 <= i < |calls| && (calls[i].FinishNow? || calls[i].DoFinish? || calls[i].SendError?)
  }

  /** The calls have ended the request. */
  predicate Over(calls: seq<W.Call>) {
    exists i :: 0 <= i < |calls| && (calls[i].DoFinish? || calls[i].SendError?)
  }

  lemma {:induction false} EndedMore(calls: seq<W.Call>, c: W.Call)
    ensures Ended(calls + [c]) <==> Ended(calls) || c.FinishNow? || c.DoFinish? || c.SendError?
    ensures Over(calls + [c]) <==> Over(calls) || c.DoFinish? || c.SendError?
  {
    var more := calls + [c];
    assert more[|calls|] == c && forall i | 0 <= i < |calls| :: more[i] == calls[i];
  }

  lemma {:induction false} FlagsAreCalls(s: W.Side, calls: seq<W.Call>)
    requires W.Fresh(s) && W.LegalCalls(s, calls)
    ensures W.RunCalls(s, calls).endSent == Ended(calls) && W.RunCalls(s, calls).doneSent == Over(calls)
    decreases |calls|
  {
    if |calls| > 0 {
      var n := |calls| - 1;
      W.FewerLegalCalls(s, calls, n);
      FlagsAreCalls(s, calls[..n]);
      W.CallsTell(s, calls[..n]);
      FlagsAfter(s, calls[..n], W.RunCalls(s, calls[..n]), calls[n]);
      assert calls == calls[..n] + [calls[n]];
    }
  }

  lemma {:induction false} FlagsAfter(s: W.Side, before: seq<W.Call>, t: W.Side, c: W.Call)
    requires t.endSent == Ended(before) && t.doneSent == Over(before) && W.NoPongs(t.queued) && (t.doneSent ==> t.endSent)
    ensures W.Step(t, c).endSent == Ended(before + [c]) && W.Step(t, c).doneSent == Over(before + [c])
  {
    W.StepSays(t, c);
    EndedMore(before, c);
  }

  /** What the client is to get of a call that a handler, started in s, makes after the calls `before`. */
  function Means(s: W.Side, before: seq<W.Call>, c: W.Call): seq<Event> {
    match c
    case SendHeaders(status, headers) =>
      [EvHeaders(if status < 100 then 100 else if status <= 599 then status else 599, headers)]
    case SendBody(chunk) => if W.ClientGone(s, before) then [] else [EvChunk(chunk)]
    case SendFlush => if W.ClientGone(s, before) then [] else [EvFlush]
    case DoFinish => if Over(before) then [] else if Ended(before) then [EvEnd] else [EvEnd, EvEnd]
    case FinishNow => if Ended(before) then [] else [EvEnd]
    case SendError(_) => [EvFailed(WorkerFailed)]
    case Arrive(_, _) => []
  }

  function Meant(s: W.Side, calls: seq<W.Call>): seq<Event> {
    if calls == [] then []
    else
      var n := |calls| - 1;
      Meant(s, calls[..n]) + Means(s, calls[..n], calls[n])
  }

  /** The handler's calls and the one the loop makes after it. */
  function AllCalls(script: W.Script): seq<W.Call> {
    script.calls + [if script.ok || Over(script.calls) then W.DoFinish else W.SendError(W.HANDLER_FAILED)]
  }

  lemma {:induction false} ProjectAppend(a: seq<Frame>, b: seq<Frame>, id: u32)
    ensures Project(a + b, id) == Project(a, id) + Project(b, id)
    decreases |b|
  {
    if |b| == 0 {
      assert a + b == a;
    } else {
      var before, f := b[..|b| - 1], b[|b| - 1];
      ProjectAppend(a, before, id);
      ProjectAppendOne(a, before, f, id);
      assert b == before + [f];
    }
  }

  lemma {:induction false} ProjectAppendOne(a: seq<Frame>, b: seq<Frame>, f: Frame, id: u32)
    requires Project(a + b, id) == Project(a, id) + Project(b, id)
    ensures Project(a + (b + [f]), id) == Project(a, id) + Project(b + [f], id)
  {
    ProjectGrows(a + b, f, id);
    ProjectGrows(b, f, id);
    assert a + (b + [f]) == a + b + [f];
    Regrouped(Project(a, id), Project(b, id), if f.id == id then Translate(f) else []);
  }

  lemma {:induction false} Regrouped(a: seq<Event>, b: seq<Event>, c: seq<Event>)
    ensures a + b + c == a + (b + c)
  {
  }

  lemma {:induction false} ProjectStart(a: seq<Frame>, b: seq<Frame>, id: u32)
    requires a <= b
    ensures Project(a, id) <= Project(b, id)
  {
    assert b == a + b[|a|..];
    ProjectAppend(a, b[|a|..], id);
  }

  lemma {:induction false} ProjectOne(f: Frame, id: u32)
    ensures Project([f], id) == if f.id == id then Translate(f) else []
  {
    assert [f][..0] == [];
  }

  lemma {:induction false} ProjectTwo(f: Frame, g: Frame, id: u32)
    requires f.id == id && g.id == id
    ensures Project([f, g], id) == Translate(f) + Translate(g)
  {
    ProjectAppend([f], [g], id);
    ProjectOne(f, id);
    ProjectOne(g, id);
    assert [f] + [g] == [f, g];
  }

  lemma {:induction false} ProjectIgnoresPongs(fs: seq<Frame>, id: u32)
    ensures Project(W.Plain(fs), id) == Project(fs, id)
    decreases |fs|
  {
    if |fs| > 0 {
      var before, f := fs[..|fs| - 1], fs[|fs| - 1];
      ProjectIgnoresPongs(before, id);
      OneMoreOrPong(before, f, id);
      assert fs == before + [f];
    }
  }

  lemma {:induction false} OneMoreOrPong(before: seq<Frame>, f: Frame, id: u32)
    requires Project(W.Plain(before), id) == Project(before, id)
    ensures Project(W.Plain(before + [f]), id) == Project(before + [f], id)
  {
    W.PlainMore(before, f);
    ProjectGrows(before, f, id);
    if f.kind.Pong? {
      NothingMore(W.Plain(before), Project(before, id));
    } else {
      ProjectGrows(W.Plain(before), f, id);
    }
  }

  lemma {:induction false} NothingMore(fs: seq<Frame>, evs: seq<Event>)
    ensures fs + [] == fs && evs + [] == evs
  {
  }

  lemma {:induction false} FinishMeans(t: W.Side)
    ensures Project(W.Spoken(t, W.DoFinish), t.id)
         == if t.doneSent then [] else if t.endSent then [EvEnd] else [EvEnd, EvEnd]
  {
    ProjectTwo(Bare(End, t.id), Bare(Done, t.id), t.id);
    ProjectOne(Bare(Done, t.id), t.id);
    assert [] + [Bare(Done, t.id)] == [Bare(Done, t.id)];
    assert [Bare(End, t.id)] + [Bare(Done, t.id)] == [Bare(End, t.id), Bare(Done, t.id)];
  }

  /** The frames a call adds become what the call means. */
  lemma {:induction false} CallMeans(s: W.Side, before: seq<W.Call>, t: W.Side, c: W.Call)
    requires t.endSent == Ended(before) && t.doneSent == Over(before) && (W.Refused(t) <==> W.ClientGone(s, before))
    ensures Project(W.Spoken(t, c), t.id) == Means(s, before, c)
  {
    match c
    case DoFinish => FinishMeans(t);
    case FinishNow => ProjectOne(Bare(End, t.id), t.id);
    case Arrive(_, _) =>
    case _ =>
      if W.Spoken(t, c) != [] {
        ProjectOne(W.Spoken(t, c)[0], t.id);
      }
  }

  lemma {:induction false} CallsMean(s: W.Side, calls: seq<W.Call>, n: nat)
    requires W.Fresh(s) && W.LegalCalls(s, calls) && n <= |calls|
    ensures Project(W.SpokenBy(s, calls[..n]), s.id) == Meant(s, calls[..n])
    decreases n
  {
    if n == 0 {
      assert calls[..0] == [];
    } else {
      CallsMean(s, calls, n - 1);
      OneMoreMeant(s, calls, n);
    }
  }

  lemma {:induction false} OneMoreMeant(s: W.Side, calls: seq<W.Call>, n: nat)
    requires W.Fresh(s) && W.LegalCalls(s, calls) && 0 < n <= |calls|
    requires Project(W.SpokenBy(s, calls[..n - 1]), s.id) == Meant(s, calls[..n - 1])
    ensures Project(W.SpokenBy(s, calls[..n]), s.id) == Meant(s, calls[..n])
  {
    W.TakeOneLess(calls, n);
    W.FewerLegalCalls(s, calls, n - 1);
    MeantMore(s, calls[..n], calls[..n - 1]);
  }

  lemma {:induction false} MeantMore(s: W.Side, calls: seq<W.Call>, before: seq<W.Call>)
    requires W.Fresh(s) && |calls| > 0 && before == calls[..|calls| - 1] && W.LegalCalls(s, before)
    requires Project(W.SpokenBy(s, before), s.id) == Meant(s, before)
    ensures Project(W.SpokenBy(s, calls), s.id) == Meant(s, calls)
  {
    MeansNext(s, before, calls[|before|]);
    ProjectAppend(W.SpokenBy(s, before), W.Spoken(W.RunCalls(s, before), calls[|before|]), s.id);
  }

  lemma {:induction false} MeansNext(s: W.Side, before: seq<W.Call>, c: W.Call)
    requires W.Fresh(s) && W.LegalCalls(s, before)
    ensures Project(W.Spoken(W.RunCalls(s, before), c), s.id) == Means(s, before, c)
  {
    var t := W.RunCalls(s, before);
    FlagsAreCalls(s, before);
    W.RefusedExactly(s, before);
    W.CallsKeepId(s, before);
    CallMeans(s, before, t, c);
  }

  /** Over a whole request. */
  lemma {:induction false} RequestMeans(s: W.Side, id: u32, script: W.Script)
    requires W.LegalScript(s, id, script)
    ensures Project(W.Answered(s, id, script), id) == Meant(W.Begin(s, id), AllCalls(script))
  {
    var b := W.Begin(s, id);
    var calls, last := script.calls, W.Last(W.RunCalls(b, script.calls), script.ok);
    FlagsAreCalls(b, calls);
    CallsMean(b, calls, |calls|);
    assert calls[..|calls|] == calls;
    MeansNext(b, calls, last);
    ProjectAppend(W.SpokenBy(b, calls), W.Spoken(W.RunCalls(b, calls), last), id);
    assert AllCalls(script)[..|calls|] == calls;
  }

  /** The headers of the call, and its status or the nearer end of 100..599. */
  predicate FirstIs(ev: Event, c: W.Call)
    requires c.SendHeaders?
  {
    && ev.EvHeaders? && ev.headers == c.headers
    && (100 <= c.status <= 599 ==> ev.status == c.status)
    && (c.status < 100 ==> ev.status == 100) && (c.status > 599 ==> ev.status == 599)
  }

  /** A handler that begins with its headers, whatever arrives before, has them stand first. */
  lemma {:induction false} HeadersComeFirst(s: W.Side, calls: seq<W.Call>, k: nat)
    requires k < |calls| && calls[k].SendHeaders? && forall i | 0 <= i < k :: calls[i].Arrive?
    ensures |Meant(s, calls)| > 0 && FirstIs(Meant(s, calls)[0], calls[k])
    decreases |calls|
  {
    var n := |calls| - 1;
    if k < n {
      HeadersComeFirst(s, calls[..n], k);
    } else {
      NothingMeant(s, calls[..n]);
    }
  }

  lemma {:induction false} NothingMeant(s: W.Side, calls: seq<W.Call>)
    requires forall i | 0 <= i < |calls| :: calls[i].Arrive?
    ensures Meant(s, calls) == []
    decreases |calls|
  {
    if |calls| > 0 {
      NothingMeant(s, calls[..|calls| - 1]);
    }
  }

  // --- the wire only grows ---

  lemma {:induction false} PollGrows(s: W.Side)
    ensures s.sent <= W.Poll(s).sent
    decreases |s.inbox|
  {
    if !s.aborted && s.inbox != [] && !W.AbortsUs(s.inbox[0], s.id) {
      PollGrows(s.(inbox := s.inbox[1..], sent := s.sent + W.Answer(s.inbox[0], W.PONG_BUSY)));
    }
  }

  lemma {:induction false} IdlePollGrows(s: W.Side)
    ensures s.sent <= W.IdlePoll(s).sent
    decreases |s.inbox|
  {
    if s.inbox != [] {
      IdlePollGrows(s.(inbox := s.inbox[1..], sent := s.sent + W.Answer(s.inbox[0], W.PONG_IDLE)));
    }
  }

  lemma {:induction false} EarlyDrainGrows(s: W.Side)
    ensures s.sent <= W.EarlyDrain(s).sent
  {
  }

  lemma {:induction false} StepGrows(s: W.Side, c: W.Call)
    ensures s.sent <= W.Step(s, c).sent
  {
    match c
    case SendBody(chunk) =>
      PollGrows(s);
      EarlyDrainGrows(W.Push(W.Poll(s), W.BodyFrame(s.id, chunk)));
    case SendFlush => PollGrows(s);
    case _ =>
  }

  lemma {:induction false} CallsGrow(s: W.Side, calls: seq<W.Call>)
    ensures s.sent <= W.RunCalls(s, calls).sent
    decreases |calls|
  {
    if |calls| > 0 {
      var n := |calls| - 1;
      CallsGrow(s, calls[..n]);
      StepGrows(W.RunCalls(s, calls[..n]), calls[n]);
    }
  }

  lemma {:induction false} ServeGrows(s: W.Side, id: u32, script: W.Script)
    ensures s.sent + [Bare(Claim, id)] <= W.Serve(s, id, script).sent
  {
    var b := W.Begin(s, id);
    var t := W.RunCalls(b, script.calls);
    CallsGrow(b, script.calls);
    StepGrows(t, W.Last(t, script.ok));
  }

  lemma {:induction false} TurnGrows(l: W.Loop, t: W.Turn, maxRequests: nat)
    ensures l.side.sent <= W.TurnStep(l, t, maxRequests).side.sent
  {
    match t
    case Control(heads, hangUp) => IdlePollGrows(W.Arrived(l.side, heads, hangUp));
    case Datagram(data, script) =>
      match W.Judge(W.Received(data))
      case Take(id) => ServeGrows(l.side, id, script);
      case _ =>
  }

  lemma {:induction false} TurnsGrow(turns: seq<W.Turn>, maxRequests: nat, n: nat)
    requires n <= |turns|
    ensures W.RunTurns(turns[..n], maxRequests).side.sent <= W.RunTurns(turns, maxRequests).side.sent
    decreases |turns|
  {
    if n == |turns| {
      assert turns[..n] == turns;
    } else {
      var short := turns[..|turns| - 1];
      TurnsGrow(short, maxRequests, n);
      assert short[..n] == turns[..n];
      TurnGrows(W.RunTurns(short, maxRequests), turns[|turns| - 1], maxRequests);
    }
  }

  // --- one request's stretch of the wire ---

  /** Turn i is a request that the worker serves. */
  ghost predicate Serves(turns: seq<W.Turn>, maxRequests: nat, i: nat, id: u32) {
    && i < |turns| && W.RunTurns(turns[..i], maxRequests).alive
    && turns[i].Datagram? && W.Judge(W.Received(turns[i].data)) == W.Take(id)
  }

  function Before(turns: seq<W.Turn>, maxRequests: nat, i: nat): W.Side
    requires i <= |turns|
  {
    W.RunTurns(turns[..i], maxRequests).side
  }

  /** The chunks the handler of turn i got accepted. */
  function AcceptedIn(turns: seq<W.Turn>, maxRequests: nat, i: nat, id: u32): seq<byte>
    requires i < |turns| && turns[i].Datagram?
  {
    W.Accepted(W.Begin(Before(turns, maxRequests, i), id), turns[i].script.calls)
  }

  /** Neither an Abort for the request nor the end of the stream comes before the handler of turn i is done. */
  predicate StayedFor(turns: seq<W.Turn>, maxRequests: nat, i: nat, id: u32)
    requires i < |turns| && turns[i].Datagram?
  {
    !W.ClientGone(W.Begin(Before(turns, maxRequests, i), id), turns[i].script.calls)
  }

  /** What the client of turn i is to get. */
  function MeantIn(turns: seq<W.Turn>, maxRequests: nat, i: nat, id: u32): seq<Event>
    requires i < |turns| && turns[i].Datagram?
  {
    Meant(W.Begin(Before(turns, maxRequests, i), id), AllCalls(turns[i].script))
  }

  /** `rest` is what the wire carries between a Claim for id and the next turn of the worker's loop. */
  ghost predicate Stretch(rest: seq<Frame>, id: u32, body: seq<byte>) {
    W.Story(W.Plain(rest), id, true) && W.Bodies(W.Plain(rest)) == body && W.Tidy(W.Plain(rest))
  }

  lemma {:induction false} PlainCancels(before: seq<Frame>, id: u32, rest: seq<Frame>, fs: seq<Frame>)
    requires W.Plain(before + [Bare(Claim, id)] + rest) == W.Plain(before) + [Bare(Claim, id)] + fs
    ensures W.Plain(rest) == fs
  {
    W.PlainAppend(before + [Bare(Claim, id)], rest);
    W.PlainMore(before, Bare(Claim, id));
    var a, b, c := W.Plain(before) + [Bare(Claim, id)], W.Plain(rest), fs;
    assert a + b == a + c;
    assert (a + b)[|a|..] == b && (a + c)[|a|..] == c;
  }

  lemma {:induction false} StretchOfServe(s: W.Side, id: u32, script: W.Script) returns (rest: seq<Frame>)
    requires W.LegalScript(s, id, script)
    ensures Stretch(rest, id, W.Accepted(W.Begin(s, id), script.calls)) && W.Plain(rest) == W.Answered(s, id, script)
    ensures W.Serve(s, id, script).sent == s.sent + [Bare(Claim, id)] + rest
  {
    W.RequestStory(s, id, script);
    W.RequestBodies(s, id, script);
    W.RequestIsTidy(s, id, script);
    ServeGrows(s, id, script);
    rest := StretchBehind(s.sent, W.Serve(s, id, script).sent, id, W.Answered(s, id, script),
                          W.Accepted(W.Begin(s, id), script.calls));
  }

  /** What stands behind a Claim that a story follows. */
  lemma {:induction false} StretchBehind(before: seq<Frame>, sent: seq<Frame>, id: u32, fs: seq<Frame>, body: seq<byte>)
      returns (rest: seq<Frame>)
    requires before + [Bare(Claim, id)] <= sent && W.Plain(sent) == W.Plain(before) + [Bare(Claim, id)] + fs
    requires W.Story(fs, id, true) && W.Bodies(fs) == body && W.Tidy(fs)
    ensures Stretch(rest, id, body) && W.Plain(rest) == fs && sent == before + [Bare(Claim, id)] + rest
  {
    rest := sent[|before| + 1..];
    assert sent == before + [Bare(Claim, id)] + rest;
    PlainCancels(before, id, rest, fs);
  }

  /** The frames written for the request of turn i, after its Claim. */
  lemma {:induction false} StretchOf(turns: seq<W.Turn>, maxRequests: nat, i: nat, id: u32) returns (rest: seq<Frame>)
    requires W.LegalTurns(turns, maxRequests) && Serves(turns, maxRequests, i, id)
    ensures Stretch(rest, id, AcceptedIn(turns, maxRequests, i, id))
    ensures Project(rest, id) == MeantIn(turns, maxRequests, i, id)
    ensures Before(turns, maxRequests, i).sent + [Bare(Claim, id)] + rest <= W.RunTurns(turns, maxRequests).side.sent
  {
    assert W.LegalTurn(W.RunTurns(turns[..i], maxRequests), turns[i]);
    rest := StretchOfServe(Before(turns, maxRequests, i), id, turns[i].script);
    ProjectIgnoresPongs(rest, id);
    RequestMeans(Before(turns, maxRequests, i), id, turns[i].script);
    TurnIsServe(turns, maxRequests, i, id);
    TurnsGrow(turns, maxRequests, i + 1);
  }

  lemma {:induction false} TurnIsTaken(turns: seq<W.Turn>, maxRequests: nat, i: nat)
    requires i < |turns| && W.RunTurns(turns[..i], maxRequests).alive
    ensures W.RunTurns(turns[..i + 1], maxRequests)
         == W.TurnStep(W.RunTurns(turns[..i], maxRequests), turns[i], maxRequests)
  {
    var some := turns[..i + 1];
    assert some[..i] == turns[..i] && some[i] == turns[i] && |some| - 1 == i;
  }

  lemma {:induction false} TurnIsServe(turns: seq<W.Turn>, maxRequests: nat, i: nat, id: u32)
    requires Serves(turns, maxRequests, i, id)
    ensures W.RunTurns(turns[..i + 1], maxRequests).side == W.Serve(Before(turns, maxRequests, i), id, turns[i].script)
  {
    TurnIsTaken(turns, maxRequests, i);
  }

  lemma {:induction false} PlainKeepsFrame(fs: seq<Frame>, i: nat) returns (j: nat)
    requires i < |fs| && !fs[i].kind.Pong?
    ensures j < |W.Plain(fs)| && W.Plain(fs)[j] == fs[i]
  {
    assert fs == fs[..i] + [fs[i]] + fs[i + 1..];
    W.PlainAppend(fs[..i] + [fs[i]], fs[i + 1..]);
    W.PlainMore(fs[..i], fs[i]);
    j := |W.Plain(fs[..i])|;
  }

  lemma {:induction false} StretchBodies(rest: seq<Frame>, id: u32, body: seq<byte>)
    requires Stretch(rest, id, body)
    ensures BodiesFor(rest, id) && W.Bodies(rest) == body
  {
    BodiesIgnorePongs(rest);
    forall i | 0 <= i < |rest| && rest[i].kind.ResponseBody?
      ensures rest[i].id == id
    {
      var j := PlainKeepsFrame(rest, i);
      var fs := W.Plain(rest);
      assert j < |fs| - 1 ==> W.Response(fs[..|fs| - 1][j], id);
    }
  }

  lemma {:induction false} PlainUpTo(rest: seq<Frame>, k: nat)
    requires 0 < k <= |rest| && !rest[k - 1].kind.Pong?
    ensures var fs, j := W.Plain(rest), |W.Plain(rest[..k - 1])|;
      j < |fs| && fs[j] == rest[k - 1] && W.Plain(rest[..k]) == fs[..j + 1]
  {
    assert rest[..k] == rest[..k - 1] + [rest[k - 1]];
    W.PlainMore(rest[..k - 1], rest[k - 1]);
    W.PlainPrefix(rest, k);
  }

  lemma {:induction false} OnlyLastEnds(fs: seq<Frame>, id: u32, j: nat)
    requires W.Story(fs, id, true) && j < |fs| && W.Ends(fs[j])
    ensures j == |fs| - 1
  {
    assert j < |fs| - 1 ==> W.Response(fs[..|fs| - 1][j], id);
  }

  /** Up to its terminal frame a stretch carries the whole body. */
  lemma {:induction false} PlainWhole(rest: seq<Frame>, id: u32, k: nat)
    requires W.Story(W.Plain(rest), id, true) && 0 < k <= |rest| && Terminal(rest[k - 1], id)
    ensures W.Plain(rest[..k]) == W.Plain(rest)
  {
    PlainUpTo(rest, k);
    OnlyLastEnds(W.Plain(rest), id, |W.Plain(rest[..k - 1])|);
  }

  lemma {:induction false} StretchEnds(rest: seq<Frame>, id: u32, body: seq<byte>)
    requires Stretch(rest, id, body)
    ensures !Calm(rest, id)
  {
    var fs := W.Plain(rest);
    PlainFrameIsThere(rest, |fs| - 1);
  }

  lemma {:induction false} PlainFrameIsThere(fs: seq<Frame>, j: nat)
    requires j < |W.Plain(fs)|
    ensures exists i :: 0 <= i < |fs| && fs[i] == W.Plain(fs)[j]
    decreases |fs|
  {
    var n := |fs| - 1;
    if j < |W.Plain(fs[..n])| {
      PlainFrameIsThere(fs[..n], j);
      var i :| 0 <= i < n && fs[..n][i] == W.Plain(fs[..n])[j];
      assert fs[i] == W.Plain(fs)[j];
    } else {
      assert fs[n] == W.Plain(fs)[j];
    }
  }

  // --- what the client gets ---

  /** A finished claim record covers its request's stretch up to the terminal frame and no further. */
  lemma {:induction false} FinishedWithin(fs: seq<Frame>, rest: seq<Frame>, id: u32, body: seq<byte>, k: nat)
    requires Stretch(rest, id, body) && (fs <= rest || rest <= fs)
    requires 0 < k <= |fs| && Terminal(fs[k - 1], id) && Calm(fs[..k - 1], id)
    ensures k <= |rest| && fs[..k] == rest[..k] && Terminal(rest[k - 1], id)
  {
    StretchEnds(rest, id, body);
    var i :| 0 <= i < |rest| && Terminal(rest[i], id);
    assert forall j | 0 <= j < k - 1 && j < |rest| :: fs[..k - 1][j] == rest[j];
    assert k <= |rest|;
    assert fs[..k] == rest[..k] && rest[k - 1] == fs[k - 1];
  }

  /** Up to its terminal frame a stretch stands for all its events. */
  lemma {:induction false} EventsUpToEnd(rest: seq<Frame>, id: u32, k: nat)
    requires W.Story(W.Plain(rest), id, true) && 0 < k <= |rest| && Terminal(rest[k - 1], id)
    ensures Project(rest[..k], id) == Project(rest, id)
  {
    PlainWhole(rest, id, k);
    ProjectIgnoresPongs(rest[..k], id);
    ProjectIgnoresPongs(rest, id);
  }

  lemma {:induction false} StretchChunks(rest: seq<Frame>, id: u32, body: seq<byte>)
    requires Stretch(rest, id, body)
    ensures Chunks(Project(rest, id)) == body
  {
    StretchBodies(rest, id, body);
    ChunksAreBodies(rest, id);
  }

  lemma {:induction false} FinishedGetsAll(fs: seq<Frame>, rest: seq<Frame>, id: u32, body: seq<byte>, k: nat)
    requires Stretch(rest, id, body) && (fs <= rest || rest <= fs)
    requires 0 < k <= |fs| && Terminal(fs[k - 1], id) && Calm(fs[..k - 1], id)
    ensures Project(fs[..k], id) == Project(rest, id) && Chunks(Project(fs[..k], id)) == body
  {
    FinishedWithin(fs, rest, id, body, k);
    EventsUpToEnd(rest, id, k);
    StretchChunks(rest, id, body);
  }

  lemma {:induction false} UnfinishedGetsPrefix(fs: seq<Frame>, rest: seq<Frame>, id: u32, body: seq<byte>)
    requires Stretch(rest, id, body) && (fs <= rest || rest <= fs) && Calm(fs, id)
    ensures Project(fs, id) <= Project(rest, id)
  {
    StretchEnds(rest, id, body);
    var i :| 0 <= i < |rest| && Terminal(rest[i], id);
    assert forall j | 0 <= j < |fs| && j < |rest| :: fs[j] == rest[j];
    assert fs <= rest;
    ProjectStart(fs, rest, id);
  }

  /** Reading what has arrived of the wire gives a prefix of the frames written, up to the first one over the limit. */
  lemma {:induction false} HeardIsSent(sent: seq<Frame>, arrived: seq<byte>)
    requires OversizedShows(sent) && arrived <= EncodeFrames(sent)
    ensures DecodeFrames(arrived) <= UpToOversized(sent) <= sent
  {
    var wire := EncodeFrames(sent);
    ReadUpToOversized(sent);
    UpToOversizedIsPrefix(sent);
    DecodedFramesGrow(arrived, wire[|arrived|..]);
    assert wire == arrived + wire[|arrived|..];
  }

  /** The blocking worker behind stream k of the pool: the reader has heard some of what arrived of its wire. */
  ghost predicate Connected(t: Trace, k: nat, turns: seq<W.Turn>, maxRequests: nat, arrived: seq<byte>) {
    var sent := W.RunTurns(turns, maxRequests).side.sent;
    && k < |t.streams| && t.streams[k] <= DecodeFrames(arrived) && arrived <= EncodeFrames(sent)
    && OversizedShows(sent)
  }

  /** The channel of a claim record has the events in order: some of them while the request runs, all of them once it is
      finished; those of a lost reader's request may have one failure behind them. */
  ghost predicate EventsArrived(cl: ClaimRecord, ch: Channel, all: seq<Event>) {
    match cl.fate
    case Live => ch.sent <= all
    case Finished(_) => ch.sent == all
    case Gone(_, told) =>
      if told then ch.sent != [] && ch.sent[|ch.sent| - 1] == EvFailed(WorkerFailed) && ch.sent[..|ch.sent| - 1] <= all
      else ch.sent <= all
  }

  /** The end-to-end statement for one claim record. */
  ghost predicate Delivered(cl: ClaimRecord, ch: Channel, body: seq<byte>) {
    Chunks(ch.sent) <= body && (cl.fate.Finished? ==> Chunks(ch.sent) == body)
  }

  /** The slices of a finished record, counted from behind its Claim. */
  lemma {:induction false} FromClaim(all: seq<Frame>, start: nat, end: nat)
    requires start + 1 < end <= |all|
    ensures var fs, k := all[start + 1..], end - start - 1;
      all[start + 1..end] == fs[..k] && all[start + 1..end - 1] == fs[..k - 1] && all[end - 1] == fs[k - 1]
  {
  }

  lemma {:induction false} FinishedDelivers(ch: Channel, all: seq<Frame>, start: nat, end: nat, rest: seq<Frame>, id: u32,
                                            body: seq<byte>)
    requires Stretch(rest, id, body) && start + 1 < end <= |all|
    requires var fs := all[start + 1..]; fs <= rest || rest <= fs
    requires Terminal(all[end - 1], id) && Calm(all[start + 1..end - 1], id)
    requires ch.sent == Project(all[start + 1..end], id)
    ensures ch.sent == Project(rest, id)
  {
    FromClaim(all, start, end);
    FinishedGetsAll(all[start + 1..], rest, id, body, end - start - 1);
  }

  /** What a claim record that starts at a stretch says about its channel. */
  lemma {:induction false} RecordDelivers(cl: ClaimRecord, ch: Channel, streams: seq<seq<Frame>>, rest: seq<Frame>,
                                          id: u32, body: seq<byte>)
    requires RecordOk(cl, ch, streams) && Stretch(rest, id, body) && cl.id == id
    requires var fs := streams[cl.stream][cl.start + 1..]; fs <= rest || rest <= fs
    ensures EventsArrived(cl, ch, Project(rest, id))
  {
    var all := streams[cl.stream];
    match cl.fate
    case Live => UnfinishedGetsPrefix(all[cl.start + 1..], rest, id, body);
    case Finished(end) => FinishedDelivers(ch, all, cl.start, end, rest, id, body);
    case Gone(end, told) =>
      ToTheEnd(all, cl.start + 1, end);
      UnfinishedGetsPrefix(all[cl.start + 1..], rest, id, body);
      GoneDelivers(cl, ch, Project(all[cl.start + 1..], id), Project(rest, id));
  }

  lemma {:induction false} ToTheEnd(fs: seq<Frame>, a: nat, end: nat)
    requires a <= end == |fs|
    ensures fs[a..end] == fs[a..]
  {
  }

  lemma {:induction false} GoneDelivers(cl: ClaimRecord, ch: Channel, evs: seq<Event>, all: seq<Event>)
    requires cl.fate.Gone? && evs <= all && ch.sent == evs + if cl.fate.told then [EvFailed(WorkerFailed)] else []
    ensures EventsArrived(cl, ch, all)
  {
    assert evs + [] == evs && (evs + [EvFailed(WorkerFailed)])[..|evs|] == evs;
  }

  lemma {:induction false} EventsDeliver(cl: ClaimRecord, ch: Channel, all: seq<Event>)
    requires EventsArrived(cl, ch, all)
    ensures Delivered(cl, ch, Chunks(all))
  {
    if cl.fate.Gone? && cl.fate.told {
      var evs := ch.sent[..|ch.sent| - 1];
      ChunksMore(evs, EvFailed(WorkerFailed));
      assert ch.sent == evs + [EvFailed(WorkerFailed)];
      ChunksStart(evs, all);
    } else {
      ChunksStart(ch.sent, all);
    }
  }

  /** The claim record of channel c is that of the request which turn i of the worker behind its stream served. */
  ghost predicate Joined(t: Trace, c: nat, turns: seq<W.Turn>, maxRequests: nat, arrived: seq<byte>, i: nat, id: u32) {
    && W.LegalTurns(turns, maxRequests) && Serves(turns, maxRequests, i, id) && c in t.claims
    && Connected(t, t.claims[c].stream, turns, maxRequests, arrived)
    && t.claims[c].start == |Before(turns, maxRequests, i).sent|
  }

  /** What the reader has heard after the Claim and what the worker wrote after it: one begins the other. */
  lemma {:induction false} HeardAndWritten(t: Trace, c: nat, turns: seq<W.Turn>, maxRequests: nat, arrived: seq<byte>,
                                           i: nat, id: u32) returns (rest: seq<Frame>)
    requires Faithful(t) && Joined(t, c, turns, maxRequests, arrived, i, id)
    ensures Stretch(rest, id, AcceptedIn(turns, maxRequests, i, id)) && t.claims[c].id == id
    ensures c < |t.channels| && RecordOk(t.claims[c], t.channels[c], t.streams)
    ensures Project(rest, id) == MeantIn(turns, maxRequests, i, id)
    ensures var fs := t.streams[t.claims[c].stream][t.claims[c].start + 1..]; fs <= rest || rest <= fs
  {
    var cl := t.claims[c];
    StreamIsSent(t, cl.stream, turns, maxRequests, arrived);
    RecordIsOk(t, c);
    rest := StretchOf(turns, maxRequests, i, id);
    BehindTheClaim(cl, t.channels[c], t.streams, W.RunTurns(turns, maxRequests).side.sent,
                   Before(turns, maxRequests, i).sent, rest, id);
  }

  lemma {:induction false} StreamIsSent(t: Trace, k: nat, turns: seq<W.Turn>, maxRequests: nat, arrived: seq<byte>)
    requires Connected(t, k, turns, maxRequests, arrived)
    ensures k < |t.streams| && t.streams[k] <= W.RunTurns(turns, maxRequests).side.sent
  {
    HeardIsSent(W.RunTurns(turns, maxRequests).side.sent, arrived);
  }

  lemma {:induction false} RecordIsOk(t: Trace, c: nat)
    requires Faithful(t) && c in t.claims
    ensures c < |t.channels| && RecordOk(t.claims[c], t.channels[c], t.streams)
  {
  }

  lemma {:induction false} BehindTheClaim(cl: ClaimRecord, ch: Channel, streams: seq<seq<Frame>>, sent: seq<Frame>,
                                          head: seq<Frame>, rest: seq<Frame>, id: u32)
    requires RecordOk(cl, ch, streams) && streams[cl.stream] <= sent && cl.start == |head|
    requires head + [Bare(Claim, id)] + rest <= sent
    ensures cl.id == id
    ensures var fs := streams[cl.stream][cl.start + 1..]; fs <= rest || rest <= fs
  {
    TwoPrefixes(streams[cl.stream], sent, head, Bare(Claim, id), rest);
  }

  /** In every fair pool run and every run of the worker behind one of its streams, event by event: the channel of the
      request that turn i of the worker served has received a prefix of what the calls of its handler mean, and all of it
      once the request is finished. So it is with the chunks the handler got accepted, which are all it sent if neither
      an Abort for the request nor the end of the stream came before it was done. */
  lemma {:induction false} EndToEnd(cfg: Config, actions: seq<Action>, turns: seq<W.Turn>, maxRequests: nat,
                                    arrived: seq<byte>, c: nat, i: nat, id: u32)
    requires FairRun(cfg, actions) && SmallRun(cfg, actions)
    requires Joined(Run(cfg, actions).trace, c, turns, maxRequests, arrived, i, id)
    ensures var t := Run(cfg, actions).trace;
      && c < |t.channels| && EventsArrived(t.claims[c], t.channels[c], MeantIn(turns, maxRequests, i, id))
      && Delivered(t.claims[c], t.channels[c], AcceptedIn(turns, maxRequests, i, id))
    ensures StayedFor(turns, maxRequests, i, id) ==> AcceptedIn(turns, maxRequests, i, id) == W.AllBodies(turns[i].script.calls)
  {
    var t := Run(cfg, actions).trace;
    RunKeepsDemux(cfg, actions);
    var rest := HeardAndWritten(t, c, turns, maxRequests, arrived, i, id);
    RecordDelivers(t.claims[c], t.channels[c], t.streams, rest, id, AcceptedIn(turns, maxRequests, i, id));
    EventsDeliver(t.claims[c], t.channels[c], Project(rest, id));
    StretchChunks(rest, id, AcceptedIn(turns, maxRequests, i, id));
    if StayedFor(turns, maxRequests, i, id) {
      W.AllAccepted(W.Begin(Before(turns, maxRequests, i), id), turns[i].script.calls);
    }
  }

  /** A handler that began with its headers has them, with the status limited to 100..599, as its channel's first event,
      unless the worker was lost before they were heard. */
  lemma {:induction false} HeadersArriveFirst(cfg: Config, actions: seq<Action>, turns: seq<W.Turn>, maxRequests: nat,
                                              arrived: seq<byte>, c: nat, i: nat, id: u32, k: nat)
    requires FairRun(cfg, actions) && SmallRun(cfg, actions)
    requires Joined(Run(cfg, actions).trace, c, turns, maxRequests, arrived, i, id)
    requires var calls := turns[i].script.calls;
      k < |calls| && calls[k].SendHeaders? && forall j | 0 <= j < k :: calls[j].Arrive?
    requires c < |Run(cfg, actions).trace.channels|
    ensures var cl, evs := Run(cfg, actions).trace.claims[c], Run(cfg, actions).trace.channels[c].sent;
      && (cl.fate.Finished? ==> |evs| > 0)
      && (|evs| > 0 ==> FirstIs(evs[0], turns[i].script.calls[k]) || (cl.fate.Gone? && evs == [EvFailed(WorkerFailed)]))
  {
    EndToEnd(cfg, actions, turns, maxRequests, arrived, c, i, id);
    var b := W.Begin(Before(turns, maxRequests, i), id);
    var calls := AllCalls(turns[i].script);
    assert forall j | 0 <= j <= k :: calls[j] == turns[i].script.calls[j];
    HeadersComeFirst(b, calls, k);
    FirstOfAll(Run(cfg, actions).trace.claims[c], Run(cfg, actions).trace.channels[c], Meant(b, calls));
  }

  lemma {:induction false} FirstOfAll(cl: ClaimRecord, ch: Channel, all: seq<Event>)
    requires EventsArrived(cl, ch, all) && |all| > 0
    ensures cl.fate.Finished? ==> |ch.sent| > 0
    ensures |ch.sent| > 0 ==> ch.sent[0] == all[0] || (cl.fate.Gone? && ch.sent == [EvFailed(WorkerFailed)])
  {
    if cl.fate.Gone? && cl.fate.told && |ch.sent| > 1 {
      assert ch.sent[..|ch.sent| - 1][0] == ch.sent[0];
    }
  }

  // --- every claim has its turn ---

  /** Turn i claims a request whose payload it cannot read, and the worker exits. */
  ghost predicate GivesUp(turns: seq<W.Turn>, maxRequests: nat, i: nat, id: u32) {
    && i < |turns| && W.RunTurns(turns[..i], maxRequests).alive
    && turns[i].Datagram? && W.Judge(W.Received(turns[i].data)) == W.Unreadable(id)
  }

  /** Turn i begins at place p of the wire with a Claim for the id. */
  ghost predicate ClaimsAt(turns: seq<W.Turn>, maxRequests: nat, i: nat, id: u32, p: nat) {
    && (Serves(turns, maxRequests, i, id) || GivesUp(turns, maxRequests, i, id))
    && p == |Before(turns, maxRequests, i).sent|
  }

  lemma {:induction false} NoClaimInPongs(fs: seq<Frame>, p: nat)
    requires W.Plain(fs) == [] && p < |fs|
    ensures !fs[p].kind.Claim?
  {
    if !fs[p].kind.Pong? {
      var j := PlainKeepsFrame(fs, p);
    }
  }

  lemma {:induction false} NoClaimInStory(fs: seq<Frame>, id: u32, p: nat)
    requires W.Story(W.Plain(fs), id, true) && p < |fs|
    ensures !fs[p].kind.Claim?
  {
    if !fs[p].kind.Pong? {
      var j := PlainKeepsFrame(fs, p);
      var all := W.Plain(fs);
      assert j < |all| - 1 ==> W.Response(all[..|all| - 1][j], id);
    }
  }

  lemma {:induction false} PlainTail(a: seq<Frame>, b: seq<Frame>)
    requires a <= b && W.Plain(b) == W.Plain(a)
    ensures W.Plain(b[|a|..]) == []
  {
    assert b == a + b[|a|..];
    W.PlainAppend(a, b[|a|..]);
  }

  lemma {:induction false} ControlClaimsNothing(l: W.Loop, t: W.Turn, maxRequests: nat, p: nat)
    requires t.Control?
    requires var sent := W.TurnStep(l, t, maxRequests).side.sent; |l.side.sent| <= p < |sent|
    ensures !W.TurnStep(l, t, maxRequests).side.sent[p].kind.Claim?
  {
    var before, after := l.side.sent, W.TurnStep(l, t, maxRequests).side.sent;
    TurnGrows(l, t, maxRequests);
    W.IdlePollSays(W.Arrived(l.side, t.heads, t.hangUp));
    PlainTail(before, after);
    NoClaimInPongs(after[|before|..], p - |before|);
  }

  lemma {:induction false} ServeClaimsFirst(s: W.Side, id: u32, script: W.Script, p: nat)
    requires W.LegalScript(s, id, script)
    requires var sent := W.Serve(s, id, script).sent; |s.sent| <= p < |sent| && sent[p].kind.Claim?
    ensures p == |s.sent| && W.Serve(s, id, script).sent[p].id == id
  {
    var rest := StretchOfServe(s, id, script);
    if p > |s.sent| {
      NoClaimInStory(rest, id, p - |s.sent| - 1);
    }
  }

  /** A Claim among the frames that a turn adds is the first of them. */
  lemma {:induction false} TurnClaimsFirst(l: W.Loop, t: W.Turn, maxRequests: nat, p: nat)
    requires W.LegalTurn(l, t)
    requires var sent := W.TurnStep(l, t, maxRequests).side.sent; |l.side.sent| <= p < |sent| && sent[p].kind.Claim?
    ensures t.Datagram? && p == |l.side.sent|
    ensures var id := W.TurnStep(l, t, maxRequests).side.sent[p].id;
      W.Judge(W.Received(t.data)) == W.Take(id) || W.Judge(W.Received(t.data)) == W.Unreadable(id)
  {
    match t
    case Control(heads, hangUp) => ControlClaimsNothing(l, t, maxRequests, p);
    case Datagram(data, script) =>
      match W.Judge(W.Received(data))
      case Take(id) => ServeClaimsFirst(l.side, id, script, p);
      case _ =>
  }

  lemma {:induction false} ClaimHasTurn(turns: seq<W.Turn>, maxRequests: nat, p: nat) returns (i: nat)
    requires W.LegalTurns(turns, maxRequests)
    requires var sent := W.RunTurns(turns, maxRequests).side.sent; p < |sent| && sent[p].kind.Claim?
    ensures ClaimsAt(turns, maxRequests, i, W.RunTurns(turns, maxRequests).side.sent[p].id, p)
    decreases |turns|
  {
    var n := |turns| - 1;
    var l := W.RunTurns(turns[..n], maxRequests);
    TurnsGrow(turns, maxRequests, n);
    if p < |l.side.sent| {
      W.FewerTurns(turns, maxRequests, n);
      i := ClaimHasTurn(turns[..n], maxRequests, p);
      assert turns[..n][..i] == turns[..i];
    } else {
      i := n;
      assert W.LegalTurn(l, turns[n]);
      TurnClaimsFirst(l, turns[n], maxRequests, p);
    }
  }

  lemma {:induction false} DeadStays(turns: seq<W.Turn>, maxRequests: nat, n: nat)
    requires n <= |turns| && !W.RunTurns(turns[..n], maxRequests).alive
    ensures W.RunTurns(turns, maxRequests) == W.RunTurns(turns[..n], maxRequests)
    decreases |turns|
  {
    if n == |turns| {
      assert turns[..n] == turns;
    } else {
      var m := |turns| - 1;
      assert turns[..m][..n] == turns[..n];
      DeadStays(turns[..m], maxRequests, n);
    }
  }

  lemma {:induction false} GivingUp(l: W.Loop, t: W.Turn, maxRequests: nat, id: u32)
    requires t.Datagram? && W.Judge(W.Received(t.data)) == W.Unreadable(id)
    ensures var m := W.TurnStep(l, t, maxRequests); m.side.sent == l.side.sent + [Bare(Claim, id)] && !m.alive
  {
  }

  /** After a Claim for what it cannot read the worker says nothing more. */
  lemma {:induction false} GaveUpThere(turns: seq<W.Turn>, maxRequests: nat, i: nat, id: u32)
    requires GivesUp(turns, maxRequests, i, id)
    ensures |W.RunTurns(turns, maxRequests).side.sent| == |Before(turns, maxRequests, i).sent| + 1
  {
    TurnIsTaken(turns, maxRequests, i);
    GivingUp(W.RunTurns(turns[..i], maxRequests), turns[i], maxRequests, id);
    DeadStays(turns, maxRequests, i + 1);
  }

  lemma {:induction false} NothingAfterClaim(cl: ClaimRecord, ch: Channel, streams: seq<seq<Frame>>)
    requires RecordOk(cl, ch, streams) && |streams[cl.stream]| == cl.start + 1
    ensures Chunks(ch.sent) == [] && !cl.fate.Finished?
  {
    var fs := streams[cl.stream];
    assert fs[cl.start + 1..] == [] && Project([], cl.id) == [];
    if cl.fate.Gone? {
      assert fs[cl.start + 1..cl.fate.end] == [];
      if cl.fate.told {
        ChunksMore([], EvFailed(WorkerFailed));
        assert [] + [EvFailed(WorkerFailed)] == [EvFailed(WorkerFailed)];
      }
    }
  }

  /** Nothing has to be known of which request a claim is for: in every fair pool run, every claim heard from a
      connected worker is that of a request which some turn served, and its channel has what EndToEnd says, or of one
      whose payload the worker could not read, and its channel has no chunk and is never finished. */
  lemma {:induction false} EveryClaimDelivers(cfg: Config, actions: seq<Action>, turns: seq<W.Turn>, maxRequests: nat,
                                              arrived: seq<byte>, c: nat) returns (i: nat, id: u32)
    requires FairRun(cfg, actions) && SmallRun(cfg, actions) && W.LegalTurns(turns, maxRequests)
    requires var t := Run(cfg, actions).trace;
      c in t.claims && Connected(t, t.claims[c].stream, turns, maxRequests, arrived)
    ensures var t := Run(cfg, actions).trace;
      c < |t.channels| && t.claims[c].id == id && ClaimsAt(turns, maxRequests, i, id, t.claims[c].start)
    ensures var t := Run(cfg, actions).trace;
      if Serves(turns, maxRequests, i, id)
      then EventsArrived(t.claims[c], t.channels[c], MeantIn(turns, maxRequests, i, id))
           && Delivered(t.claims[c], t.channels[c], AcceptedIn(turns, maxRequests, i, id))
      else Chunks(t.channels[c].sent) == [] && !t.claims[c].fate.Finished?
  {
    var t := Run(cfg, actions).trace;
    RunKeepsDemux(cfg, actions);
    i, id := TurnOfClaim(t, c, turns, maxRequests, arrived);
    if Serves(turns, maxRequests, i, id) {
      EndToEnd(cfg, actions, turns, maxRequests, arrived, c, i, id);
    } else {
      NothingHeardAfter(t, c, turns, maxRequests, arrived, i, id);
    }
  }

  lemma {:induction false} TurnOfClaim(t: Trace, c: nat, turns: seq<W.Turn>, maxRequests: nat, arrived: seq<byte>)
      returns (i: nat, id: u32)
    requires Faithful(t) && c in t.claims && W.LegalTurns(turns, maxRequests)
    requires Connected(t, t.claims[c].stream, turns, maxRequests, arrived)
    ensures t.claims[c].id == id && ClaimsAt(turns, maxRequests, i, id, t.claims[c].start)
  {
    var cl := t.claims[c];
    assert RecordOk(cl, t.channels[c], t.streams);
    var sent := W.RunTurns(turns, maxRequests).side.sent;
    HeardIsSent(sent, arrived);
    assert sent[cl.start] == t.streams[cl.stream][cl.start];
    i := ClaimHasTurn(turns, maxRequests, cl.start);
    id := cl.id;
  }

  lemma {:induction false} NothingHeardAfter(t: Trace, c: nat, turns: seq<W.Turn>, maxRequests: nat, arrived: seq<byte>,
                                             i: nat, id: u32)
    requires Faithful(t) && c in t.claims && Connected(t, t.claims[c].stream, turns, maxRequests, arrived)
    requires GivesUp(turns, maxRequests, i, id) && t.claims[c].start == |Before(turns, maxRequests, i).sent|
    ensures c < |t.channels| && Chunks(t.channels[c].sent) == [] && !t.claims[c].fate.Finished?
  {
    assert RecordOk(t.claims[c], t.channels[c], t.streams);
    HeardIsSent(W.RunTurns(turns, maxRequests).side.sent, arrived);
    GaveUpThere(turns, maxRequests, i, id);
    NothingAfterClaim(t.claims[c], t.channels[c], t.streams);
  }

  lemma {:induction false} TwoPrefixes(fs: seq<Frame>, sent: seq<Frame>, head: seq<Frame>, claim: Frame, rest: seq<Frame>)
    requires fs <= sent && head + [claim] + rest <= sent && |head| < |fs|
    ensures fs[|head|] == claim
    ensures var after := fs[|head| + 1..]; after <= rest || rest <= after
  {
    assert sent[|head|] == claim;
    var after, all := fs[|head| + 1..], sent[|head| + 1..];
    assert after <= all;
    assert rest <= all;
  }

  /** Such a worker is never taken for one that claims beyond its grant. */
  lemma {:induction false} BlockingWorkerIsNeverKilledForClaiming(cfg: Config, actions: seq<Action>, w: nat, f: Frame,
                                                                  turns: seq<W.Turn>, maxRequests: nat)
    requires FairRun(cfg, actions) && SmallRun(cfg, actions) && W.LegalTurns(turns, maxRequests)
    requires var s := Run(cfg, actions);
      && w in s.crew.readers && w in s.crew.workers && s.crew.readers[w].stream < |s.trace.streams|
      && s.crew.workers[w].granted >= 1
      && s.trace.streams[s.crew.readers[w].stream] + [f] <= W.RunTurns(turns, maxRequests).side.sent
    ensures var s := Run(cfg, actions); w in s.crew.readers && !TurnFor(s.crew, w, f).OverClaim?
  {
    var s := Run(cfg, actions);
    var sent := W.RunTurns(turns, maxRequests).side.sent;
    var heard := s.trace.streams[s.crew.readers[w].stream] + [f];
    W.RunHonoursGrant(turns, maxRequests);
    forall n | 0 <= n <= |heard|
      ensures |OpenClaims(heard[..n])| <= s.crew.workers[w].granted
    {
      assert heard[..n] == sent[..n];
    }
    HonestWorkerNeverOverClaims(cfg, actions, w, f);
  }
}
