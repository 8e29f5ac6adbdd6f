/** From the handler to the HTTP client: the pool, the channel and the framing together. */
module Delivery {
  import opened Bytes
  import opened Frame
  import opened PoolState
  import opened PoolDemux
  import opened PoolPermits
  import opened Compose
  import W = BlockingWorker
  import H = HttpResponse

  /** The events of a channel as they arrive, none of them late. */
  function Arrivals(evs: seq<Event>): (r: seq<H.Arrival>)
    ensures |r| == |evs|
  {
    seq(|evs|, i requires 0 <= i < |evs| => H.Ev(evs[i]))
  }

  lemma {:induction false} ArrivalsPrefix(evs: seq<Event>, n: nat)
    requires n <= |evs|
    ensures Arrivals(evs)[..n] == Arrivals(evs[..n])
  {
  }

  lemma {:induction false} PayloadIsChunks(evs: seq<Event>)
    ensures H.Payload(Arrivals(evs)) == Chunks(evs)
    decreases |evs|
  {
    if |evs| > 0 {
      var n := |evs| - 1;
      ArrivalsPrefix(evs, n);
      PayloadIsChunks(evs[..n]);
    }
  }

  /** No chunk comes after the first end, and nothing fails. */
  ghost predicate Orderly(evs: seq<Event>) {
    && (forall j | 0 <= j < |evs| :: !evs[j].EvFailed?)
    && (forall i, j | 0 <= i < j < |evs| && evs[i].EvEnd? :: !evs[j].EvChunk?)
  }

  ghost predicate Ended(evs: seq<Event>) {
    exists i :: 0 <= i < |evs| && evs[i].EvEnd?
  }

  lemma {:induction false} NoMoreChunks(evs: seq<Event>, n: nat)
    requires n <= |evs| && forall j | n <= j < |evs| :: !evs[j].EvChunk?
    ensures Chunks(evs[..n]) == Chunks(evs)
    decreases |evs|
  {
    if n == |evs| {
      assert evs[..n] == evs;
    } else {
      var short := evs[..|evs| - 1];
      NoMoreChunks(short, n);
      assert short[..n] == evs[..n];
    }
  }

  /** A response of orderly events is recovered whole, whichever framing it gets, exactly if the client reads a body or
      there is none. */
  lemma {:induction false} OrderlyIsReceived(evs: seq<Event>, s: H.Sent, bodyless: bool)
    requires Orderly(evs) && Ended(evs) && H.Right(Arrivals(evs), s)
    ensures H.Received(s, bodyless) == Some(Chunks(evs)) <==> !bodyless || Chunks(evs) == []
  {
    var arrivals := Arrivals(evs);
    var t := H.EndIndex(arrivals);
    var i :| 0 <= i < |evs| && evs[i].EvEnd?;
    assert H.IsEnd(arrivals[i]);
    assert t <= i && evs[t].EvEnd? && H.EndOf(arrivals) == H.Ev(EvEnd);
    ArrivalsPrefix(evs, t);
    PayloadIsChunks(evs[..t]);
    NoMoreChunks(evs, t);
    H.RecoveredExactly(arrivals, s, bodyless);
  }

  // --- the channel of a tidy request ---

  /** All frames are the request's own, or become no event. */
  ghost predicate OwnFrames(fs: seq<Frame>, id: u32) {
    forall i | 0 <= i < |fs| && Translate(fs[i]) != [] :: fs[i].id == id
  }

  ghost predicate NoErrors(fs: seq<Frame>) {
    forall i | 0 <= i < |fs| :: !fs[i].kind.Error?
  }

  /** The frames before the terminal one make orderly events, with an end among them exactly if there is an End. */
  lemma {:induction false} TidyIsOrderly(fs: seq<Frame>, id: u32)
    requires W.Tidy(fs) && OwnFrames(fs, id) && NoErrors(fs) && (forall i | 0 <= i < |fs| :: !fs[i].kind.Done?)
    ensures Orderly(Project(fs, id)) && (Ended(Project(fs, id)) <==> W.HasEnd(fs))
    decreases |fs|
  {
    if |fs| > 0 {
      var before, f := fs[..|fs| - 1], fs[|fs| - 1];
      TidyIsOrderly(before, id);
      var evs := Project(before, id);
      assert Project(fs, id) == evs + if f.id == id then Translate(f) else [];
      if f.id == id && |Translate(f)| > 0 {
        OneMoreEvent(evs, Translate(f)[0]);
        assert Translate(f) == [Translate(f)[0]];
      } else {
        assert Project(fs, id) == evs;
      }
    }
  }

  lemma {:induction false} OneMoreEvent(evs: seq<Event>, e: Event)
    requires Orderly(evs) && !e.EvFailed? && (Ended(evs) ==> !e.EvChunk?)
    ensures Orderly(evs + [e]) && (Ended(evs + [e]) <==> Ended(evs) || e.EvEnd?)
  {
    var more := evs + [e];
    assert more[|evs|] == e;
    if Ended(evs) {
      var i :| 0 <= i < |evs| && evs[i].EvEnd?;
      assert more[i].EvEnd?;
    }
    if Ended(more) {
      var i :| 0 <= i < |more| && more[i].EvEnd?;
      assert i < |evs| ==> evs[i].EvEnd?;
    }
  }

  lemma {:induction false} BeforeTheEnd(rest: seq<Frame>, id: u32, n: nat)
    requires n <= |rest| && W.Tidy(rest) && OwnFrames(rest, id) && Calm(rest[..n], id)
    ensures Orderly(Project(rest[..n], id))
  {
    var before := rest[..n];
    W.TidyPrefix(rest, n);
    forall i | 0 <= i < n
      ensures !before[i].kind.Done? && !before[i].kind.Error?
    {
      assert !Terminal(before[i], id) && rest[i] == before[i];
      assert Translate(rest[i]) != [] ==> rest[i].id == id;
    }
    TidyIsOrderly(before, id);
  }

  /** The stretch of a request that ended with Done, up to that frame. */
  lemma {:induction false} DoneIsOrderly(rest: seq<Frame>, id: u32, body: seq<byte>, k: nat)
    requires Stretch(rest, id, body) && 0 < k <= |rest| && rest[k - 1].kind.Done? && Terminal(rest[k - 1], id)
    requires Calm(rest[..k - 1], id)
    ensures Orderly(Project(rest[..k], id)) && Ended(Project(rest[..k], id))
  {
    W.TidyIgnoresPongs(rest);
    StretchIsOwn(rest, id, body);
    BeforeTheEnd(rest, id, k - 1);
    assert rest[..k] == rest[..k - 1] + [rest[k - 1]];
    ProjectGrows(rest[..k - 1], rest[k - 1], id);
    OneMoreEvent(Project(rest[..k - 1], id), EvEnd);
  }

  lemma {:induction false} StretchIsOwn(rest: seq<Frame>, id: u32, body: seq<byte>)
    requires Stretch(rest, id, body)
    ensures OwnFrames(rest, id)
  {
    forall i | 0 <= i < |rest| && Translate(rest[i]) != []
      ensures rest[i].id == id
    {
      var j := PlainKeepsFrame(rest, i);
      var fs := W.Plain(rest);
      assert j < |fs| - 1 ==> W.Response(fs[..|fs| - 1][j], id);
    }
  }

  lemma {:induction false} OrderlyTail(evs: seq<Event>)
    requires Orderly(evs) && Ended(evs) && |evs| > 0 && evs[0].EvHeaders?
    ensures Orderly(evs[1..]) && Ended(evs[1..]) && Chunks(evs[1..]) == Chunks(evs)
  {
    var tail := evs[1..];
    var i :| 0 <= i < |evs| && evs[i].EvEnd?;
    assert tail[i - 1].EvEnd?;
    HeadersCarryNoBody(evs);
  }

  lemma {:induction false} HeadersCarryNoBody(evs: seq<Event>)
    requires |evs| > 0 && !evs[0].EvChunk?
    ensures Chunks(evs[1..]) == Chunks(evs)
    decreases |evs|
  {
    var n := |evs| - 1;
    if n > 0 {
      HeadersCarryNoBody(evs[..n]);
      assert evs[..n][1..] == evs[1..][..n - 1];
    } else {
      assert evs[1..] == [] && evs[..0] == [];
    }
  }

  /** Everything together. In every fair pool run, for a request that the worker behind its stream served and ended
      with Done, whose response began with headers that ask for no upgrade: however the router frames the events of its
      channel, the HTTP client recovers exactly the chunks that the handler got accepted, if and only if its request and
      the status let the answer have a body or there were none. That is every chunk the handler sent, if neither an Abort
      for the request nor the end of the stream came before it was done. */
  lemma {:induction false} ClientGetsTheBody(cfg: Config, actions: seq<Action>, turns: seq<W.Turn>, maxRequests: nat,
                                             arrived: seq<byte>, c: nat, i: nat, id: u32, s: H.Sent, asked: H.Asked)
    requires FairRun(cfg, actions) && SmallRun(cfg, actions)
    requires Joined(Run(cfg, actions).trace, c, turns, maxRequests, arrived, i, id)
    requires var t := Run(cfg, actions).trace; c < |t.channels| && FinishedWithDone(t, c)
    requires var evs := Run(cfg, actions).trace.channels[c].sent;
      |evs| > 0 && evs[0].EvHeaders? && evs[0].status != 101 && H.Right(Arrivals(evs[1..]), s)
    ensures var t, body := Run(cfg, actions).trace, AcceptedIn(turns, maxRequests, i, id);
      var bodyless := H.Bodyless(asked, t.channels[c].sent[0].status);
      H.Received(s, bodyless) == Some(body) <==> !bodyless || body == []
    ensures StayedFor(turns, maxRequests, i, id) ==> AcceptedIn(turns, maxRequests, i, id) == W.AllBodies(turns[i].script.calls)
  {
    var t := Run(cfg, actions).trace;
    EndToEnd(cfg, actions, turns, maxRequests, arrived, c, i, id);
    RunKeepsDemux(cfg, actions);
    var rest := HeardAndWritten(t, c, turns, maxRequests, arrived, i, id);
    DoneDelivers(t, c, rest, id, AcceptedIn(turns, maxRequests, i, id));
    OrderlyTail(t.channels[c].sent);
    OrderlyIsReceived(t.channels[c].sent[1..], s, H.Bodyless(asked, t.channels[c].sent[0].status));
  }

  ghost predicate FinishedWithDone(t: Trace, c: nat) {
    && c in t.claims && t.claims[c].fate.Finished? && t.claims[c].stream < |t.streams|
    && 0 < t.claims[c].fate.end <= |t.streams[t.claims[c].stream]|
    && t.streams[t.claims[c].stream][t.claims[c].fate.end - 1].kind.Done?
  }

  lemma {:induction false} DoneWithin(fs: seq<Frame>, rest: seq<Frame>, id: u32, body: seq<byte>, k: nat)
    requires Stretch(rest, id, body) && (fs <= rest || rest <= fs) && 0 < k <= |fs|
    requires Terminal(fs[k - 1], id) && Calm(fs[..k - 1], id) && fs[k - 1].kind.Done?
    ensures var evs := Project(fs[..k], id); Orderly(evs) && Ended(evs) && Chunks(evs) == body
  {
    FinishedWithin(fs, rest, id, body, k);
    FinishedGetsAll(fs, rest, id, body, k);
    assert fs[..k][..k - 1] == fs[..k - 1] && rest[..k][..k - 1] == rest[..k - 1];
    assert rest[k - 1] == rest[..k][k - 1] == fs[..k][k - 1];
    DoneIsOrderly(rest, id, body, k);
  }

  lemma {:induction false} DoneDelivers(t: Trace, c: nat, rest: seq<Frame>, id: u32, body: seq<byte>)
    requires c < |t.channels| && FinishedWithDone(t, c) && RecordOk(t.claims[c], t.channels[c], t.streams)
    requires Stretch(rest, id, body) && t.claims[c].id == id
    requires var fs := t.streams[t.claims[c].stream][t.claims[c].start + 1..]; fs <= rest || rest <= fs
    ensures Orderly(t.channels[c].sent) && Ended(t.channels[c].sent) && Chunks(t.channels[c].sent) == body
  {
    var cl := t.claims[c];
    var all := t.streams[cl.stream];
    FromClaim(all, cl.start, cl.fate.end);
    DoneWithin(all[cl.start + 1..], rest, id, body, cl.fate.end - cl.start - 1);
  }
}
