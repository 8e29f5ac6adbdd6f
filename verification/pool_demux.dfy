/** Demultiplexing: what an event channel carries is the translation of its claimer's frames. */
module PoolDemux {
  import opened Bytes
  import opened Frame
  import opened PoolState
  import opened PoolBooks
  import opened PoolPermits

  /** The events the frames for `id` stand for, in order. */
  function Project(fs: seq<Frame>, id: u32): seq<Event> {
    if fs == [] then []
    else
      var last := fs[|fs| - 1];
      Project(fs[..|fs| - 1], id) + if last.id == id then Translate(last) else []
  }

  /** No frame ends the request. */
  ghost predicate Calm(fs: seq<Frame>, id: u32) {
    forall i | 0 <= i < |fs| :: !Terminal(fs[i], id)
  }

  /** The channel of a claimed request carries exactly the translation of the frames its claimer sent for its
      id between the claim and its end, and after a lost reader at most one failure. */
  ghost predicate RecordOk(cl: ClaimRecord, ch: Channel, streams: seq<seq<Frame>>) {
    && cl.stream < |streams| && cl.start < |streams[cl.stream]|
    && var fs := streams[cl.stream];
    && fs[cl.start].kind.Claim? && fs[cl.start].id == cl.id
    && match cl.fate
       case Live => Calm(fs[cl.start + 1..], cl.id) && ch.sent == Project(fs[cl.start + 1..], cl.id)
       case Finished(end) =>
         && cl.start + 1 < end <= |fs|
         && Terminal(fs[end - 1], cl.id) && Calm(fs[cl.start + 1..end - 1], cl.id)
         && ch.sent == Project(fs[cl.start + 1..end], cl.id)
       case Gone(end, told) =>
         && cl.start < end == |fs|
         && Calm(fs[cl.start + 1..end], cl.id)
         && ch.sent == Project(fs[cl.start + 1..end], cl.id) + if told then [EvFailed(WorkerFailed)] else []
  }

  ghost predicate Faithful(t: Trace) {
    && (forall c | c in t.claims :: c < |t.channels| && RecordOk(t.claims[c], t.channels[c], t.streams))
    && (forall c | 0 <= c < |t.channels| && c !in t.claims :: t.channels[c].sent == [])
  }

  /** Claimed entries and live claim records match one to one, on the claimer's own stream. */
  ghost predicate Linked(pending: Pendings, readers: map<nat, Reader>, t: Trace) {
    && (forall id | id in pending && pending[id].claimedBy.Some? ::
          var c := pending[id].channel;
          c in t.claims && t.claims[c].fate.Live? && t.claims[c].id == id
          && pending[id].claimedBy.value in readers && readers[pending[id].claimedBy.value].stream == t.claims[c].stream)
    && (forall c | c in t.claims && t.claims[c].fate.Live? ::
          t.claims[c].id in pending && pending[t.claims[c].id].channel == c
          && pending[t.claims[c].id].claimedBy.Some?)
    && (forall id | Unclaimed(pending, id) :: pending[id].channel !in t.claims)
  }

  /** Each reader has a stream of its own, and no lost reader's stream is read again. */
  ghost predicate OwnStreams(readers: map<nat, Reader>, t: Trace) {
    && (forall w | w in readers :: readers[w].stream < |t.streams|)
    && (forall v, w | v in readers && w in readers && readers[v].stream == readers[w].stream :: v == w)
    && (forall c, w | c in t.claims && t.claims[c].fate.Gone? && w in readers :: t.claims[c].stream != readers[w].stream)
  }

  /** Who claimed what, and on which stream. */
  ghost predicate Ownership(s: State) {
    Linked(s.table.pending, s.crew.readers, s.trace) && OwnStreams(s.crew.readers, s.trace)
  }

  // --- what a frame becomes ---

  /** Channel c has got what f stands for behind what it had, and no other channel anything. */
  ghost predicate OneCarried(before: seq<Channel>, after: seq<Channel>, c: nat, f: Frame) {
    && |after| == |before| && (forall d | 0 <= d < |before| && d != c :: after[d] == before[d])
    && (c < |before| ==> before[c].sent <= after[c].sent && Carried(f, after[c].sent[|before[c].sent|..]))
  }

  lemma {:induction false} SendCarries(t: Trace, c: nat, f: Frame)
    ensures OneCarried(t.channels, Send(t, c, Translate(f)).channels, c, f)
  {
    TranslationIsCarried(f);
    if c < |t.channels| {
      var evs := Translate(f);
      assert (t.channels[c].sent + evs)[|t.channels[c].sent|..] == evs;
    }
  }

  /** A frame other than a Claim reaches exactly the channel of the request it names, if the reader's worker has claimed
      that request, and there stands for one event of its kind or none. Done and Error free the entry, nothing else does. */
  lemma {:induction false} HearCarries(s: State, w: nat, f: Frame, full: set<nat>)
    requires w in s.crew.readers && !f.kind.Claim?
    ensures var t := HearStep(s, w, f, full);
      if f.id in s.crew.readers[w].claimed && f.id in s.table.pending
      then OneCarried(s.trace.channels, t.trace.channels, s.table.pending[f.id].channel, f)
      else t.trace.channels == s.trace.channels
    ensures var t := HearStep(s, w, f, full);
      t.table.pending == if f.id in s.crew.readers[w].claimed && (f.kind.Done? || f.kind.Error?)
                         then s.table.pending - {f.id} else s.table.pending
  {
    if f.id in s.table.pending {
      SendCarries(TookStep(s, w, f).trace, s.table.pending[f.id].channel, f);
    }
  }

  /** One part for each frame: of a frame for the id what it stands for, of any other nothing. */
  ghost predicate Parts(fs: seq<Frame>, id: u32, parts: seq<seq<Event>>) {
    && |parts| == |fs|
    && forall i | 0 <= i < |fs| :: if fs[i].id == id then Carried(fs[i], parts[i]) else parts[i] == []
  }

  function Flat(parts: seq<seq<Event>>): seq<Event> {
    if parts == [] then [] else Flat(parts[..|parts| - 1]) + parts[|parts| - 1]
  }

  lemma {:induction false} ProjectionHasParts(fs: seq<Frame>, id: u32) returns (parts: seq<seq<Event>>)
    ensures Parts(fs, id, parts) && Project(fs, id) == Flat(parts)
    decreases |fs|
  {
    parts := [];
    if |fs| > 0 {
      var n := |fs| - 1;
      var before := ProjectionHasParts(fs[..n], id);
      TranslationIsCarried(fs[n]);
      parts := before + [if fs[n].id == id then Translate(fs[n]) else []];
      assert parts[..n] == before;
      forall i | 0 <= i < |fs|
        ensures if fs[i].id == id then Carried(fs[i], parts[i]) else parts[i] == []
      {
        assert i < n ==> fs[..n][i] == fs[i] && parts[i] == before[i];
      }
    }
  }

  lemma {:induction false} ProjectGrows(fs: seq<Frame>, f: Frame, id: u32)
    ensures Project(fs + [f], id) == Project(fs, id) + if f.id == id then Translate(f) else []
  {
    assert (fs + [f])[..|fs|] == fs;
  }

  lemma {:induction false} RecordLives(cl: ClaimRecord, ch: Channel, streams: seq<seq<Frame>>, f: Frame, evs: seq<Event>)
    requires RecordOk(cl, ch, streams) && cl.fate.Live? && !Terminal(f, cl.id)
    requires evs == if f.id == cl.id then Translate(f) else []
    ensures RecordOk(cl, ch.(sent := ch.sent + evs), streams[cl.stream := streams[cl.stream] + [f]])
  {
    var fs := streams[cl.stream];
    assert (fs + [f])[cl.start + 1..] == fs[cl.start + 1..] + [f];
    ProjectGrows(fs[cl.start + 1..], f, cl.id);
  }

  /** The frames between a Claim and the last frame of the stream, which ends the request. */
  lemma {:induction false} RecordWithEnd(cl: ClaimRecord, ch: Channel, streams: seq<seq<Frame>>, tail: seq<Frame>, f: Frame)
    requires cl.stream < |streams| && cl.start + 1 < |streams[cl.stream]| && Terminal(f, cl.id)
    requires var fs := streams[cl.stream]; fs[cl.start].kind.Claim? && fs[cl.start].id == cl.id && fs[|fs| - 1] == f
    requires var fs := streams[cl.stream]; fs[cl.start + 1..|fs| - 1] == tail && fs[cl.start + 1..|fs|] == tail + [f]
    requires Calm(tail, cl.id) && ch.sent == Project(tail + [f], cl.id) && cl.fate == Finished(|streams[cl.stream]|)
    ensures RecordOk(cl, ch, streams)
  {
  }

  lemma {:induction false} RecordEnds(cl: ClaimRecord, ch: Channel, streams: seq<seq<Frame>>, f: Frame)
    requires RecordOk(cl, ch, streams) && cl.fate.Live? && Terminal(f, cl.id)
    ensures RecordOk(cl.(fate := Finished(|streams[cl.stream]| + 1)), ch.(sent := ch.sent + Translate(f)),
                     streams[cl.stream := streams[cl.stream] + [f]])
  {
    var fs := streams[cl.stream];
    TailEnds(fs, cl.start + 1, f);
    ProjectGrows(fs[cl.start + 1..], f, cl.id);
    RecordWithEnd(cl.(fate := Finished(|fs| + 1)), ch.(sent := ch.sent + Translate(f)), streams[cl.stream := fs + [f]],
                  fs[cl.start + 1..], f);
  }

  lemma {:induction false} TailEnds(fs: seq<Frame>, a: nat, f: Frame)
    requires a <= |fs|
    ensures var gs := fs + [f]; gs[a..|gs|] == fs[a..] + [f] && gs[a..|gs| - 1] == fs[a..]
  {
  }

  lemma {:induction false} RecordStands(cl: ClaimRecord, ch: Channel, streams: seq<seq<Frame>>, k: nat, f: Frame)
    requires RecordOk(cl, ch, streams) && k < |streams|
    requires cl.stream != k || cl.fate.Finished?
    ensures RecordOk(cl, ch, streams[k := streams[k] + [f]])
  {
    if cl.stream == k {
      var fs, gs := streams[k], streams[k] + [f];
      var end := cl.fate.end;
      assert gs[cl.start + 1..end] == fs[cl.start + 1..end];
      assert gs[cl.start + 1..end - 1] == fs[cl.start + 1..end - 1];
    }
  }

  lemma {:induction false} RecordBegins(ch: Channel, streams: seq<seq<Frame>>, k: nat, f: Frame, at: nat)
    requires k < |streams| && f.kind.Claim? && ch.sent == []
    ensures RecordOk(ClaimRecord(k, |streams[k]|, f.id, at, Live), ch, streams[k := streams[k] + [f]])
  {
    var gs := streams[k] + [f];
    assert gs[|streams[k]| + 1..] == [];
  }

  lemma {:induction false} RecordOrphaned(cl: ClaimRecord, ch: Channel, streams: seq<seq<Frame>>, told: bool)
    requires RecordOk(cl, ch, streams) && cl.fate.Live?
    ensures RecordOk(cl.(fate := Gone(|streams[cl.stream]|, told)), Told(ch, told), streams)
  {
    var fs := streams[cl.stream];
    assert fs[cl.start + 1..|fs|] == fs[cl.start + 1..];
  }

  /** The id of every live record on a reader's stream is in the reader's private set. */
  lemma {:induction false} LiveMeansClaimed(s: State, w: nat, c: nat)
    requires Ownership(s) && BooksOf(s) && w in s.crew.readers
    requires c in s.trace.claims && s.trace.claims[c].fate.Live?
    requires s.trace.claims[c].stream == s.crew.readers[w].stream
    ensures s.trace.claims[c].id in s.crew.readers[w].claimed
    ensures s.trace.claims[c].id in s.table.pending && s.table.pending[s.trace.claims[c].id].channel == c
  {
    var id := s.trace.claims[c].id;
    assert s.table.pending[id].claimedBy.value == w;
    assert id in ClaimedBy(s.table.pending, w);
  }

  lemma {:induction false} ClaimedMeansLive(s: State, w: nat, id: u32)
    requires Ownership(s) && BooksOf(s) && w in s.crew.readers && id in s.crew.readers[w].claimed
    ensures id in s.table.pending && s.table.pending[id].claimedBy == Some(w)
    ensures var c := s.table.pending[id].channel;
      c in s.trace.claims && s.trace.claims[c].fate.Live? && s.trace.claims[c].id == id
      && s.trace.claims[c].stream == s.crew.readers[w].stream
  {
    assert id in ClaimedBy(s.table.pending, w);
  }

  // --- one frame, one record ---

  /** A frame that becomes no event. */
  predicate Harmless(f: Frame) {
    Translate(f) == []
  }

  /** The streams after one more frame on stream k. */
  function Grown(streams: seq<seq<Frame>>, k: nat, f: Frame): seq<seq<Frame>>
    requires k < |streams|
  {
    streams[k := streams[k] + [f]]
  }

  lemma {:induction false} RecordKeeps(cl: ClaimRecord, ch: Channel, streams: seq<seq<Frame>>, k: nat, f: Frame)
    requires RecordOk(cl, ch, streams) && k < |streams|
    requires cl.stream == k ==> !cl.fate.Gone? && (cl.fate.Live? ==> Harmless(f) || f.id != cl.id)
    ensures RecordOk(cl, ch, Grown(streams, k, f))
  {
    if cl.stream == k && cl.fate.Live? {
      RecordLives(cl, ch, streams, f, []);
      assert ch.(sent := ch.sent + []) == ch;
    } else {
      RecordStands(cl, ch, streams, k, f);
    }
  }

  /** Whether frame f, heard from worker w, is none of channel c's business. */
  ghost predicate Bystander(s: State, w: nat, f: Frame, c: nat)
    requires w in s.crew.readers
  {
    Harmless(f) || f.id !in s.crew.readers[w].claimed
    || (f.id in s.table.pending && s.table.pending[f.id].channel != c)
  }

  lemma {:induction false} BystanderKeeps(s: State, w: nat, f: Frame, c: nat)
    requires Ownership(s) && BooksOf(s) && w in s.crew.readers && c in s.trace.claims && Bystander(s, w, f, c)
    ensures s.trace.claims[c].stream == s.crew.readers[w].stream ==>
      !s.trace.claims[c].fate.Gone? && (s.trace.claims[c].fate.Live? ==> Harmless(f) || f.id != s.trace.claims[c].id)
  {
    var cl := s.trace.claims[c];
    if cl.stream == s.crew.readers[w].stream && cl.fate.Live? {
      LiveMeansClaimed(s, w, c);
    }
  }

  /** Every record but that of channel d, which is the frame's own, survives the frame. */
  lemma {:induction false} OthersKeep(s: State, w: nat, f: Frame, d: int)
    requires Faithful(s.trace) && Ownership(s) && BooksOf(s) && w in s.crew.readers
    requires forall c | c in s.trace.claims && c != d :: Bystander(s, w, f, c)
    ensures forall c | c in s.trace.claims && c != d ::
      RecordOk(s.trace.claims[c], s.trace.channels[c], Grown(s.trace.streams, s.crew.readers[w].stream, f))
  {
    forall c | c in s.trace.claims && c != d
      ensures RecordOk(s.trace.claims[c], s.trace.channels[c], Grown(s.trace.streams, s.crew.readers[w].stream, f))
    {
      BystanderKeeps(s, w, f, c);
      RecordKeeps(s.trace.claims[c], s.trace.channels[c], s.trace.streams, s.crew.readers[w].stream, f);
    }
  }

  lemma {:induction false} FaithfulAfterBystanders(s: State, w: nat, f: Frame)
    requires Faithful(s.trace) && Ownership(s) && BooksOf(s) && w in s.crew.readers
    requires forall c | c in s.trace.claims :: Bystander(s, w, f, c)
    ensures Faithful(TookStep(s, w, f).trace)
  {
    OthersKeep(s, w, f, -1);
  }

  /** Only channel d and its record differ. */
  lemma {:induction false} FaithfulBut(t: Trace, u: Trace, d: nat)
    requires Faithful(t) && |u.channels| == |t.channels| && d < |t.channels|
    requires u.claims.Keys == t.claims.Keys + {d}
    requires RecordOk(u.claims[d], u.channels[d], u.streams)
    requires forall c | 0 <= c < |t.channels| && c != d :: u.channels[c] == t.channels[c]
    requires forall c | c in t.claims && c != d ::
      u.claims[c] == t.claims[c] && RecordOk(t.claims[c], t.channels[c], u.streams)
    ensures Faithful(u)
  {
  }

  /** All records but d's survive the frame on stream k. */
  ghost predicate OthersOk(t: Trace, k: nat, f: Frame, d: nat)
    requires k < |t.streams|
  {
    forall c | c in t.claims && c != d :: c < |t.channels| && RecordOk(t.claims[c], t.channels[c], Grown(t.streams, k, f))
  }

  lemma {:induction false} ForwardedTrace(t: Trace, k: nat, f: Frame, d: nat)
    requires Faithful(t) && k < |t.streams| && OthersOk(t, k, f, d)
    requires d in t.claims && t.claims[d].fate.Live? && t.claims[d].stream == k && t.claims[d].id == f.id
    requires !Terminal(f, f.id)
    ensures Faithful(Send(Heard(t, k, f), d, Translate(f)))
  {
    RecordLives(t.claims[d], t.channels[d], t.streams, f, Translate(f));
    FaithfulBut(t, Send(Heard(t, k, f), d, Translate(f)), d);
  }

  lemma {:induction false} FreedTrace(t: Trace, k: nat, f: Frame, d: nat)
    requires Faithful(t) && k < |t.streams| && OthersOk(t, k, f, d)
    requires d in t.claims && t.claims[d].fate.Live? && t.claims[d].stream == k && t.claims[d].id == f.id
    requires Terminal(f, f.id)
    ensures Faithful(Finish(Send(Heard(t, k, f), d, Translate(f)), d, k))
  {
    RecordEnds(t.claims[d], t.channels[d], t.streams, f);
    FaithfulBut(t, Finish(Send(Heard(t, k, f), d, Translate(f)), d, k), d);
  }

  lemma {:induction false} TakenTrace(t: Trace, k: nat, f: Frame, d: nat, at: nat)
    requires Faithful(t) && k < |t.streams| && OthersOk(t, k, f, d)
    requires d !in t.claims && d < |t.channels| && f.kind.Claim?
    ensures Faithful(Record(Heard(t, k, f), d, k, f.id, at))
  {
    RecordBegins(t.channels[d], t.streams, k, f, at);
    FaithfulBut(t, Record(Heard(t, k, f), d, k, f.id, at), d);
  }

  lemma {:induction false} FaithfulAfterForward(s: State, w: nat, f: Frame)
    requires Faithful(s.trace) && Ownership(s) && BooksOf(s) && w in s.crew.readers
    requires TurnFor(s.crew, w, f).Forward?
    ensures Faithful(ForwardStep(TookStep(s, w, f), f).trace)
  {
    ClaimedMeansLive(s, w, f.id);
    var d := s.table.pending[f.id].channel;
    OthersKeep(s, w, f, d);
    ForwardedTrace(s.trace, s.crew.readers[w].stream, f, d);
  }

  lemma {:induction false} FaithfulAfterFree(s: State, w: nat, f: Frame)
    requires Faithful(s.trace) && Ownership(s) && BooksOf(s) && w in s.crew.readers
    requires TurnFor(s.crew, w, f).Free?
    ensures Faithful(FinishStep(TookStep(s, w, f), w, f).trace)
  {
    ClaimedMeansLive(s, w, f.id);
    var d := s.table.pending[f.id].channel;
    OthersKeep(s, w, f, d);
    FreedTrace(s.trace, s.crew.readers[w].stream, f, d);
  }

  lemma {:induction false} FaithfulAfterTake(s: State, w: nat, f: Frame)
    requires Faithful(s.trace) && Ownership(s) && BooksOf(s) && w in s.crew.readers && f.kind.Claim?
    requires Unclaimed(s.table.pending, f.id) && s.table.pending[f.id].channel < |s.trace.channels|
    ensures Faithful(ClaimStep(TookStep(s, w, f), w, f.id).trace)
  {
    var d := s.table.pending[f.id].channel;
    OthersKeep(s, w, f, d);
    TakenTrace(s.trace, s.crew.readers[w].stream, f, d, s.now);
  }

  lemma {:induction false} GoneWereLive(s: State, w: nat, c: nat)
    requires Ownership(s) && BooksOf(s) && w in s.crew.readers
    requires c in ChannelsOf(s.table.pending, s.crew.readers[w].claimed)
    ensures c in s.trace.claims && s.trace.claims[c].fate.Live?
    ensures s.trace.claims[c].stream == s.crew.readers[w].stream
  {
    var id :| id in s.crew.readers[w].claimed && id in s.table.pending && s.table.pending[id].channel == c;
    ClaimedMeansLive(s, w, id);
  }

  lemma {:induction false} FaithfulAfterExit(s: State, w: nat, full: set<nat>)
    requires Faithful(s.trace) && Ownership(s) && BooksOf(s) && w in s.crew.readers
    ensures Faithful(ExitStep(s, w, full).trace)
  {
    var t := ExitStep(s, w, full).trace;
    var gone := ChannelsOf(s.table.pending, s.crew.readers[w].claimed);
    forall c | c in gone
      ensures c in t.claims && RecordOk(t.claims[c], t.channels[c], t.streams)
    {
      GoneWereLive(s, w, c);
      RecordOrphaned(s.trace.claims[c], s.trace.channels[c], s.trace.streams, c !in full);
    }
  }

  lemma {:induction false} FaithfulAfterClaimTurn(s: State, w: nat, f: Frame)
    requires Faithful(s.trace) && Ownership(s) && BooksOf(s) && w in s.crew.readers && f.kind.Claim?
    requires Unclaimed(s.table.pending, f.id) ==> s.table.pending[f.id].channel < |s.trace.channels|
    ensures Faithful(ClaimStep(TookStep(s, w, f), w, f.id).trace)
  {
    if Unclaimed(s.table.pending, f.id) {
      FaithfulAfterTake(s, w, f);
    } else {
      FaithfulAfterBystanders(s, w, f);
    }
  }

  lemma {:induction false} FaithfulAfterOverClaim(s: State, w: nat, f: Frame, full: set<nat>)
    requires Faithful(s.trace) && Ownership(s) && BooksOf(s) && w in s.crew.readers && f.kind.Claim?
    ensures Faithful(OverClaimStep(TookStep(s, w, f), w, full).trace)
  {
    FaithfulAfterBystanders(s, w, f);
    var t := TookStep(s, w, f);
    OwnStreamsSame(s.crew.readers, t.crew.readers, s.trace, t.trace);
    LinkedSameClaims(s.table.pending, s.crew.readers, s.trace, t.trace);
    FaithfulAfterKillAndExit(t, w, full);
  }

  lemma {:induction false} DropMeans(crew: Crew, w: nat, f: Frame)
    requires w in crew.readers && TurnFor(crew, w, f).Drop?
    ensures Harmless(f) || f.id !in crew.readers[w].claimed
  {
  }

  lemma {:induction false} FaithfulAfterDropped(s: State, w: nat, f: Frame)
    requires Faithful(s.trace) && Ownership(s) && BooksOf(s) && w in s.crew.readers
    requires Harmless(f) || f.id !in s.crew.readers[w].claimed
    ensures Faithful(TookStep(s, w, f).trace)
  {
    assert forall c | c in s.trace.claims :: Bystander(s, w, f, c);
    FaithfulAfterBystanders(s, w, f);
  }

  lemma {:induction false} HearUnfolded(s: State, w: nat, f: Frame, full: set<nat>)
    requires w in s.crew.readers
    ensures TurnFor(s.crew, w, f).Drop? ==> HearStep(s, w, f, full) == TookStep(s, w, f)
    ensures TurnFor(s.crew, w, f).Free? ==> HearStep(s, w, f, full) == FinishStep(TookStep(s, w, f), w, f)
    ensures TurnFor(s.crew, w, f).Forward? ==> HearStep(s, w, f, full) == ForwardStep(TookStep(s, w, f), f)
  {
  }

  lemma {:induction false} FaithfulAfterClaimFrame(s: State, w: nat, f: Frame, full: set<nat>)
    requires Faithful(s.trace) && Ownership(s) && BooksOf(s) && w in s.crew.readers && f.kind.Claim?
    requires Unclaimed(s.table.pending, f.id) ==> s.table.pending[f.id].channel < |s.trace.channels|
    ensures Faithful(HearStep(s, w, f, full).trace)
  {
    if TurnFor(s.crew, w, f).OverClaim? {
      FaithfulAfterOverClaim(s, w, f, full);
    } else {
      FaithfulAfterClaimTurn(s, w, f);
    }
  }

  lemma {:induction false} FaithfulAfterHear(s: State, w: nat, f: Frame, full: set<nat>)
    requires Faithful(s.trace) && Ownership(s) && BooksOf(s) && w in s.crew.readers
    requires Unclaimed(s.table.pending, f.id) ==> s.table.pending[f.id].channel < |s.trace.channels|
    ensures Faithful(HearStep(s, w, f, full).trace)
  {
    if f.kind.Claim? {
      FaithfulAfterClaimFrame(s, w, f, full);
    } else {
      HearUnfolded(s, w, f, full);
      if TurnFor(s.crew, w, f).Drop? {
        DropMeans(s.crew, w, f);
        FaithfulAfterDropped(s, w, f);
      } else if TurnFor(s.crew, w, f).Free? {
        FaithfulAfterFree(s, w, f);
      } else {
        FaithfulAfterForward(s, w, f);
      }
    }
  }

  lemma {:induction false} FaithfulAfterKillAndExit(s: State, w: nat, full: set<nat>)
    requires Faithful(s.trace) && Ownership(s) && BooksOf(s) && w in s.crew.readers
    ensures Faithful(OverClaimStep(s, w, full).trace)
  {
    var u := s.(crew := Kill(s.crew, w, s.crew.workers[w].token));
    BooksAfterKill(s.table.pending, s.crew, w, s.crew.workers[w].token);
    FaithfulAfterExit(u, w, full);
  }

  lemma {:induction false} FaithfulWithMoreRoom(t: Trace, u: Trace)
    requires Faithful(t) && u.claims == t.claims && t.streams <= u.streams && |t.channels| <= |u.channels|
    requires forall c | 0 <= c < |u.channels| :: u.channels[c].sent == if c < |t.channels| then t.channels[c].sent else []
    ensures Faithful(u)
  {
    forall c | c in u.claims
      ensures RecordOk(u.claims[c], u.channels[c], u.streams)
    {
      assert u.streams[u.claims[c].stream] == t.streams[u.claims[c].stream];
    }
  }

  lemma {:induction false} FaithfulAfterQuietStep(cfg: Config, s: State, a: Action)
    requires Faithful(s.trace) && !a.Hear? && !a.ReaderExit?
    ensures Faithful(Next(cfg, s, a).trace)
  {
    if a.Submit? || a.DropStream? || a.Join? || a.Sweep? {
      FaithfulWithMoreRoom(s.trace, Next(cfg, s, a).trace);
    } else {
      TraceStays(cfg, s, a);
    }
  }

  lemma {:induction false} TraceStays(cfg: Config, s: State, a: Action)
    requires a.Reserve? || a.Release? || a.Sent? || a.SendFailed? || a.Remove? || a.Tick? || a.Confirm?
    ensures Next(cfg, s, a).trace == s.trace
  {
  }

  lemma {:induction false} StepKeepsFaithful(cfg: Config, s: State, a: Action)
    requires Faithful(s.trace) && Ownership(s) && BooksOf(s)
    requires forall id | id in s.table.pending :: s.table.pending[id].channel < |s.trace.channels|
    ensures Faithful(Next(cfg, s, a).trace)
  {
    if a.Hear? {
      if a.worker in s.crew.readers { FaithfulAfterHear(s, a.worker, a.frame, a.full); }
    } else if a.ReaderExit? {
      if a.worker in s.crew.readers { FaithfulAfterExit(s, a.worker, a.full); }
    } else {
      FaithfulAfterQuietStep(cfg, s, a);
    }
  }

  // --- who owns what ---

  lemma {:induction false} LinkedAfterTake(p: Pendings, readers: map<nat, Reader>, t: Trace, permits: Permits,
                        id: u32, w: nat, r: Reader, e: Pending, cl: ClaimRecord)
    requires Linked(p, readers, t) && Backed(p, permits) && Unclaimed(p, id) && w in readers
    requires r.stream == readers[w].stream == cl.stream && cl.id == id && cl.fate.Live?
    requires e.channel == p[id].channel && e.claimedBy == Some(w)
    ensures Linked(p[id := e], readers[w := r], t.(claims := t.claims[e.channel := cl]))
  {
    assert Holds(permits, e.channel, id);
    var q := p[id := e];
    forall j | Unclaimed(q, j)
      ensures q[j].channel != e.channel
    {
      assert Unclaimed(p, j) && Holds(permits, p[j].channel, j);
    }
  }

  lemma {:induction false} LinkedAfterFree(p: Pendings, readers: map<nat, Reader>, t: Trace, u: Trace, id: u32, w: nat, r: Reader, c: nat)
    requires Linked(p, readers, t) && id in p && p[id].claimedBy == Some(w) && p[id].channel == c
    requires r.stream == readers[w].stream
    requires u.claims.Keys == t.claims.Keys && c in u.claims && u.claims[c].fate.Finished?
    requires forall d | d in t.claims && d != c :: u.claims[d] == t.claims[d]
    ensures Linked(p - {id}, readers[w := r], u)
  {
  }

  lemma {:induction false} LinkedAfterExit(p: Pendings, readers: map<nat, Reader>, t: Trace, u: Trace, mine: set<u32>, w: nat)
    requires Linked(p, readers, t) && mine == ClaimedBy(p, w)
    requires u.claims.Keys == t.claims.Keys
    requires forall c | c in t.claims :: if c in ChannelsOf(p, mine) then u.claims[c].fate.Gone? else u.claims[c] == t.claims[c]
    ensures Linked(p - mine, readers - {w}, u)
  {
    var q, gone := p - mine, ChannelsOf(p, mine);
    forall id | id in p && p[id].claimedBy.Some? && p[id].channel in gone
      ensures id in mine
    {
      var j :| j in mine && j in p && p[j].channel == p[id].channel;
    }
    forall c | c in t.claims && t.claims[c].fate.Live? && t.claims[c].id in mine
      ensures c in gone
    {
      ChannelOfMine(p, mine, t.claims[c].id);
    }
    assert forall id | id in q :: q[id].claimedBy != Some(w);
  }

  lemma {:induction false} ChannelOfMine(p: Pendings, mine: set<u32>, id: u32)
    requires id in mine && id in p
    ensures p[id].channel in ChannelsOf(p, mine)
  {
  }

  lemma {:induction false} LinkedWithoutUnclaimed(p: Pendings, readers: map<nat, Reader>, t: Trace, id: u32)
    requires Linked(p, readers, t) && (id in p ==> Unclaimed(p, id))
    ensures Linked(p - {id}, readers, t)
  {
  }

  lemma {:induction false} LinkedAfterMark(p: Pendings, readers: map<nat, Reader>, t: Trace, ids: set<u32>, now: nat)
    requires Linked(p, readers, t)
    ensures Linked(MarkAborted(p, ids, now), readers, t)
  {
    var q := MarkAborted(p, ids, now);
    assert forall id :: Unclaimed(q, id) <==> Unclaimed(p, id);
  }

  lemma {:induction false} LinkedAfterInsert(t: Table, readers: map<nat, Reader>, tr: Trace, c: nat)
    requires Linked(t.pending, readers, tr) && |t.pending| < U32_LIMIT && c !in tr.claims
    ensures Linked(Insert(t, c).pending, readers, tr)
  {
    FreshIdIsFree(t);
  }

  /** `Linked` looks at nothing but the claims. */
  lemma {:induction false} LinkedSameClaims(p: Pendings, readers: map<nat, Reader>, t: Trace, u: Trace)
    requires Linked(p, readers, t) && u.claims == t.claims
    ensures Linked(p, readers, u)
  {
  }

  lemma {:induction false} LinkedAfterClaimTurn(s: State, w: nat, f: Frame)
    requires Linked(s.table.pending, s.crew.readers, s.trace) && w in s.crew.readers
    requires Backed(s.table.pending, s.permits)
    ensures var t := ClaimStep(TookStep(s, w, f), w, f.id); Linked(t.table.pending, t.crew.readers, t.trace)
  {
    var u := TookStep(s, w, f);
    LinkedSameClaims(s.table.pending, s.crew.readers, s.trace, u.trace);
    if Unclaimed(s.table.pending, f.id) {
      var t := ClaimStep(u, w, f.id);
      LinkedAfterTake(s.table.pending, s.crew.readers, u.trace, s.permits, f.id, w, t.crew.readers[w],
                      t.table.pending[f.id], t.trace.claims[s.table.pending[f.id].channel]);
    }
  }

  lemma {:induction false} LinkedAfterFreeTurn(s: State, w: nat, f: Frame)
    requires Linked(s.table.pending, s.crew.readers, s.trace) && BooksOf(s) && w in s.crew.readers
    requires f.id in s.crew.readers[w].claimed
    ensures var t := FinishStep(TookStep(s, w, f), w, f); Linked(t.table.pending, t.crew.readers, t.trace)
  {
    assert f.id in ClaimedBy(s.table.pending, w);
    var t := FinishStep(TookStep(s, w, f), w, f);
    LinkedAfterFree(s.table.pending, s.crew.readers, s.trace, t.trace, f.id, w, t.crew.readers[w],
                    s.table.pending[f.id].channel);
  }

  lemma {:induction false} LinkedAfterExitTurn(s: State, w: nat, full: set<nat>)
    requires Linked(s.table.pending, s.crew.readers, s.trace) && BooksOf(s) && w in s.crew.readers
    ensures var t := ExitStep(s, w, full); Linked(t.table.pending, t.crew.readers, t.trace)
  {
    LinkedAfterExit(s.table.pending, s.crew.readers, s.trace, ExitStep(s, w, full).trace,
                    s.crew.readers[w].claimed, w);
  }

  lemma {:induction false} LinkedAfterOverClaim(s: State, w: nat, f: Frame, full: set<nat>)
    requires Linked(s.table.pending, s.crew.readers, s.trace) && BooksOf(s) && w in s.crew.readers
    ensures var t := OverClaimStep(TookStep(s, w, f), w, full); Linked(t.table.pending, t.crew.readers, t.trace)
  {
    var u := TookStep(s, w, f);
    LinkedSameClaims(s.table.pending, s.crew.readers, s.trace, u.trace);
    BooksAfterKill(s.table.pending, s.crew, w, s.crew.workers[w].token);
    LinkedAfterExitTurn(u.(crew := Kill(u.crew, w, u.crew.workers[w].token)), w, full);
  }

  lemma {:induction false} LinkedAfterHear(s: State, w: nat, f: Frame, full: set<nat>)
    requires Linked(s.table.pending, s.crew.readers, s.trace) && BooksOf(s) && w in s.crew.readers
    requires Backed(s.table.pending, s.permits)
    ensures var t := HearStep(s, w, f, full); Linked(t.table.pending, t.crew.readers, t.trace)
  {
    match TurnFor(s.crew, w, f)
    case Drop => LinkedSameClaims(s.table.pending, s.crew.readers, s.trace, TookStep(s, w, f).trace);
    case OverClaim => LinkedAfterOverClaim(s, w, f, full);
    case TakeClaim => LinkedAfterClaimTurn(s, w, f);
    case Free => LinkedAfterFreeTurn(s, w, f);
    case Forward =>
      LinkedSameClaims(s.table.pending, s.crew.readers, s.trace, ForwardStep(TookStep(s, w, f), f).trace);
  }

  lemma {:induction false} LinkedAfterSubmit(s: State)
    requires Linked(s.table.pending, s.crew.readers, s.trace) && |s.table.pending| < U32_LIMIT
    requires forall c | c in s.trace.claims :: c < |s.trace.channels|
    ensures var t := SubmitStep(s); Linked(t.table.pending, t.crew.readers, t.trace)
  {
    LinkedAfterInsert(s.table, s.crew.readers, s.trace, |s.trace.channels|);
    LinkedSameClaims(SubmitStep(s).table.pending, s.crew.readers, s.trace, SubmitStep(s).trace);
  }

  lemma {:induction false} LinkedAfterDropStream(s: State, c: nat)
    requires Linked(s.table.pending, s.crew.readers, s.trace) && c in s.permits.open
    ensures var t := DropStreamStep(s, c); Linked(t.table.pending, t.crew.readers, t.trace)
  {
    LinkedSameClaims(s.table.pending, s.crew.readers, s.trace, DropStreamStep(s, c).trace);
    if Unclaimed(s.table.pending, s.permits.open[c]) {
      LinkedWithoutUnclaimed(s.table.pending, s.crew.readers, DropStreamStep(s, c).trace, s.permits.open[c]);
    }
  }

  lemma {:induction false} LinkedAfterJoin(cfg: Config, s: State, w: nat, token: nat, declared: u32)
    requires Linked(s.table.pending, s.crew.readers, s.trace) && w !in s.crew.readers
    ensures var t := JoinStep(cfg, s, w, token, declared); Linked(t.table.pending, t.crew.readers, t.trace)
  {
  }

  lemma {:induction false} LinkedAfterQuietStep(cfg: Config, s: State, a: Action)
    requires Linked(s.table.pending, s.crew.readers, s.trace)
    requires !a.Submit? && !a.SendFailed? && !a.DropStream? && !a.Join? && !a.Hear? && !a.ReaderExit? && !a.Sweep?
    ensures var t := Next(cfg, s, a); Linked(t.table.pending, t.crew.readers, t.trace)
  {
    var t := Next(cfg, s, a);
    assert t.table == s.table && t.crew.readers == s.crew.readers && t.trace == s.trace;
  }

  lemma {:induction false} StepKeepsLinked(cfg: Config, s: State, a: Action)
    requires Linked(s.table.pending, s.crew.readers, s.trace) && BooksOf(s) && |s.table.pending| < U32_LIMIT
    requires Backed(s.table.pending, s.permits)
    requires forall c | c in s.trace.claims :: c < |s.trace.channels|
    ensures var t := Next(cfg, s, a); Linked(t.table.pending, t.crew.readers, t.trace)
  {
    match a
    case Submit => if s.permits.reserved > 0 { LinkedAfterSubmit(s); }
    case SendFailed(c) =>
      if c in s.permits.sending {
        LinkedWithoutUnclaimed(s.table.pending, s.crew.readers, s.trace, s.permits.sending[c]);
      }
    case DropStream(c) => if c in s.permits.open { LinkedAfterDropStream(s, c); }
    case Join(w, token, declared) => if w !in s.crew.workers { LinkedAfterJoin(cfg, s, w, token, declared); }
    case Hear(w, f, full) => if w in s.crew.readers { LinkedAfterHear(s, w, f, full); }
    case ReaderExit(w, full) => if w in s.crew.readers { LinkedAfterExitTurn(s, w, full); }
    case Sweep =>
      LinkedSameClaims(s.table.pending, s.crew.readers, s.trace, SweepStep(cfg, s).trace);
      LinkedAfterMark(s.table.pending, s.crew.readers, SweepStep(cfg, s).trace,
                      ToAbort(cfg, s.table.pending, s.now), s.now);
    case _ => LinkedAfterQuietStep(cfg, s, a);
  }

  lemma {:induction false} OwnStreamsAfterExit(s: State, w: nat, full: set<nat>)
    requires Ownership(s) && BooksOf(s) && w in s.crew.readers
    ensures var t := ExitStep(s, w, full); OwnStreams(t.crew.readers, t.trace)
  {
    forall c | c in ChannelsOf(s.table.pending, s.crew.readers[w].claimed)
      ensures c in s.trace.claims && s.trace.claims[c].stream == s.crew.readers[w].stream
    {
      GoneWereLive(s, w, c);
    }
  }

  /** Nothing new is gone, and no reader changes its stream. */
  lemma {:induction false} OwnStreamsSame(readers: map<nat, Reader>, rs: map<nat, Reader>, t: Trace, u: Trace)
    requires OwnStreams(readers, t) && rs.Keys <= readers.Keys && |t.streams| <= |u.streams|
    requires forall w | w in rs :: rs[w].stream == readers[w].stream
    requires forall c | c in u.claims && u.claims[c].fate.Gone? :: c in t.claims && u.claims[c] == t.claims[c]
    ensures OwnStreams(rs, u)
  {
  }

  lemma {:induction false} OwnStreamsAfterOverClaim(s: State, w: nat, f: Frame, full: set<nat>)
    requires Ownership(s) && BooksOf(s) && w in s.crew.readers
    ensures var t := OverClaimStep(TookStep(s, w, f), w, full); OwnStreams(t.crew.readers, t.trace)
  {
    var u := TookStep(s, w, f);
    BooksAfterKill(s.table.pending, s.crew, w, s.crew.workers[w].token);
    OwnStreamsAfterExit(u.(crew := Kill(u.crew, w, u.crew.workers[w].token)), w, full);
  }

  lemma {:induction false} OwnStreamsAfterPlainTurn(s: State, w: nat, f: Frame, full: set<nat>)
    requires OwnStreams(s.crew.readers, s.trace) && w in s.crew.readers && !TurnFor(s.crew, w, f).OverClaim?
    ensures var t := HearStep(s, w, f, full); OwnStreams(t.crew.readers, t.trace)
  {
    var t := HearStep(s, w, f, full);
    OwnStreamsSame(s.crew.readers, t.crew.readers, s.trace, t.trace);
  }

  lemma {:induction false} OwnStreamsAfterHear(s: State, w: nat, f: Frame, full: set<nat>)
    requires Ownership(s) && BooksOf(s) && w in s.crew.readers
    ensures var t := HearStep(s, w, f, full); OwnStreams(t.crew.readers, t.trace)
  {
    if TurnFor(s.crew, w, f).OverClaim? {
      OwnStreamsAfterOverClaim(s, w, f, full);
    } else {
      OwnStreamsAfterPlainTurn(s, w, f, full);
    }
  }

  lemma {:induction false} OwnStreamsAfterJoin(cfg: Config, s: State, w: nat, token: nat, declared: u32)
    requires OwnStreams(s.crew.readers, s.trace)
    requires forall c | c in s.trace.claims :: s.trace.claims[c].stream < |s.trace.streams|
    ensures var t := JoinStep(cfg, s, w, token, declared); OwnStreams(t.crew.readers, t.trace)
  {
  }

  lemma {:induction false} StreamsAfterQuietStep(cfg: Config, s: State, a: Action)
    requires !a.Join? && !a.Hear? && !a.ReaderExit?
    ensures var t := Next(cfg, s, a);
      t.crew.readers == s.crew.readers && t.trace.streams == s.trace.streams && t.trace.claims == s.trace.claims
  {
  }

  lemma {:induction false} OwnStreamsAfterQuietStep(cfg: Config, s: State, a: Action)
    requires OwnStreams(s.crew.readers, s.trace) && !a.Join? && !a.Hear? && !a.ReaderExit?
    ensures var t := Next(cfg, s, a); OwnStreams(t.crew.readers, t.trace)
  {
    StreamsAfterQuietStep(cfg, s, a);
  }

  lemma {:induction false} StepKeepsOwnStreams(cfg: Config, s: State, a: Action)
    requires Ownership(s) && BooksOf(s)
    requires forall c | c in s.trace.claims :: s.trace.claims[c].stream < |s.trace.streams|
    ensures var t := Next(cfg, s, a); OwnStreams(t.crew.readers, t.trace)
  {
    match a
    case Join(w, token, declared) => if w !in s.crew.workers { OwnStreamsAfterJoin(cfg, s, w, token, declared); }
    case Hear(w, f, full) => if w in s.crew.readers { OwnStreamsAfterHear(s, w, f, full); }
    case ReaderExit(w, full) => if w in s.crew.readers { OwnStreamsAfterExit(s, w, full); }
    case _ => OwnStreamsAfterQuietStep(cfg, s, a);
  }

  lemma {:induction false} FaithfulInRange(t: Trace)
    requires Faithful(t)
    ensures forall c | c in t.claims :: c < |t.channels| && t.claims[c].stream < |t.streams|
  {
  }

  /** The frames behind a Claim up to where the record ends. */
  function OwnFrames(cl: ClaimRecord, streams: seq<seq<Frame>>): seq<Frame> {
    var fs := if cl.stream < |streams| then streams[cl.stream] else [];
    var end := match cl.fate case Live => |fs| case Finished(end) => end case Gone(end, _) => end;
    if cl.start < end <= |fs| then fs[cl.start + 1..end] else []
  }

  lemma {:induction false} RecordHasParts(cl: ClaimRecord, ch: Channel, streams: seq<seq<Frame>>)
      returns (parts: seq<seq<Event>>)
    requires RecordOk(cl, ch, streams)
    ensures Parts(OwnFrames(cl, streams), cl.id, parts)
    ensures ch.sent == Flat(parts) + if cl.fate.Gone? && cl.fate.told then [EvFailed(WorkerFailed)] else []
  {
    parts := ProjectionHasParts(OwnFrames(cl, streams), cl.id);
    assert cl.fate.Live? ==> streams[cl.stream][cl.start + 1..|streams[cl.stream]|] == streams[cl.stream][cl.start + 1..];
    assert Flat(parts) + [] == Flat(parts);
  }

  /** Demultiplexing is projection, in every fair run, however wrong the workers' frames are. */
  lemma {:induction false} RunKeepsDemux(cfg: Config, actions: seq<Action>)
    requires FairRun(cfg, actions) && SmallRun(cfg, actions)
    ensures var s := Run(cfg, actions); Faithful(s.trace) && Ownership(s)
  {
    var n := |actions|;
    if n > 0 {
      ShorterRun(cfg, actions);
      var s := Run(cfg, actions[..n - 1]);
      RunKeepsDemux(cfg, actions[..n - 1]);
      RunKeepsInv(cfg, actions[..n - 1]);
      assert Small(cfg, s);
      FaithfulInRange(s.trace);
      StepKeepsFaithful(cfg, s, actions[n - 1]);
      StepKeepsLinked(cfg, s, actions[n - 1]);
      StepKeepsOwnStreams(cfg, s, actions[n - 1]);
    }
  }

  /** And each event is what its frame stands for: in every fair run a channel holds, frame by frame behind the Claim of
      its request, what the frames for that request stand for, and at most one failure after a lost reader. */
  lemma {:induction false} RunCarries(cfg: Config, actions: seq<Action>, c: nat) returns (parts: seq<seq<Event>>)
    requires FairRun(cfg, actions) && SmallRun(cfg, actions) && c in Run(cfg, actions).trace.claims
    ensures var t := Run(cfg, actions).trace;
      && c < |t.channels| && Parts(OwnFrames(t.claims[c], t.streams), t.claims[c].id, parts)
      && t.channels[c].sent == Flat(parts) + if t.claims[c].fate.Gone? && t.claims[c].fate.told
                                             then [EvFailed(WorkerFailed)] else []
  {
    RunKeepsDemux(cfg, actions);
    var t := Run(cfg, actions).trace;
    parts := RecordHasParts(t.claims[c], t.channels[c], t.streams);
  }
}
