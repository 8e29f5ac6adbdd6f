/** The task_timeout sweep over whole runs, the kill that follows it, and the grant. */
module PoolSweep {
  import opened Bytes
  import opened Frame
  import opened PoolState
  import opened PoolBooks
  import opened PoolPermits
  import opened PoolDemux

  /** The clock readings of one entry: an Abort only after a full budget from the recorded first claim. */
  ghost predicate EntryTimed(cfg: Config, e: Pending, t: Trace, now: nat) {
    && e.channel < |t.channels|
    && (e.claimedBy.Some? <==> e.claimedAt.Some?)
    && (e.claimedAt.Some? ==>
          e.claimedAt.value <= now && e.channel in t.claims && t.claims[e.channel].at == e.claimedAt.value)
    && (e.abortSent <==> e.abortedAt.Some?)
    && (e.abortSent ==> e.claimedAt.Some? && e.claimedAt.value + cfg.taskTimeout <= e.abortedAt.value <= now)
    && t.channels[e.channel].aborts == if e.abortSent then 1 else 0
  }

  ghost predicate Timed(cfg: Config, p: Pendings, t: Trace, now: nat) {
    && (forall id | id in p :: EntryTimed(cfg, p[id], t, now))
    && (forall c | 0 <= c < |t.channels| :: t.channels[c].aborts <= 1)
  }

  ghost predicate OneEntryEach(p: Pendings) {
    forall i, j | i in p && j in p && p[i].channel == p[j].channel :: i == j
  }

  lemma {:induction false} EntriesAreDistinct(p: Pendings, readers: map<nat, Reader>, t: Trace, permits: Permits)
    requires Linked(p, readers, t) && Backed(p, permits)
    ensures OneEntryEach(p)
  {
    forall i, j | i in p && j in p && p[i].channel == p[j].channel
      ensures i == j
    {
      if Unclaimed(p, i) && Unclaimed(p, j) {
        assert Holds(permits, p[i].channel, i) && Holds(permits, p[j].channel, j);
      }
    }
  }

  lemma {:induction false} TimedAfterInsert(cfg: Config, s: State)
    requires Timed(cfg, s.table.pending, s.trace, s.now) && |s.table.pending| < U32_LIMIT
    ensures Timed(cfg, SubmitStep(s).table.pending, SubmitStep(s).trace, s.now)
  {
    FreshIdIsFree(s.table);
    var t := SubmitStep(s);
    forall id | id in t.table.pending
      ensures EntryTimed(cfg, t.table.pending[id], t.trace, s.now)
    {
      if id in s.table.pending {
        assert EntryTimed(cfg, s.table.pending[id], s.trace, s.now);
      }
    }
  }

  /** Fewer entries, later clock, channels with the same abort counts, the surviving claims as they were. */
  lemma {:induction false} TimedLater(cfg: Config, p: Pendings, q: Pendings, t: Trace, u: Trace, now: nat, later: nat)
    requires Timed(cfg, p, t, now) && now <= later && q.Keys <= p.Keys && forall id | id in q :: q[id] == p[id]
    requires |t.channels| == |u.channels|
    requires forall c | 0 <= c < |t.channels| :: u.channels[c].aborts == t.channels[c].aborts
    requires forall c | c in t.claims :: c in u.claims && u.claims[c].at == t.claims[c].at
    ensures Timed(cfg, q, u, later)
  {
    forall id | id in q
      ensures EntryTimed(cfg, q[id], u, later)
    {
      assert EntryTimed(cfg, p[id], t, now);
    }
  }

  lemma {:induction false} TimedAfterClaim(cfg: Config, t: Table, tr: Trace, stream: nat, id: u32, w: nat, now: nat)
    requires Timed(cfg, t.pending, tr, now) && Unclaimed(t.pending, id) && OneEntryEach(t.pending)
    ensures Timed(cfg, MarkClaimed(t, id, w, now).pending, Record(tr, t.pending[id].channel, stream, id, now), now)
  {
    var q := MarkClaimed(t, id, w, now).pending;
    var u := Record(tr, t.pending[id].channel, stream, id, now);
    forall j | j in q
      ensures EntryTimed(cfg, q[j], u, now)
    {
      assert EntryTimed(cfg, t.pending[j], tr, now);
    }
  }

  lemma {:induction false} TimedAfterSweep(cfg: Config, p: Pendings, t: Trace, now: nat)
    requires Timed(cfg, p, t, now) && OneEntryEach(p)
    ensures var ids := ToAbort(cfg, p, now);
      Timed(cfg, MarkAborted(p, ids, now), CountAborts(t, ChannelsOf(p, ids)), now)
  {
    var ids := ToAbort(cfg, p, now);
    var q, u, hit := MarkAborted(p, ids, now), CountAborts(t, ChannelsOf(p, ids)), ChannelsOf(p, ids);
    forall id | id in q
      ensures EntryTimed(cfg, q[id], u, now)
    {
      assert EntryTimed(cfg, p[id], t, now);
      assert p[id].channel in hit <==> id in ids;
    }
    forall c | 0 <= c < |u.channels|
      ensures u.channels[c].aborts <= 1
    {
      if c in hit {
        var id :| id in ids && id in p && p[id].channel == c;
        assert EntryTimed(cfg, p[id], t, now);
      }
    }
  }

  lemma {:induction false} TimedAfterExit(cfg: Config, s: State, w: nat, full: set<nat>)
    requires Timed(cfg, s.table.pending, s.trace, s.now) && w in s.crew.readers
    ensures var t := ExitStep(s, w, full); Timed(cfg, t.table.pending, t.trace, t.now)
  {
    var t := ExitStep(s, w, full);
    TimedLater(cfg, s.table.pending, t.table.pending, s.trace, t.trace, s.now, s.now);
  }

  lemma {:induction false} TimedAfterTook(cfg: Config, s: State, w: nat, f: Frame)
    requires Timed(cfg, s.table.pending, s.trace, s.now) && w in s.crew.readers
    ensures var t := TookStep(s, w, f); Timed(cfg, t.table.pending, t.trace, t.now)
  {
    TimedLater(cfg, s.table.pending, s.table.pending, s.trace, TookStep(s, w, f).trace, s.now, s.now);
  }

  lemma {:induction false} TimedAfterFree(cfg: Config, s: State, w: nat, f: Frame)
    requires Timed(cfg, s.table.pending, s.trace, s.now) && w in s.crew.readers
    ensures var t := FinishStep(s, w, f); Timed(cfg, t.table.pending, t.trace, t.now)
  {
    var t := FinishStep(s, w, f);
    TimedLater(cfg, s.table.pending, t.table.pending, s.trace, t.trace, s.now, s.now);
  }

  lemma {:induction false} TimedAfterForward(cfg: Config, s: State, f: Frame)
    requires Timed(cfg, s.table.pending, s.trace, s.now)
    ensures var t := ForwardStep(s, f); Timed(cfg, t.table.pending, t.trace, t.now)
  {
    var t := ForwardStep(s, f);
    TimedLater(cfg, s.table.pending, t.table.pending, s.trace, t.trace, s.now, s.now);
  }

  lemma {:induction false} TimedAfterTake(cfg: Config, s: State, w: nat, id: u32)
    requires Timed(cfg, s.table.pending, s.trace, s.now) && w in s.crew.readers && OneEntryEach(s.table.pending)
    ensures var t := ClaimStep(s, w, id); Timed(cfg, t.table.pending, t.trace, t.now)
  {
    if Unclaimed(s.table.pending, id) {
      TimedAfterClaim(cfg, s.table, s.trace, s.crew.readers[w].stream, id, w, s.now);
    }
  }

  lemma {:induction false} TimedAfterHear(cfg: Config, s: State, w: nat, f: Frame, full: set<nat>)
    requires Timed(cfg, s.table.pending, s.trace, s.now) && w in s.crew.readers && OneEntryEach(s.table.pending)
    ensures var t := HearStep(s, w, f, full); Timed(cfg, t.table.pending, t.trace, t.now)
  {
    var t := TookStep(s, w, f);
    TimedAfterTook(cfg, s, w, f);
    match TurnFor(s.crew, w, f)
    case Drop =>
    case OverClaim => TimedAfterExit(cfg, t.(crew := Kill(t.crew, w, t.crew.workers[w].token)), w, full);
    case TakeClaim => TimedAfterTake(cfg, t, w, f.id);
    case Free => TimedAfterFree(cfg, t, w, f);
    case Forward => TimedAfterForward(cfg, t, f);
  }

  lemma {:induction false} TimedAfterQuietStep(cfg: Config, s: State, a: Action)
    requires Timed(cfg, s.table.pending, s.trace, s.now)
    requires !a.Submit? && !a.Hear? && !a.ReaderExit? && !a.Sweep?
    ensures var t := Next(cfg, s, a); Timed(cfg, t.table.pending, t.trace, t.now)
  {
    var t := Next(cfg, s, a);
    TimedLater(cfg, s.table.pending, t.table.pending, s.trace, t.trace, s.now, t.now);
  }

  lemma {:induction false} StepKeepsTimed(cfg: Config, s: State, a: Action)
    requires Timed(cfg, s.table.pending, s.trace, s.now) && OneEntryEach(s.table.pending)
    requires |s.table.pending| < U32_LIMIT
    ensures var t := Next(cfg, s, a); Timed(cfg, t.table.pending, t.trace, t.now)
  {
    match a
    case Submit => if s.permits.reserved > 0 { TimedAfterInsert(cfg, s); }
    case Hear(w, f, full) => if w in s.crew.readers { TimedAfterHear(cfg, s, w, f, full); }
    case ReaderExit(w, full) => if w in s.crew.readers { TimedAfterExit(cfg, s, w, full); }
    case Sweep => TimedAfterSweep(cfg, s.table.pending, s.trace, s.now);
    case _ => TimedAfterQuietStep(cfg, s, a);
  }

  /** In every fair run each request is aborted at most once, and not before its budget from the first claim. */
  lemma {:induction false} RunKeepsTimed(cfg: Config, actions: seq<Action>)
    requires FairRun(cfg, actions) && SmallRun(cfg, actions)
    ensures var s := Run(cfg, actions); Timed(cfg, s.table.pending, s.trace, s.now)
  {
    var n := |actions|;
    if n > 0 {
      ShorterRun(cfg, actions);
      var s := Run(cfg, actions[..n - 1]);
      RunKeepsTimed(cfg, actions[..n - 1]);
      RunKeepsInv(cfg, actions[..n - 1]);
      RunKeepsDemux(cfg, actions[..n - 1]);
      assert Small(cfg, s);
      EntriesAreDistinct(s.table.pending, s.crew.readers, s.trace, s.permits);
      StepKeepsTimed(cfg, s, actions[n - 1]);
    }
  }

  /** No worker is a kill candidate before one of its tasks has run for its budget and the grace. */
  lemma {:induction false} CandidateRanOver(cfg: Config, actions: seq<Action>, w: nat) returns (id: u32)
    requires FairRun(cfg, actions) && SmallRun(cfg, actions)
    requires KillCandidate(cfg, Run(cfg, actions), w)
    ensures var s := Run(cfg, actions);
      id in s.table.pending && s.table.pending[id].claimedBy == Some(w) && w in s.crew.readers
      && s.table.pending[id].channel in s.trace.claims
      && s.trace.claims[s.table.pending[id].channel].at + cfg.taskTimeout + cfg.grace <= s.now
  {
    var s := Run(cfg, actions);
    RunKeepsTimed(cfg, actions);
    RunKeepsInv(cfg, actions);
    var late := DefiantOf(cfg, s.table.pending, s.now, w);
    assert |late| >= 1;
    id :| id in late;
    assert EntryTimed(cfg, s.table.pending[id], s.trace, s.now);
  }

  // --- the kill ---

  /** Every flagged worker's own token has been handed to the spawner. */
  ghost predicate FlaggedAreKilled(crew: Crew) {
    forall w | w in crew.workers && crew.workers[w].killRequested :: crew.workers[w].token in crew.kills
  }

  /** Each flag goes up once: a second confirm of the same worker kills nothing, whatever token it names. */
  lemma {:induction false} ConfirmKillsOnce(s: State, w: nat, token: nat, again: nat)
    requires w in s.crew.workers
    ensures var t := ConfirmStep(s, w, token, false);
      && ConfirmStep(t, w, again, false).crew.workers == t.crew.workers
      && ConfirmStep(t, w, again, false).crew.kills == t.crew.kills
      && |t.crew.kills| == |s.crew.kills| + (if s.crew.workers[w].killRequested then 0 else 1)
  {
  }

  // --- the grant ---

  /** Claims on a stream without a later Done or Error for their id. */
  function OpenClaims(fs: seq<Frame>): multiset<u32> {
    if fs == [] then multiset{}
    else
      var last, before := fs[|fs| - 1], OpenClaims(fs[..|fs| - 1]);
      if last.kind.Claim? then before + multiset{last.id}
      else if last.kind.Done? || last.kind.Error? then before - multiset{last.id}
      else before
  }

  /** The worker's side of the contract, as seen on its stream. */
  ghost predicate HonoursGrant(fs: seq<Frame>, granted: nat) {
    forall n | 0 <= n <= |fs| :: |OpenClaims(fs[..n])| <= granted
  }

  ghost predicate ClaimedAreOpen(readers: map<nat, Reader>, streams: seq<seq<Frame>>) {
    forall w | w in readers :: readers[w].stream < |streams|
      && forall id | id in readers[w].claimed :: OpenClaims(streams[readers[w].stream])[id] >= 1
  }

  lemma {:induction false} SetWithinMultiset(a: set<u32>, m: multiset<u32>)
    requires forall x | x in a :: m[x] >= 1
    ensures |a| <= |m|
    decreases |a|
  {
    if a != {} {
      var x :| x in a;
      SetWithinMultiset(a - {x}, m - multiset{x});
      assert |m - multiset{x}| == |m| - 1;
    }
  }

  lemma {:induction false} OpenAfter(fs: seq<Frame>, f: Frame)
    ensures OpenClaims(fs + [f]) ==
      if f.kind.Claim? then OpenClaims(fs) + multiset{f.id}
      else if f.kind.Done? || f.kind.Error? then OpenClaims(fs) - multiset{f.id}
      else OpenClaims(fs)
  {
    assert (fs + [f])[..|fs|] == fs;
  }

  lemma {:induction false} OpenGrown(readers: map<nat, Reader>, rs: map<nat, Reader>, streams: seq<seq<Frame>>, w: nat, f: Frame)
    requires ClaimedAreOpen(readers, streams) && w in readers && rs.Keys <= readers.Keys
    requires forall v | v in readers && v != w :: readers[v].stream != readers[w].stream
    requires forall v | v in rs && v != w :: rs[v] == readers[v]
    requires w in rs ==> rs[w].stream == readers[w].stream
    requires w in rs ==> rs[w].claimed <= readers[w].claimed + (if f.kind.Claim? then {f.id} else {})
    requires w in rs && (f.kind.Done? || f.kind.Error?) ==> f.id !in rs[w].claimed
    ensures ClaimedAreOpen(rs, Grown(streams, readers[w].stream, f))
  {
    OpenAfter(streams[readers[w].stream], f);
  }

  lemma {:induction false} OpenAfterHear(s: State, w: nat, f: Frame, full: set<nat>)
    requires ClaimedAreOpen(s.crew.readers, s.trace.streams) && w in s.crew.readers
    requires OwnStreams(s.crew.readers, s.trace)
    ensures var t := HearStep(s, w, f, full); ClaimedAreOpen(t.crew.readers, t.trace.streams)
  {
    HearOnStreams(s, w, f, full);
    if w in HearStep(s, w, f, full).crew.readers {
      ClaimedAfterHear(s, w, f, full);
    }
    OpenGrown(s.crew.readers, HearStep(s, w, f, full).crew.readers, s.trace.streams, w, f);
  }

  /** The streams are as they were and at most w's own reader has changed, but not its stream. */
  ghost predicate SameStreams(s: State, t: State, w: nat) {
    && t.trace.streams == s.trace.streams
    && t.crew.readers.Keys <= s.crew.readers.Keys
    && (w in t.crew.readers ==> w in s.crew.readers && t.crew.readers[w].stream == s.crew.readers[w].stream)
    && (forall v | v in t.crew.readers && v != w :: v in s.crew.readers && t.crew.readers[v] == s.crew.readers[v])
  }

  lemma {:induction false} ExitOnStreams(s: State, w: nat, full: set<nat>)
    requires w in s.crew.readers
    ensures SameStreams(s, ExitStep(s, w, full), w)
  {
    assert ExitStep(s, w, full).crew.readers == s.crew.readers - {w};
  }

  lemma {:induction false} OverClaimOnStreams(s: State, w: nat, full: set<nat>)
    requires w in s.crew.readers
    ensures SameStreams(s, OverClaimStep(s, w, full), w)
  {
    ExitOnStreams(s.(crew := if w in s.crew.workers then Kill(s.crew, w, s.crew.workers[w].token) else s.crew), w, full);
  }

  lemma {:induction false} ClaimOnStreams(s: State, w: nat, id: u32)
    requires w in s.crew.readers
    ensures SameStreams(s, ClaimStep(s, w, id), w)
  {
  }

  lemma {:induction false} FinishOnStreams(s: State, w: nat, f: Frame)
    requires w in s.crew.readers
    ensures SameStreams(s, FinishStep(s, w, f), w)
  {
  }

  lemma {:induction false} HearOnStreams(s: State, w: nat, f: Frame, full: set<nat>)
    requires w in s.crew.readers && s.crew.readers[w].stream < |s.trace.streams|
    ensures SameStreams(TookStep(s, w, f), HearStep(s, w, f, full), w)
    ensures TookStep(s, w, f).trace.streams == Grown(s.trace.streams, s.crew.readers[w].stream, f)
  {
    var t := TookStep(s, w, f);
    match TurnFor(s.crew, w, f)
    case Drop =>
    case OverClaim => OverClaimOnStreams(t, w, full);
    case TakeClaim => ClaimOnStreams(t, w, f.id);
    case Free => FinishOnStreams(t, w, f);
    case Forward =>
  }

  /** What a turn can do to the private set. */
  lemma {:induction false} ClaimedAfterHear(s: State, w: nat, f: Frame, full: set<nat>)
    requires w in s.crew.readers && w in HearStep(s, w, f, full).crew.readers
    ensures var now, before := HearStep(s, w, f, full).crew.readers[w].claimed, s.crew.readers[w].claimed;
      now <= before + (if f.kind.Claim? then {f.id} else {})
      && (f.kind.Done? || f.kind.Error? ==> f.id !in now)
  {
    match TurnFor(s.crew, w, f)
    case Drop =>
    case OverClaim =>
    case TakeClaim =>
    case Free =>
    case Forward =>
  }

  lemma {:induction false} OpenAfterJoin(cfg: Config, s: State, w: nat, token: nat, declared: u32)
    requires ClaimedAreOpen(s.crew.readers, s.trace.streams)
    ensures var t := JoinStep(cfg, s, w, token, declared); ClaimedAreOpen(t.crew.readers, t.trace.streams)
  {
  }

  lemma {:induction false} OpenAfterQuietStep(cfg: Config, s: State, a: Action)
    requires ClaimedAreOpen(s.crew.readers, s.trace.streams) && !a.Hear? && !a.Join?
    ensures var t := Next(cfg, s, a); ClaimedAreOpen(t.crew.readers, t.trace.streams)
  {
    var t := Next(cfg, s, a);
    assert t.trace.streams == s.trace.streams;
    assert t.crew.readers == s.crew.readers || (a.ReaderExit? && t.crew.readers == s.crew.readers - {a.worker});
  }

  lemma {:induction false} StepKeepsOpen(cfg: Config, s: State, a: Action)
    requires ClaimedAreOpen(s.crew.readers, s.trace.streams) && OwnStreams(s.crew.readers, s.trace)
    ensures var t := Next(cfg, s, a); ClaimedAreOpen(t.crew.readers, t.trace.streams)
  {
    if a.Hear? {
      if a.worker in s.crew.readers { OpenAfterHear(s, a.worker, a.frame, a.full); }
    } else if a.Join? {
      if a.worker !in s.crew.workers { OpenAfterJoin(cfg, s, a.worker, a.token, a.declared); }
    } else {
      OpenAfterQuietStep(cfg, s, a);
    }
  }

  lemma {:induction false} RunOwnsStreams(cfg: Config, actions: seq<Action>)
    requires FairRun(cfg, actions) && SmallRun(cfg, actions)
    ensures var s := Run(cfg, actions); OwnStreams(s.crew.readers, s.trace)
  {
    RunKeepsDemux(cfg, actions);
  }

  lemma {:induction false} RunKeepsOpen(cfg: Config, actions: seq<Action>)
    requires FairRun(cfg, actions) && SmallRun(cfg, actions)
    ensures var s := Run(cfg, actions); ClaimedAreOpen(s.crew.readers, s.trace.streams)
  {
    var n := |actions|;
    if n > 0 {
      ShorterRun(cfg, actions);
      var s := Run(cfg, actions[..n - 1]);
      RunKeepsOpen(cfg, actions[..n - 1]);
      RunOwnsStreams(cfg, actions[..n - 1]);
      StepKeepsOpen(cfg, s, actions[n - 1]);
      assert Run(cfg, actions) == Next(cfg, s, actions[n - 1]);
    }
  }

  lemma {:induction false} HonestClaimIsWithinGrant(crew: Crew, streams: seq<seq<Frame>>, w: nat, f: Frame)
    requires ClaimedAreOpen(crew.readers, streams) && w in crew.readers && w in crew.workers
    requires HonoursGrant(streams[crew.readers[w].stream] + [f], crew.workers[w].granted)
    ensures !TurnFor(crew, w, f).OverClaim?
  {
    if f.kind.Claim? {
      var fs := streams[crew.readers[w].stream];
      OpenAfter(fs, f);
      assert (fs + [f])[..|fs| + 1] == fs + [f];
      SetWithinMultiset(crew.readers[w].claimed, OpenClaims(fs));
      assert |OpenClaims(fs + [f])| == |OpenClaims(fs)| + 1;
    }
  }

  /** In every fair run a worker whose stream honours its grant is never killed for over-claiming. */
  lemma {:induction false} HonestWorkerNeverOverClaims(cfg: Config, actions: seq<Action>, w: nat, f: Frame)
    requires FairRun(cfg, actions) && SmallRun(cfg, actions)
    requires var s := Run(cfg, actions);
      && w in s.crew.readers && w in s.crew.workers && s.crew.readers[w].stream < |s.trace.streams|
      && HonoursGrant(s.trace.streams[s.crew.readers[w].stream] + [f], s.crew.workers[w].granted)
    ensures var s := Run(cfg, actions); w in s.crew.readers && !TurnFor(s.crew, w, f).OverClaim?
  {
    RunKeepsOpen(cfg, actions);
    HonestClaimIsWithinGrant(Run(cfg, actions).crew, Run(cfg, actions).trace.streams, w, f);
  }

  // --- one grant for the pool ---

  /** Every worker has the pool's grant, and a grant once seeded is finite and within the configured cap. */
  ghost predicate OneGrant(cfg: Config, crew: Crew) {
    && (forall w | w in crew.workers :: crew.workers[w].granted == crew.granted)
    && (crew.workers != map[] ==> crew.granted != 0)
    && (crew.granted != 0 ==> 1 <= crew.granted <= cfg.concurrencyCap && crew.granted < UNBOUNDED)
  }

  /** What configuration and handshake give: a cap of at least one, 2^32 - 1 if there is none, and a declared
      concurrency of at least one, an unbounded declaration being 2^32 - 1 too. */
  predicate SaneCap(cfg: Config) {
    1 <= cfg.concurrencyCap <= UNBOUNDED
  }

  predicate SaneJoin(a: Action) {
    a.Join? ==> a.declared >= 1
  }

  lemma {:induction false} GrantAfterHear(cfg: Config, s: State, w: nat, f: Frame, full: set<nat>)
    requires OneGrant(cfg, s.crew) && w in s.crew.readers
    ensures var t := HearStep(s, w, f, full).crew; OneGrant(cfg, t) && t.granted == s.crew.granted
  {
    match TurnFor(s.crew, w, f)
    case Drop =>
    case OverClaim => assert HearStep(s, w, f, full) == OverClaimStep(TookStep(s, w, f), w, full);
    case TakeClaim =>
    case Free =>
    case Forward =>
  }

  /** Only the first handshake of a pool sets its grant: whatever later workers declare, it stays. */
  lemma {:induction false} StepKeepsGrant(cfg: Config, s: State, a: Action)
    requires OneGrant(cfg, s.crew) && SaneCap(cfg) && SaneJoin(a)
    ensures var t := Next(cfg, s, a);
      OneGrant(cfg, t.crew) && (s.crew.granted != 0 ==> t.crew.granted == s.crew.granted)
  {
    if a.Hear? {
      if a.worker in s.crew.readers { GrantAfterHear(cfg, s, a.worker, a.frame, a.full); }
    }
  }

  lemma {:induction false} RunKeepsGrant(cfg: Config, actions: seq<Action>)
    requires SaneCap(cfg) && forall i | 0 <= i < |actions| :: SaneJoin(actions[i])
    ensures OneGrant(cfg, Run(cfg, actions).crew)
  {
    var n := |actions|;
    if n > 0 {
      RunKeepsGrant(cfg, actions[..n - 1]);
      StepKeepsGrant(cfg, Run(cfg, actions[..n - 1]), actions[n - 1]);
    }
  }

  lemma {:induction false} EqualGrantsAddUp(workers: map<nat, Worker>, ws: set<nat>, granted: nat)
    requires forall w | w in ws :: w in workers && workers[w].granted == granted
    ensures SumGrants(workers, ws) == |ws| * granted
    decreases |ws|
  {
    if ws != {} {
      var w :| w in ws && SumGrants(workers, ws) == workers[w].granted + SumGrants(workers, ws - {w});
      EqualGrantsAddUp(workers, ws - {w}, granted);
      assert |ws - {w}| == |ws| - 1;
    }
  }

  /** So the pending map holds at most the queue plus one grant for each live worker. */
  lemma {:induction false} PendingWithinGrants(cfg: Config, actions: seq<Action>)
    requires FairRun(cfg, actions) && SmallRun(cfg, actions)
    requires SaneCap(cfg) && forall i | 0 <= i < |actions| :: SaneJoin(actions[i])
    ensures var s := Run(cfg, actions);
      |s.table.pending| <= cfg.queueMax + |s.crew.readers| * s.crew.granted
      && s.crew.granted <= cfg.concurrencyCap
  {
    var s := Run(cfg, actions);
    RunKeepsInv(cfg, actions);
    RunKeepsGrant(cfg, actions);
    EqualGrantsAddUp(s.crew.workers, s.crew.readers.Keys, s.crew.granted);
    assert |s.crew.readers.Keys| == |s.crew.readers|;
  }

  // --- the id counter ---

  /** While fewer than 2^32 - 1 requests have been submitted, request c has the id c + 1. */
  ghost predicate Unwrapped(s: State) {
    |s.trace.channels| < U32_LIMIT - 1 ==>
      && s.table.nextId == |s.trace.channels| + 1
      && (forall id | id in s.table.pending :: 1 <= id <= |s.trace.channels|)
      && (forall c | c in s.permits.sending :: s.permits.sending[c] == c + 1 <= |s.trace.channels|)
      && (forall c | c in s.permits.open :: s.permits.open[c] == c + 1 <= |s.trace.channels|)
  }

  lemma {:induction false} UnwrappedAfterSubmit(s: State)
    requires Unwrapped(s)
    ensures Unwrapped(SubmitStep(s))
  {
    if |s.trace.channels| < U32_LIMIT - 2 {
      assert s.table.nextId !in s.table.pending;
      assert FreshId(s.table) == |s.trace.channels| + 1;
    }
  }

  lemma {:induction false} UnwrappedAfterExit(s: State, w: nat, full: set<nat>)
    requires Unwrapped(s) && w in s.crew.readers
    ensures Unwrapped(ExitStep(s, w, full)) && |ExitStep(s, w, full).trace.channels| == |s.trace.channels|
  {
  }

  lemma {:induction false} UnwrappedAfterHear(s: State, w: nat, f: Frame, full: set<nat>)
    requires Unwrapped(s) && w in s.crew.readers
    ensures Unwrapped(HearStep(s, w, f, full)) && |HearStep(s, w, f, full).trace.channels| == |s.trace.channels|
  {
    var t := TookStep(s, w, f);
    match TurnFor(s.crew, w, f)
    case Drop =>
    case OverClaim =>
      UnwrappedAfterExit(t.(crew := if w in t.crew.workers then Kill(t.crew, w, t.crew.workers[w].token) else t.crew), w,
                         full);
    case TakeClaim =>
    case Free =>
    case Forward =>
  }

  lemma {:induction false} UnwrappedAfterSweep(cfg: Config, s: State)
    requires Unwrapped(s)
    ensures Unwrapped(SweepStep(cfg, s))
  {
    assert SweepStep(cfg, s).table.pending.Keys == s.table.pending.Keys;
  }

  lemma {:induction false} UnwrappedAfterQuietStep(cfg: Config, s: State, a: Action)
    requires Unwrapped(s) && !a.Submit? && !a.Hear? && !a.Sweep?
    ensures Unwrapped(Next(cfg, s, a)) && |s.trace.channels| <= |Next(cfg, s, a).trace.channels|
  {
    if a.ReaderExit? && a.worker in s.crew.readers {
      UnwrappedAfterExit(s, a.worker, a.full);
    }
  }

  lemma {:induction false} StepKeepsUnwrapped(cfg: Config, s: State, a: Action)
    requires Unwrapped(s)
    ensures Unwrapped(Next(cfg, s, a))
    ensures |s.trace.channels| <= |Next(cfg, s, a).trace.channels|
  {
    match a
    case Submit => UnwrappedAfterSubmit(s);
    case Hear(w, f, full) => if w in s.crew.readers { UnwrappedAfterHear(s, w, f, full); }
    case Sweep => UnwrappedAfterSweep(cfg, s);
    case _ => UnwrappedAfterQuietStep(cfg, s, a);
  }

  lemma {:induction false} RunKeepsUnwrapped(cfg: Config, actions: seq<Action>)
    ensures Unwrapped(Run(cfg, actions))
  {
    if actions != [] {
      RunKeepsUnwrapped(cfg, actions[..|actions| - 1]);
      StepKeepsUnwrapped(cfg, Run(cfg, actions[..|actions| - 1]), actions[|actions| - 1]);
    }
  }

  lemma {:induction false} ChannelsOnlyGrow(cfg: Config, actions: seq<Action>, n: nat)
    requires n <= |actions|
    ensures |Run(cfg, actions[..n]).trace.channels| <= |Run(cfg, actions).trace.channels|
    decreases |actions|
  {
    if n == |actions| {
      assert actions[..n] == actions;
    } else {
      var short := actions[..|actions| - 1];
      ChannelsOnlyGrow(cfg, short, n);
      assert short[..n] == actions[..n];
      RunKeepsUnwrapped(cfg, short);
      StepKeepsUnwrapped(cfg, Run(cfg, short), actions[|actions| - 1]);
    }
  }

  /** Workers claim only ids whose datagram was sent. */
  ghost predicate ClaimsFollowSends(cfg: Config, actions: seq<Action>) {
    forall i | 0 <= i < |actions| && actions[i].Hear? && actions[i].frame.kind.Claim? ::
      actions[i].frame.id !in Run(cfg, actions[..i]).permits.sending.Values
  }

  /** Below 2^32 - 1 submits the id half of fairness needs no assumption. */
  lemma {:induction false} UnwrappedRunsAreFair(cfg: Config, actions: seq<Action>)
    requires ClaimsFollowSends(cfg, actions) && |Run(cfg, actions).trace.channels| < U32_LIMIT - 1
    ensures FairRun(cfg, actions)
  {
    forall i | 0 <= i < |actions|
      ensures Fair(Run(cfg, actions[..i]), actions[i])
    {
      var s := Run(cfg, actions[..i]);
      RunKeepsUnwrapped(cfg, actions[..i]);
      ChannelsOnlyGrow(cfg, actions, i);
      assert s.table.nextId !in s.table.pending;
    }
  }

  /** Dropping a stream takes another request's entry exactly when the id has come round to it unclaimed. */
  lemma {:induction false} DropTakesAnotherEntry(s: State, c: nat)
    requires c in s.permits.open
    ensures (exists id :: id in s.table.pending && s.table.pending[id].channel != c
              && id !in DropStreamStep(s, c).table.pending)
       <==> Unclaimed(s.table.pending, s.permits.open[c]) && s.table.pending[s.permits.open[c]].channel != c
  {
    var id := s.permits.open[c];
    if Unclaimed(s.table.pending, id) && s.table.pending[id].channel != c {
      assert id in s.table.pending && id !in DropStreamStep(s, c).table.pending;
    }
  }
}
