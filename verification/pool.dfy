/** The pool's shared state as it is updated in place; every method refines a step of `PoolState`. */
module PoolObject {
  import opened Bytes
  import opened Frame
  import opened PoolState
  import opened PoolBooks
  import opened PoolDemux
  import opened PoolSweep

  /** A worker the sweep wants to kill, and a defiant task of it to probe. */
  datatype Suspect = Suspect(worker: nat, token: nat, probeTask: u32)

  // --- one turn of each loop ---

  lemma {:induction false} CandidateStep(c: u32, k: nat)
    ensures Wrap(Candidate32(c, k) + 1) == Candidate32(c, k + 1)
  {
  }

  lemma {:induction false} OneLess(ids: set<u32>, todo: set<u32>, id: u32)
    requires todo <= ids && id in todo
    ensures ids - (todo - {id}) == (ids - todo) + {id}
    ensures |todo - {id}| == |todo| - 1
  {
  }

  /** One more id drained. */
  lemma {:induction false} DrainOneMore(p: Pendings, done: set<u32>, id: u32)
    requires id !in done
    ensures p - (done + {id}) == (p - done) - {id}
    ensures |p.Keys * (done + {id})| == |p.Keys * done| + if id in p then 1 else 0
  {
    assert p.Keys * (done + {id}) == p.Keys * done + if id in p then {id} else {};
  }

  lemma {:induction false} DrainOneChannel(p: Pendings, done: set<u32>, id: u32)
    requires id !in done
    ensures ChannelsOf(p, done + {id}) == ChannelsOf(p, done) + if id in p then {p[id].channel} else {}
  {
  }

  lemma {:induction false} AbsentId(p: Pendings, done: set<u32>, id: u32)
    requires id !in p
    ensures p - (done + {id}) == p - done && p.Keys * (done + {id}) == p.Keys * done
    ensures ChannelsOf(p, done + {id}) == ChannelsOf(p, done)
  {
  }

  lemma {:induction false} ChannelStillOpen(p: Pendings, done: set<u32>, id: u32)
    requires id in p && id !in done && OneEntryEach(p)
    ensures p[id].channel !in ChannelsOf(p, done)
  {
  }

  function ToldAt(channels: seq<Channel>, c: nat, full: set<nat>): seq<Channel> {
    if c < |channels| && c !in full then channels[c := Told(channels[c], true)] else channels
  }

  /** The channels after the reader's drain has reached the requests in `gone`. */
  function ToldAll(t: Trace, gone: set<nat>, full: set<nat>): seq<Channel> {
    TellGone(t, gone, full, 0).channels
  }

  /** One more channel told. */
  lemma {:induction false} TellOneMore(t: Trace, gone: set<nat>, full: set<nat>, c: nat)
    requires c !in gone
    ensures ToldAll(t, gone + {c}, full) == ToldAt(ToldAll(t, gone, full), c, full)
  {
  }

  /** The table and the channels as the drain of a reader found them. */
  datatype Room = Room(pending: Pendings, inFlight: int, trace: Trace)

  /** What has become of them once `done` are drained. */
  ghost predicate Drained(r: Room, full: set<nat>, done: set<u32>, pending: Pendings, inFlight: int, chs: seq<Channel>) {
    && pending == r.pending - done
    && inFlight == r.inFlight - |r.pending.Keys * done|
    && chs == ToldAll(r.trace, ChannelsOf(r.pending, done), full)
  }

  lemma {:induction false} NothingDrained(r: Room, full: set<nat>)
    ensures Drained(r, full, {}, r.pending, r.inFlight, r.trace.channels)
  {
    assert ChannelsOf(r.pending, {}) == {} && ToldAll(r.trace, {}, full) == r.trace.channels;
    assert r.pending - {} == r.pending && r.pending.Keys * {} == {};
  }

  function RoomOf(s: State): Room {
    Room(s.table.pending, s.table.inFlight, s.trace)
  }

  lemma {:induction false} DrainedIsExit(s: State, w: nat, full: set<nat>, pending: Pendings, inFlight: int, chs: seq<Channel>)
    requires w in s.crew.readers && Drained(RoomOf(s), full, s.crew.readers[w].claimed, pending, inFlight, chs)
    ensures ExitStep(s, w, full).table == Table(pending, s.table.nextId, inFlight)
    ensures ExitStep(s, w, full).trace.channels == chs
  {
  }

  /** The exit step, put together from its parts. */
  lemma {:induction false} ExitIs(s: State, w: nat, full: set<nat>, table: Table, trace: Trace)
    requires w in s.crew.readers && table == ExitStep(s, w, full).table && trace == ExitStep(s, w, full).trace
    ensures ExitStep(s, w, full)
         == PoolState.State(table, s.permits, s.crew.(readers := s.crew.readers - {w}),
                            trace, s.now)
  {
  }

  lemma {:induction false} DrainTurn(r: Room, full: set<nat>, done: set<u32>, pending: Pendings, inFlight: int, chs: seq<Channel>, id: u32)
    requires Drained(r, full, done, pending, inFlight, chs) && id in pending && id !in done
    requires r.pending[id].channel !in ChannelsOf(r.pending, done)
    ensures Drained(r, full, done + {id}, pending - {id}, inFlight - 1, ToldAt(chs, pending[id].channel, full))
  {
    DrainOneMore(r.pending, done, id);
    DrainOneChannel(r.pending, done, id);
    TellOneMore(r.trace, ChannelsOf(r.pending, done), full, r.pending[id].channel);
  }

  lemma {:induction false} SkipTurn(r: Room, full: set<nat>, done: set<u32>, pending: Pendings, inFlight: int, chs: seq<Channel>, id: u32)
    requires Drained(r, full, done, pending, inFlight, chs) && id !in pending && id !in done
    ensures Drained(r, full, done + {id}, pending, inFlight, chs)
  {
    AbsentId(r.pending, done, id);
  }

  /** The defiant tasks of worker w among those the sweep has seen. */
  function DefiantSeen(cfg: Config, p: Pendings, now: nat, w: nat, seen: set<u32>): set<u32> {
    set id | id in seen && id in p && IsDefiant(cfg, p[id], now) && p[id].claimedBy == Some(w)
  }

  function OverSeen(cfg: Config, p: Pendings, now: nat, seen: set<u32>): set<u32> {
    set id | id in seen && id in p && OverBudget(cfg, p[id], now)
  }

  lemma {:induction false} SeeOneMore(cfg: Config, p: Pendings, now: nat, seen: set<u32>, id: u32, w: nat)
    requires id !in seen && id in p
    ensures DefiantSeen(cfg, p, now, w, seen + {id}) ==
      DefiantSeen(cfg, p, now, w, seen) + if IsDefiant(cfg, p[id], now) && p[id].claimedBy == Some(w) then {id} else {}
    ensures OverSeen(cfg, p, now, seen + {id}) ==
      OverSeen(cfg, p, now, seen) + if OverBudget(cfg, p[id], now) then {id} else {}
  {
  }

  /** What the sweep's tally says about one worker, of whose tasks `ids` are defiant. */
  ghost predicate TalliedFor(defiant: map<nat, (nat, u32)>, w: nat, ids: set<u32>) {
    if ids == {} then w !in defiant else w in defiant && defiant[w].0 == |ids| && defiant[w].1 in ids
  }

  ghost predicate Tallied(cfg: Config, p: Pendings, now: nat, seen: set<u32>, defiant: map<nat, (nat, u32)>) {
    forall w :: TalliedFor(defiant, w, DefiantSeen(cfg, p, now, w, seen))
  }

  function Tally(defiant: map<nat, (nat, u32)>, w: nat, id: u32): map<nat, (nat, u32)> {
    defiant[w := if w in defiant then (defiant[w].0 + 1, defiant[w].1) else (1, id)]
  }

  lemma {:induction false} TallyFor(defiant: map<nat, (nat, u32)>, w: nat, ids: set<u32>, v: nat, id: u32)
    requires TalliedFor(defiant, w, ids) && id !in ids
    ensures TalliedFor(Tally(defiant, v, id), w, if v == w then ids + {id} else ids)
  {
  }

  /** The tally after one more task. */
  function TallyTask(cfg: Config, e: Pending, now: nat, id: u32, defiant: map<nat, (nat, u32)>): map<nat, (nat, u32)> {
    if IsDefiant(cfg, e, now) && e.claimedBy.Some? then Tally(defiant, e.claimedBy.value, id) else defiant
  }

  lemma {:induction false} TallyOneMore(cfg: Config, p: Pendings, now: nat, seen: set<u32>, id: u32, defiant: map<nat, (nat, u32)>)
    requires Tallied(cfg, p, now, seen, defiant) && id !in seen && id in p
    ensures Tallied(cfg, p, now, seen + {id}, TallyTask(cfg, p[id], now, id, defiant))
  {
    forall w: nat
      ensures TalliedFor(TallyTask(cfg, p[id], now, id, defiant), w, DefiantSeen(cfg, p, now, w, seen + {id}))
    {
      SeeOneMore(cfg, p, now, seen, id, w);
      assert TalliedFor(defiant, w, DefiantSeen(cfg, p, now, w, seen));
      if IsDefiant(cfg, p[id], now) && p[id].claimedBy.Some? {
        TallyFor(defiant, w, DefiantSeen(cfg, p, now, w, seen), p[id].claimedBy.value, id);
      }
    }
  }

  /** One more task marked. */
  lemma {:induction false} MarkOneMore(cfg: Config, p: Pendings, now: nat, seen: set<u32>, id: u32)
    requires id !in seen && id in p
    ensures MarkAborted(p, OverSeen(cfg, p, now, seen), now)[id] == p[id]
    ensures MarkAborted(p, OverSeen(cfg, p, now, seen + {id}), now)
      == MarkAborted(p, OverSeen(cfg, p, now, seen), now)[id := Marked(p[id], OverBudget(cfg, p[id], now), now)]
  {
  }

  /** Where the sweep's loop stands once it has looked at `seen`. */
  ghost predicate Swept(cfg: Config, p: Pendings, now: nat, seen: set<u32>, pending: Pendings, toAbort: seq<u32>,
                        defiant: map<nat, (nat, u32)>) {
    && pending == MarkAborted(p, OverSeen(cfg, p, now, seen), now)
    && multiset(toAbort) == multiset(OverSeen(cfg, p, now, seen))
    && Tallied(cfg, p, now, seen, defiant)
  }

  lemma {:induction false} NothingSwept(cfg: Config, p: Pendings, now: nat)
    ensures Swept(cfg, p, now, {}, p, [], map[])
  {
    assert forall w :: DefiantSeen(cfg, p, now, w, {}) == {};
    assert OverSeen(cfg, p, now, {}) == {};
  }

  lemma {:induction false} SweepTurn(cfg: Config, p: Pendings, now: nat, seen: set<u32>, pending: Pendings, toAbort: seq<u32>,
                  defiant: map<nat, (nat, u32)>, id: u32)
    requires Swept(cfg, p, now, seen, pending, toAbort, defiant) && id !in seen && id in p
    ensures id in pending && pending[id] == p[id]
    ensures Swept(cfg, p, now, seen + {id}, pending[id := Marked(p[id], OverBudget(cfg, p[id], now), now)],
                  toAbort + (if OverBudget(cfg, p[id], now) then [id] else []), TallyTask(cfg, p[id], now, id, defiant))
  {
    MarkOneMore(cfg, p, now, seen, id);
    SeeOneMore(cfg, p, now, seen, id, 0);
    TallyOneMore(cfg, p, now, seen, id, defiant);
  }

  lemma {:induction false} AllSeen(cfg: Config, p: Pendings, now: nat)
    ensures forall w :: DefiantSeen(cfg, p, now, w, p.Keys) == DefiantOf(cfg, p, now, w)
    ensures OverSeen(cfg, p, now, p.Keys) == ToAbort(cfg, p, now)
  {
    assert OverSeen(cfg, p, now, p.Keys) == ToAbort(cfg, p, now);
    forall w: nat
      ensures DefiantSeen(cfg, p, now, w, p.Keys) == DefiantOf(cfg, p, now, w)
    {
      assert DefiantSeen(cfg, p, now, w, p.Keys) == DefiantOf(cfg, p, now, w);
    }
  }

  predicate OverThreshold(workers: map<nat, Worker>, defiant: map<nat, (nat, u32)>, w: nat) {
    w in defiant && w in workers && !workers[w].killRequested && defiant[w].0 >= Threshold(workers[w].granted)
  }

  predicate Matches(workers: map<nat, Worker>, defiant: map<nat, (nat, u32)>, x: Suspect) {
    OverThreshold(workers, defiant, x.worker) && x.token == workers[x.worker].token && x.probeTask == defiant[x.worker].1
  }

  predicate Named(suspects: seq<Suspect>, w: nat) {
    exists i :: 0 <= i < |suspects| && suspects[i].worker == w
  }

  predicate Distinct(suspects: seq<Suspect>) {
    forall i, j | 0 <= i < j < |suspects| :: suspects[i].worker != suspects[j].worker
  }

  /** A suspect is a kill candidate, by its own token and one of its own defiant tasks. */
  predicate Justified(cfg: Config, s: State, x: Suspect) {
    && KillCandidate(cfg, s, x.worker) && x.token == s.crew.workers[x.worker].token
    && x.probeTask in DefiantOf(cfg, s.table.pending, s.now, x.worker)
  }

  lemma {:induction false} NameOneMore(suspects: seq<Suspect>, x: Suspect)
    ensures forall w :: Named(suspects + [x], w) <==> Named(suspects, w) || w == x.worker
  {
    var more := suspects + [x];
    forall w: nat
      ensures Named(more, w) <==> Named(suspects, w) || w == x.worker
    {
      if Named(suspects, w) {
        var i :| 0 <= i < |suspects| && suspects[i].worker == w;
        assert more[i].worker == w;
      }
      assert more[|suspects|] == x;
    }
  }

  function Pairs(suspects: seq<Suspect>): set<(nat, nat)> {
    set x | x in suspects :: (x.worker, x.token)
  }

  lemma {:induction false} NamedAreCandidates(cfg: Config, s: State, suspects: seq<Suspect>)
    requires forall w :: KillCandidate(cfg, s, w) <==> Named(suspects, w)
    requires forall x | x in suspects :: Justified(cfg, s, x)
    ensures Pairs(suspects) == Candidates(cfg, s)
  {
    forall pair | pair in Candidates(cfg, s)
      ensures pair in Pairs(suspects)
    {
      var w :| w in s.crew.workers && KillCandidate(cfg, s, w) && pair == (w, s.crew.workers[w].token);
      assert Named(suspects, w);
      var i :| 0 <= i < |suspects| && suspects[i].worker == w;
      assert suspects[i] in suspects && Justified(cfg, s, suspects[i]);
    }
    forall pair | pair in Pairs(suspects)
      ensures pair in Candidates(cfg, s)
    {
      var x :| x in suspects && pair == (x.worker, x.token);
      assert Justified(cfg, s, x);
    }
  }

  /** The counts of the tally are the true cardinalities. */
  lemma {:induction false} CandidatesAreOver(cfg: Config, s: State, defiant: map<nat, (nat, u32)>)
    requires Tallied(cfg, s.table.pending, s.now, s.table.pending.Keys, defiant)
    ensures forall w :: KillCandidate(cfg, s, w) <==> OverThreshold(s.crew.workers, defiant, w)
    ensures forall x :: Matches(s.crew.workers, defiant, x) ==> Justified(cfg, s, x)
  {
    forall w: nat
      ensures TalliedFor(defiant, w, DefiantOf(cfg, s.table.pending, s.now, w))
    {
      AllSeen(cfg, s.table.pending, s.now);
      assert TalliedFor(defiant, w, DefiantSeen(cfg, s.table.pending, s.now, w, s.table.pending.Keys));
    }
  }

  lemma {:induction false} SameChannels(p: Pendings, q: Pendings, ids: set<u32>)
    requires p.Keys == q.Keys && forall id | id in p :: p[id].channel == q[id].channel
    ensures ChannelsOf(p, ids) == ChannelsOf(q, ids)
  {
  }

  /** The sweep step, put together from its parts. */
  lemma {:induction false} SweepIs(cfg: Config, s: State, pending: Pendings, chs: seq<Channel>, named: set<(nat, nat)>)
    requires pending == MarkAborted(s.table.pending, ToAbort(cfg, s.table.pending, s.now), s.now)
    requires chs == CountAborts(s.trace, ChannelsOf(s.table.pending, ToAbort(cfg, s.table.pending, s.now))).channels
    requires named == s.crew.named + Candidates(cfg, s)
    ensures SweepStep(cfg, s)
         == s.(table := s.table.(pending := pending), crew := s.crew.(named := named), trace := s.trace.(channels := chs))
  {
  }

  /** Some suspect of the list that did not answer idle is worker w. */
  predicate Convicted(suspects: seq<Suspect>, idle: seq<bool>, w: nat)
    requires |idle| == |suspects|
  {
    exists i :: 0 <= i < |suspects| && !idle[i] && suspects[i].worker == w
  }

  /** The tokens of those suspects that did not answer idle and are up without a flag, in order. */
  function Sentences(workers: map<nat, Worker>, suspects: seq<Suspect>, idle: seq<bool>): seq<nat>
    requires |idle| == |suspects|
  {
    if suspects == [] then []
    else
      var n := |suspects| - 1;
      var x := suspects[n];
      Sentences(workers, suspects[..n], idle[..n])
      + if !idle[n] && x.worker in workers && !workers[x.worker].killRequested then [x.token] else []
  }

  /** Who is flagged, and which tokens have been killed, once the list has been gone through. */
  ghost predicate Punished(workers: map<nat, Worker>, kills: seq<nat>, suspects: seq<Suspect>, idle: seq<bool>,
                           after: map<nat, Worker>, killed: seq<nat>)
    requires |idle| == |suspects|
  {
    && after.Keys == workers.Keys && killed == kills + Sentences(workers, suspects, idle)
    && forall w | w in workers ::
         after[w] == workers[w].(killRequested := workers[w].killRequested || Convicted(suspects, idle, w))
  }

  lemma {:induction false} ConvictedMore(suspects: seq<Suspect>, idle: seq<bool>, x: Suspect, spared: bool, w: nat)
    requires |idle| == |suspects|
    ensures Convicted(suspects + [x], idle + [spared], w) <==> Convicted(suspects, idle, w) || (!spared && x.worker == w)
  {
    var more, answers := suspects + [x], idle + [spared];
    assert more[|suspects|] == x && answers[|suspects|] == spared;
    assert forall i | 0 <= i < |suspects| :: more[i] == suspects[i] && answers[i] == idle[i];
  }

  lemma {:induction false} OneMorePunished(workers: map<nat, Worker>, kills: seq<nat>, suspects: seq<Suspect>, idle: seq<bool>,
                                           crew: Crew, x: Suspect, spared: bool)
    requires |idle| == |suspects| && Punished(workers, kills, suspects, idle, crew.workers, crew.kills)
    requires !Named(suspects, x.worker)
    ensures var after := if spared then crew else Kill(crew, x.worker, x.token);
      Punished(workers, kills, suspects + [x], idle + [spared], after.workers, after.kills)
  {
    var more, answers := suspects + [x], idle + [spared];
    assert more[..|suspects|] == suspects && answers[..|idle|] == idle;
    assert Sentences(workers, more, answers) == Sentences(workers, suspects, idle)
      + if !spared && x.worker in workers && !workers[x.worker].killRequested then [x.token] else [];
    assert !Convicted(suspects, idle, x.worker);
    forall w | w in workers
      ensures Convicted(more, answers, w) <==> Convicted(suspects, idle, w) || (!spared && x.worker == w)
    {
      ConvictedMore(suspects, idle, x, spared, w);
    }
  }

  lemma {:induction false} NextPunished(crew: Crew, suspects: seq<Suspect>, idle: seq<bool>, i: nat, now: Crew)
    requires |idle| == |suspects| && i < |suspects| && Distinct(suspects)
    requires Punished(crew.workers, crew.kills, suspects[..i], idle[..i], now.workers, now.kills)
    ensures var after := if idle[i] then now else Kill(now, suspects[i].worker, suspects[i].token);
      Punished(crew.workers, crew.kills, suspects[..i + 1], idle[..i + 1], after.workers, after.kills)
  {
    assert suspects[..i + 1] == suspects[..i] + [suspects[i]] && idle[..i + 1] == idle[..i] + [idle[i]];
    OneMorePunished(crew.workers, crew.kills, suspects[..i], idle[..i], now, suspects[i], idle[i]);
  }

  /** What a pass decides. It aborts, once each, the tasks that have run over; it names, once each, the overdue workers,
      by their own tokens, each with a task of its own that it is stuck with. */
  ghost predicate Decision(cfg: Config, s: State, toAbort: seq<u32>, suspects: seq<Suspect>) {
    && (forall id :: multiset(toAbort)[id] == if RanOver(cfg, s.table.pending, s.now, id) then 1 else 0)
    && (forall w :: Named(suspects, w) <==> Overdue(cfg, s, w)) && Distinct(suspects)
    && forall x | x in suspects ::
         x.worker in s.crew.workers && x.token == s.crew.workers[x.worker].token
         && StuckWith(cfg, s.table.pending, s.now, x.worker, x.probeTask)
  }

  lemma {:induction false} DecisionIs(cfg: Config, s: State, toAbort: seq<u32>, suspects: seq<Suspect>)
    requires multiset(toAbort) == multiset(ToAbort(cfg, s.table.pending, s.now))
    requires (forall w :: KillCandidate(cfg, s, w) <==> Named(suspects, w)) && Distinct(suspects)
    requires forall x | x in suspects :: Justified(cfg, s, x)
    ensures Decision(cfg, s, toAbort, suspects)
  {
    forall w: nat
      ensures Named(suspects, w) <==> Overdue(cfg, s, w)
    {
      CandidatesByNumber(cfg, s, w);
    }
  }

  /** One Abort more for each request of the list, none for the others, and no event for anybody. */
  ghost predicate AbortsCounted(before: seq<Channel>, after: seq<Channel>, pending: Pendings, ids: seq<u32>) {
    && |after| == |before|
    && forall c | 0 <= c < |before| ::
         after[c].sent == before[c].sent
         && after[c].aborts == before[c].aborts
                               + if exists id :: id in ids && id in pending && pending[id].channel == c then 1 else 0
  }

  lemma {:induction false} AbortsAreCounted(t: Trace, pending: Pendings, chosen: set<u32>, ids: seq<u32>)
    requires forall id :: id in chosen <==> id in ids
    ensures AbortsCounted(t.channels, CountAborts(t, ChannelsOf(pending, chosen)).channels, pending, ids)
  {
    forall c: nat
      ensures c in ChannelsOf(pending, chosen) <==> exists id :: id in ids && id in pending && pending[id].channel == c
    {
    }
  }

  class Pool {
    var pending: Pendings
    var nextId: u32
    var inFlight: int
    var permits: Permits
    var workers: map<nat, Worker>
    var readers: map<nat, Reader>
    var granted: nat
    var kills: seq<nat>
    ghost var retired: set<nat>
    ghost var named: set<(nat, nat)>
    var channels: seq<Channel>
    var now: nat
    ghost var streams: seq<seq<Frame>>
    ghost var claims: map<nat, ClaimRecord>

    ghost function State(): State
      reads this
    {
      PoolState.State(Table(pending, nextId, inFlight), permits, Crew(workers, readers, granted, kills, retired, named),
                      Trace(channels, streams, claims), now)
    }

    constructor (cfg: Config)
      ensures State() == Init(cfg)
    {
      pending, nextId, inFlight := map[], 1, 0;
      permits := Permits(cfg.queueMax, 0, map[], map[]);
      workers, readers, granted, kills, retired, named := map[], map[], 0, [], {}, {};
      channels, now, streams, claims := [], 0, [], map[];
    }

    /** The wrapping id loop of `submit`. */
    method AllocateId() returns (id: u32)
      requires |pending| < U32_LIMIT
      modifies this`nextId
      ensures id == NextFree(pending.Keys, old(nextId)) && id !in pending && nextId == Wrap(id + 1)
    {
      ghost var start := nextId;
      ghost var left := pending.Keys;
      ghost var tries := NextFreeIsFree(pending.Keys, nextId);
      ghost var k := 0;
      id := nextId;
      nextId := Wrap(nextId + 1);
      assert Candidate32(start, 0) == id;
      while id in pending
        invariant nextId == Wrap(id + 1) && id == Candidate32(start, k) && k <= tries
        decreases tries - k
      {
        assert k != tries;
        CandidateStep(start, k);
        id := nextId;
        nextId := Wrap(nextId + 1);
        k := k + 1;
      }
      assert k < tries ==> Candidate32(start, k) in pending.Keys;
    }

    /** `submit` up to the send: an id, an entry and an event channel. */
    method Submit() returns (channel: nat)
      requires |pending| < U32_LIMIT && permits.reserved > 0
      modifies this
      ensures State() == SubmitStep(old(State())) && channel == |old(channels)|
    {
      channel := |channels|;
      var id := AllocateId();
      pending := pending[id := Pending(channel, None, None, false, None)];
      channels := channels + [Channel([], 0)];
      inFlight := inFlight + 1;
      permits := permits.(reserved := permits.reserved - 1, sending := permits.sending[channel := id]);
    }

    method Remove(id: u32)
      modifies this`pending, this`inFlight
      ensures State().table == RemovePending(old(State()).table, id)
    {
      if id in pending {
        pending := pending - {id};
        inFlight := inFlight - 1;
      }
    }

    /** The error path of `submit` after the send. */
    method SendFailed(c: nat)
      requires c in permits.sending
      modifies this
      ensures State() == SendFailedStep(old(State()), c)
    {
      Remove(permits.sending[c]);
      permits := permits.(sending := permits.sending - {c}, available := permits.available + 1);
    }

    /** The `Drop` of a response stream. */
    method DropStream(c: nat)
      requires c in permits.open
      modifies this
      ensures State() == DropStreamStep(old(State()), c)
    {
      var id := permits.open[c];
      if id in pending && pending[id].claimedBy.None? {
        Remove(id);
      }
      permits := permits.(open := permits.open - {c}, available := permits.available + 1);
    }

    method SendEvent(c: nat, ev: Event)
      modifies this`channels
      ensures State().trace == Send(old(State()).trace, c, [ev])
    {
      if c < |channels| {
        channels := channels[c := channels[c].(sent := channels[c].sent + [ev])];
      }
    }

    method RequestKill(w: nat, token: nat)
      modifies this`workers, this`kills
      ensures State().crew == Kill(old(State()).crew, w, token)
    {
      if w in workers && !workers[w].killRequested {
        workers := workers[w := workers[w].(killRequested := true)];
        kills := kills + [token];
      }
    }

    /** One id of a lost reader: its entry goes, its channel is told if it has room. */
    method Orphan(id: u32, full: set<nat>, ghost r: Room, ghost done: set<u32>)
      requires Drained(r, full, done, pending, inFlight, channels) && id !in done && OneEntryEach(r.pending)
      modifies this`pending, this`inFlight, this`channels
      ensures Drained(r, full, done + {id}, pending, inFlight, channels)
    {
      if id in pending {
        ChannelStillOpen(r.pending, done, id);
        DrainTurn(r, full, done, pending, inFlight, channels, id);
        var c := pending[id].channel;
        pending := pending - {id};
        inFlight := inFlight - 1;
        if c < |channels| && c !in full {
          channels := channels[c := Told(channels[c], true)];
        }
      } else {
        SkipTurn(r, full, done, pending, inFlight, channels, id);
      }
    }

    /** The drain after a reader's loop, one claimed id at a time. */
    method Drain(ids: set<u32>, full: set<nat>, ghost r: Room)
      requires Drained(r, full, {}, pending, inFlight, channels) && OneEntryEach(r.pending)
      modifies this`pending, this`inFlight, this`channels
      ensures Drained(r, full, ids, pending, inFlight, channels)
    {
      var todo := ids;
      while todo != {}
        invariant todo <= ids && Drained(r, full, ids - todo, pending, inFlight, channels)
        decreases |todo|
      {
        var id :| id in todo;
        Orphan(id, full, r, ids - todo);
        OneLess(ids, todo, id);
        todo := todo - {id};
      }
    }

    /** What the drain of reader w leaves behind. */
    method DrainReader(w: nat, full: set<nat>)
      requires w in readers && OneEntryEach(pending)
      modifies this`pending, this`inFlight, this`channels
      ensures Table(pending, nextId, inFlight) == ExitStep(old(State()), w, full).table
      ensures channels == ExitStep(old(State()), w, full).trace.channels
    {
      ghost var s := State();
      NothingDrained(RoomOf(s), full);
      Drain(readers[w].claimed, full, RoomOf(s));
      DrainedIsExit(s, w, full, pending, inFlight, channels);
    }

    method ExitReader(w: nat, full: set<nat>)
      requires w in readers && OneEntryEach(pending)
      modifies this
      ensures State() == ExitStep(old(State()), w, full)
    {
      ghost var s := State();
      ghost var gone := ExitStep(s, w, full).trace.claims;
      DrainReader(w, full);
      readers := readers - {w};
      claims := gone;
      ExitIs(s, w, full, Table(pending, nextId, inFlight), Trace(channels, streams, claims));
    }

    method TakeClaim(w: nat, id: u32)
      requires w in readers
      modifies this
      ensures State() == ClaimStep(old(State()), w, id)
    {
      if id in pending && pending[id].claimedBy.None? {
        claims := Record(State().trace, pending[id].channel, readers[w].stream, id, now).claims;
        pending := pending[id := pending[id].(claimedBy := Some(w), claimedAt := Some(now))];
        readers := readers[w := readers[w].(claimed := readers[w].claimed + {id})];
      }
    }

    /** `Done` and `Error`: the last event goes out and the claim is finished. */
    method TellEnd(c: nat, f: Frame, stream: nat)
      requires f.kind.Done? || f.kind.Error?
      modifies this`channels, this`claims
      ensures State().trace == Finish(Send(old(State()).trace, c, Translate(f)), c, stream)
    {
      SendEvent(c, if f.kind.Done? then EvEnd else EvFailed(WorkerFailed));
      claims := Finish(State().trace, c, stream).claims;
    }

    method FreeSlot(w: nat, f: Frame)
      requires w in readers && (f.kind.Done? || f.kind.Error?)
      modifies this`pending, this`inFlight, this`channels, this`readers, this`claims
      ensures State() == FinishStep(old(State()), w, f)
    {
      readers := readers[w := readers[w].(claimed := readers[w].claimed - {f.id})];
      if f.id in pending {
        var c := pending[f.id].channel;
        Remove(f.id);
        TellEnd(c, f, readers[w].stream);
      }
    }

    /** The event of a frame that leaves the slot in place; kinds a worker never sends have none. */
    method EventOf(f: Frame) returns (ev: Option<Event>)
      requires !f.kind.Done? && !f.kind.Error?
      ensures Translate(f) == if ev.Some? then [ev.value] else []
    {
      match f.kind
      case ResponseHeaders => return Some(EvHeaders(if f.aux < 100 then 100 else if f.aux > 599 then 599 else f.aux, f.payload));
      case ResponseBody => return Some(EvChunk(f.payload));
      case Flush => return Some(EvFlush);
      case WsMessage => return Some(EvWs(f.aux, f.payload));
      case End => return Some(EvEnd);
      case _ => return None;
    }

    method Forward(f: Frame)
      requires !f.kind.Done? && !f.kind.Error?
      modifies this
      ensures State() == ForwardStep(old(State()), f)
    {
      var ev := EventOf(f);
      if ev.None? {
        SendNothing(State(), f);
      } else if f.id in pending {
        SendEvent(pending[f.id].channel, ev.value);
      }
    }

    /** One turn of the reader loop. A frame other than a Claim reaches the channel of the request it names, if this
      worker has claimed it, and no other. */
    method Hear(w: nat, f: Frame, full: set<nat>)
      requires w in readers && OneEntryEach(pending)
      modifies this
      ensures State() == HearStep(old(State()), w, f, full)
      ensures !f.kind.Claim? && f.id in old(readers[w].claimed) && f.id in old(pending) ==>
        OneCarried(old(channels), channels, old(pending[f.id].channel), f)
      ensures !f.kind.Claim? && (f.id !in old(readers[w].claimed) || f.id !in old(pending)) ==> channels == old(channels)
    {
      ghost var s := State();
      var claimed := readers[w].claimed;
      streams := Heard(State().trace, readers[w].stream, f).streams;
      assert State() == TookStep(s, w, f);
      if RequestScoped(f.kind) && f.id !in claimed {
      } else if f.kind.Claim? {
        if w in workers && |claimed| >= workers[w].granted {
          RequestKill(w, workers[w].token);
          ExitReader(w, full);
        } else {
          TakeClaim(w, f.id);
        }
      } else if f.kind.Done? || f.kind.Error? {
        FreeSlot(w, f);
      } else if RequestScoped(f.kind) {
        Forward(f);
      }
      if !f.kind.Claim? {
        HearCarries(s, w, f, full);
      }
    }

    /** The loop of the sweep over the table, in any order. */
    method MarkOverBudget(cfg: Config) returns (toAbort: seq<u32>, defiant: map<nat, (nat, u32)>)
      modifies this`pending
      ensures pending == MarkAborted(old(pending), ToAbort(cfg, old(pending), now), now)
      ensures multiset(toAbort) == multiset(ToAbort(cfg, old(pending), now))
      ensures Tallied(cfg, old(pending), now, old(pending).Keys, defiant)
    {
      ghost var p := pending;
      ghost var seen: set<u32> := {};
      toAbort, defiant := [], map[];
      var todo := pending.Keys;
      NothingSwept(cfg, p, now);
      while todo != {}
        invariant seen == p.Keys - todo && todo <= p.Keys
        invariant Swept(cfg, p, now, seen, pending, toAbort, defiant)
        decreases todo
      {
        var id :| id in todo;
        SweepTurn(cfg, p, now, seen, pending, toAbort, defiant, id);
        toAbort, defiant := Consider(cfg, id, toAbort, defiant);
        seen := seen + {id};
        todo := todo - {id};
      }
      assert seen == p.Keys;
      AllSeen(cfg, p, now);
    }

    /** The body of that loop. */
    method Consider(cfg: Config, id: u32, toAbort: seq<u32>, defiant: map<nat, (nat, u32)>)
        returns (more: seq<u32>, tally: map<nat, (nat, u32)>)
      requires id in pending
      modifies this`pending
      ensures var e := old(pending[id]);
        && pending == old(pending)[id := Marked(e, OverBudget(cfg, e, now), now)]
        && more == toAbort + (if OverBudget(cfg, e, now) then [id] else [])
        && tally == TallyTask(cfg, e, now, id, defiant)
    {
      more, tally := toAbort, defiant;
      var e := pending[id];
      assert pending == pending[id := e];
      if e.claimedAt.Some? {
        if !e.abortSent {
          if Since(now, e.claimedAt.value) >= cfg.taskTimeout {
            pending := pending[id := e.(abortSent := true, abortedAt := Some(now))];
            more := toAbort + [id];
          }
        } else if e.abortedAt.Some? && Since(now, e.abortedAt.value) >= cfg.grace && e.claimedBy.Some? {
          tally := Tally(defiant, e.claimedBy.value, id);
        }
      }
    }

    /** The kill candidates among the workers with defiant tasks, in any order. */
    method PickSuspects(defiant: map<nat, (nat, u32)>) returns (suspects: seq<Suspect>)
      ensures forall x | x in suspects :: Matches(workers, defiant, x)
      ensures forall w :: Named(suspects, w) <==> OverThreshold(workers, defiant, w)
      ensures forall w :: Named(suspects, w) <==> (w in defiant && w in workers && !workers[w].killRequested
        && defiant[w].0 >= 1 && workers[w].granted <= 2 * defiant[w].0 + 1)
      ensures Distinct(suspects)
    {
      suspects := [];
      var ws := defiant.Keys;
      while ws != {}
        invariant ws <= defiant.Keys
        invariant forall x | x in suspects :: Matches(workers, defiant, x) && x.worker !in ws
        invariant forall w :: Named(suspects, w) <==> OverThreshold(workers, defiant, w) && w !in ws
        invariant Distinct(suspects)
        decreases ws
      {
        var w :| w in ws;
        if w in workers && defiant[w].0 >= Threshold(workers[w].granted) && !workers[w].killRequested {
          NameOneMore(suspects, Suspect(w, workers[w].token, defiant[w].1));
          suspects := suspects + [Suspect(w, workers[w].token, defiant[w].1)];
        }
        ws := ws - {w};
      }
    }

    /** The first half of a pass: whom to abort, and the tally of the defiant. */
    method AbortOverBudget(cfg: Config) returns (toAbort: seq<u32>, defiant: map<nat, (nat, u32)>)
      modifies this`pending, this`channels
      ensures pending == MarkAborted(old(pending), ToAbort(cfg, old(pending), now), now)
      ensures channels == CountAborts(old(State()).trace, ChannelsOf(old(pending), ToAbort(cfg, old(pending), now))).channels
      ensures AbortsCounted(old(channels), channels, old(pending), toAbort)
      ensures multiset(toAbort) == multiset(ToAbort(cfg, old(pending), now))
      ensures Tallied(cfg, old(pending), now, old(pending).Keys, defiant)
    {
      ghost var p := pending;
      toAbort, defiant := MarkOverBudget(cfg);
      var chosen := set id | id in toAbort;
      assert chosen == ToAbort(cfg, p, now) by {
        assert forall id :: id in toAbort <==> id in multiset(toAbort);
      }
      SameChannels(p, pending, chosen);
      AbortsAreCounted(Trace(channels, [], map[]), p, chosen, toAbort);
      channels := CountAborts(Trace(channels, [], map[]), ChannelsOf(pending, chosen)).channels;
    }

    /** One task_timeout pass: whom to abort and whom to probe. */
    method SweepDecide(cfg: Config) returns (toAbort: seq<u32>, suspects: seq<Suspect>)
      modifies this`pending, this`channels, this`named
      ensures State() == SweepStep(cfg, old(State()))
      ensures Decision(cfg, old(State()), toAbort, suspects) && Pairs(suspects) <= named
      ensures AbortsCounted(old(channels), channels, old(pending), toAbort)
    {
      ghost var s := State();
      var defiant;
      toAbort, defiant := AbortOverBudget(cfg);
      suspects := PickSuspects(defiant);
      CandidatesAreOver(cfg, s, defiant);
      NamedAreCandidates(cfg, s, suspects);
      named := named + Pairs(suspects);
      SweepIs(cfg, s, pending, channels, named);
      DecisionIs(cfg, s, toAbort, suspects);
    }

    /** What follows a candidate's probe. */
    method ConfirmOne(cfg: Config, x: Suspect, idle: bool)
      requires (x.worker, x.token) in named
      modifies this`workers, this`kills, this`named
      ensures State() == Next(cfg, old(State()), Confirm(x.worker, x.token, idle))
      ensures named == old(named) - {(x.worker, x.token)}
    {
      named := named - {(x.worker, x.token)};
      if !idle {
        RequestKill(x.worker, x.token);
      }
    }

    /** The body of the loop that follows the probes. */
    method ConfirmNext(cfg: Config, suspects: seq<Suspect>, idle: seq<bool>, i: nat, ghost crew: Crew)
      requires |idle| == |suspects| && i < |suspects| && Distinct(suspects)
      requires (suspects[i].worker, suspects[i].token) in named
      requires Punished(crew.workers, crew.kills, suspects[..i], idle[..i], workers, kills)
      modifies this`workers, this`kills, this`named
      ensures State() == Next(cfg, old(State()), Confirm(suspects[i].worker, suspects[i].token, idle[i]))
      ensures named == old(named) - {(suspects[i].worker, suspects[i].token)}
      ensures Punished(crew.workers, crew.kills, suspects[..i + 1], idle[..i + 1], workers, kills)
    {
      NextPunished(crew, suspects, idle, i, State().crew);
      ConfirmOne(cfg, suspects[i], idle[i]);
    }

    /** `confirm_and_kill`: idle candidates are spared, the others flagged and killed, in order. */
    method ConfirmAndKill(cfg: Config, suspects: seq<Suspect>, idle: seq<bool>)
      requires |idle| == |suspects| && Distinct(suspects) && Pairs(suspects) <= named
      modifies this`workers, this`kills, this`named
      ensures State() == ConfirmAll(cfg, old(State()), suspects, idle)
      ensures Punished(old(workers), old(kills), suspects, idle, workers, kills)
    {
      ghost var s := State();
      for i := 0 to |suspects|
        invariant State() == ConfirmAll(cfg, s, suspects[..i], idle[..i])
        invariant Punished(s.crew.workers, s.crew.kills, suspects[..i], idle[..i], workers, kills)
        invariant forall j | i <= j < |suspects| :: (suspects[j].worker, suspects[j].token) in named
      {
        assert suspects[..i + 1][..i] == suspects[..i] && idle[..i + 1][..i] == idle[..i];
        ConfirmNext(cfg, suspects, idle, i, s.crew);
      }
      assert suspects[..|suspects|] == suspects && idle[..|idle|] == idle;
    }

    /** The first handshake sets the pool's grant. */
    method SeedGrant(cfg: Config, declared: u32)
      modifies this`granted
      ensures granted == Grant(cfg, old(granted), declared)
    {
      if granted == 0 {
        granted := if declared < cfg.concurrencyCap then declared else cfg.concurrencyCap;
        if granted == UNBOUNDED {
          granted := DEFAULT_CONCURRENCY_CAP;
        }
      }
    }

    /** The handshake's end: the slot's worker is up, and its connection is the next one. */
    method WorkerUp(cfg: Config, w: nat, token: nat, declared: u32, stream: nat)
      requires w !in workers && w !in retired && stream == |streams|
      modifies this`granted, this`workers, this`readers, this`streams
      ensures State() == Next(cfg, old(State()), Join(w, token, declared))
      ensures workers == old(workers)[w := Worker(token, granted, false, now)]
      ensures old(granted) != 0 ==> granted == old(granted)
      ensures old(granted) == 0 && cfg.concurrencyCap < declared ==> granted == cfg.concurrencyCap
      ensures old(granted) == 0 && declared <= cfg.concurrencyCap ==> granted == if declared == 0xFFFF_FFFF then 1024 else declared
    {
      SeedGrant(cfg, declared);
      workers := workers[w := Worker(token, granted, false, now)];
      readers := readers[w := Reader(stream, {})];
      streams := streams + [[]];
    }

    /** The slot's task once its reader has returned: `again` says that it fills the slot again under the same id. */
    method WorkerGone(cfg: Config, w: nat) returns (again: bool)
      requires w in workers && w !in readers && w !in retired
      modifies this`workers, this`retired
      ensures State() == Next(cfg, old(State()), Action.Remove(w)) && (again <==> w !in retired)
      ensures again <==> cfg.healthyUptime > 0 && now < old(workers[w].up) + cfg.healthyUptime
    {
      var up := workers[w].up;
      workers := workers - {w};
      again := Since(now, up) < cfg.healthyUptime;
      if !again {
        retired := retired + {w};
      }
    }
  }

  lemma {:induction false} SendNothing(s: State, f: Frame)
    requires Translate(f) == []
    ensures ForwardStep(s, f) == s
  {
    if f.id in s.table.pending && s.table.pending[f.id].channel < |s.trace.channels| {
      var c := s.table.pending[f.id].channel;
      assert s.trace.channels[c].sent + [] == s.trace.channels[c].sent;
      assert s.trace.channels[c := s.trace.channels[c]] == s.trace.channels;
    }
  }

  function ConfirmAll(cfg: Config, s: State, suspects: seq<Suspect>, idle: seq<bool>): State
    requires |idle| == |suspects|
  {
    if suspects == [] then s
    else
      var n := |suspects| - 1;
      Next(cfg, ConfirmAll(cfg, s, suspects[..n], idle[..n]), Confirm(suspects[n].worker, suspects[n].token, idle[n]))
  }
}
