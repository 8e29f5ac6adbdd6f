/** Permits, counters and the bound on the pending map, over every fair run. */
module PoolPermits {
  import opened Bytes
  import opened Frame
  import opened PoolState
  import opened PoolBooks

  /** Channel c's permit holder still stands, and names id. */
  predicate Holds(p: Permits, c: nat, id: u32) {
    (c in p.sending && p.sending[c] == id) || (c in p.open && p.open[c] == id)
  }

  /** A permit stands behind every unclaimed entry; an entry whose datagram is not yet sent is unclaimed;
      an id that a response stream still names belongs to no other request. */
  ghost predicate Backed(pending: Pendings, p: Permits) {
    && (forall id | Unclaimed(pending, id) :: Holds(p, pending[id].channel, id))
    && (forall c | c in p.sending :: c !in p.open && Unclaimed(pending, p.sending[c])
          && pending[p.sending[c]].channel == c)
    && (forall c | c in p.open && p.open[c] in pending :: pending[p.open[c]].channel == c)
  }

  /** Channels in use are numbered below n. */
  ghost predicate Below(n: nat, pending: Pendings, p: Permits) {
    && (forall id | id in pending :: pending[id].channel < n)
    && (forall c | c in p.sending :: c < n)
    && (forall c | c in p.open :: c < n)
  }

  predicate Counted(t: Table) {
    t.inFlight == |t.pending|
  }

  predicate Balanced(cfg: Config, p: Permits) {
    p.available >= 0 && p.available + p.reserved + |p.sending| + |p.open| == cfg.queueMax
  }

  // --- what stands behind the entries, step by step ---

  lemma {:induction false} BackedAfterSubmit(t: Table, p: Permits, c: nat)
    requires Backed(t.pending, p) && |t.pending| < U32_LIMIT && c !in p.sending && c !in p.open
    requires FreshId(t) !in p.sending.Values && FreshId(t) !in p.open.Values
    ensures Backed(Insert(t, c).pending, p.(sending := p.sending[c := FreshId(t)]))
  {
    FreshIdIsFree(t);
    assert forall d | d in p.sending :: p.sending[d] in p.sending.Values;
    assert forall d | d in p.open :: p.open[d] in p.open.Values;
  }

  lemma {:induction false} BackedAfterSent(pending: Pendings, p: Permits, c: nat)
    requires Backed(pending, p) && c in p.sending
    ensures Backed(pending, p.(sending := p.sending - {c}, open := p.open[c := p.sending[c]]))
  {
  }

  lemma {:induction false} BackedAfterSendFailed(t: Table, p: Permits, c: nat, n: int)
    requires Backed(t.pending, p) && c in p.sending
    ensures Backed(RemovePending(t, p.sending[c]).pending, p.(sending := p.sending - {c}, available := n))
  {
  }

  lemma {:induction false} BackedAfterDrop(t: Table, p: Permits, c: nat, n: int)
    requires Backed(t.pending, p) && c in p.open
    ensures Backed(RemoveIfUnclaimed(t, p.open[c]).pending, p.(open := p.open - {c}, available := n))
  {
  }

  lemma {:induction false} BackedAfterClaim(t: Table, p: Permits, id: u32, w: nat, now: nat)
    requires Backed(t.pending, p) && Unclaimed(t.pending, id) && id !in p.sending.Values
    ensures Backed(MarkClaimed(t, id, w, now).pending, p)
  {
    assert forall d | d in p.sending :: p.sending[d] in p.sending.Values;
  }

  lemma {:induction false} BackedWithout(pending: Pendings, p: Permits, gone: set<u32>)
    requires Backed(pending, p) && forall id | id in gone :: !Unclaimed(pending, id)
    ensures Backed(pending - gone, p)
  {
  }

  lemma {:induction false} BackedAfterMark(pending: Pendings, p: Permits, ids: set<u32>, now: nat)
    requires Backed(pending, p)
    ensures Backed(MarkAborted(pending, ids, now), p)
  {
    var q := MarkAborted(pending, ids, now);
    assert forall id :: Unclaimed(q, id) <==> Unclaimed(pending, id);
  }

  lemma {:induction false} BackedAfterHear(s: State, w: nat, f: Frame, full: set<nat>)
    requires Backed(s.table.pending, s.permits) && BooksOf(s) && w in s.crew.readers
    requires Fair(s, Hear(w, f, full))
    ensures HearStep(s, w, f, full).permits == s.permits
    ensures Backed(HearStep(s, w, f, full).table.pending, s.permits)
  {
    var claimed := s.crew.readers[w].claimed;
    assert forall id | id in claimed :: id in ClaimedBy(s.table.pending, w);
    match TurnFor(s.crew, w, f)
    case Drop =>
    case OverClaim => BackedWithout(s.table.pending, s.permits, claimed);
    case TakeClaim =>
      if Unclaimed(s.table.pending, f.id) {
        BackedAfterClaim(s.table, s.permits, f.id, w, s.now);
      }
    case Free => BackedWithout(s.table.pending, s.permits, {f.id});
    case Forward =>
  }

  lemma {:induction false} StepKeepsBacked(cfg: Config, s: State, a: Action)
    requires Backed(s.table.pending, s.permits) && BooksOf(s) && |s.table.pending| < U32_LIMIT && Fair(s, a)
    requires Below(|s.trace.channels|, s.table.pending, s.permits)
    ensures Backed(Next(cfg, s, a).table.pending, Next(cfg, s, a).permits)
  {
    match a
    case Submit => if s.permits.reserved > 0 { BackedAfterSubmit(s.table, s.permits, |s.trace.channels|); }
    case Sent(c) => if c in s.permits.sending { BackedAfterSent(s.table.pending, s.permits, c); }
    case SendFailed(c) =>
      if c in s.permits.sending { BackedAfterSendFailed(s.table, s.permits, c, s.permits.available + 1); }
    case DropStream(c) =>
      if c in s.permits.open { BackedAfterDrop(s.table, s.permits, c, s.permits.available + 1); }
    case Hear(w, f, full) => if w in s.crew.readers { BackedAfterHear(s, w, f, full); }
    case ReaderExit(w, full) =>
      if w in s.crew.readers {
        assert forall id | id in s.crew.readers[w].claimed :: id in ClaimedBy(s.table.pending, w);
        BackedWithout(s.table.pending, s.permits, s.crew.readers[w].claimed);
      }
    case Sweep => BackedAfterMark(s.table.pending, s.permits, ToAbort(cfg, s.table.pending, s.now), s.now);
    case _ =>
  }

  lemma {:induction false} BelowAfterHear(s: State, w: nat, f: Frame, full: set<nat>)
    requires Below(|s.trace.channels|, s.table.pending, s.permits) && w in s.crew.readers
    ensures var t := HearStep(s, w, f, full); Below(|t.trace.channels|, t.table.pending, t.permits)
  {
    var t := TookStep(s, w, f);
    match TurnFor(s.crew, w, f)
    case Drop =>
    case OverClaim =>
      BelowAfterExit(t.(crew := if w in t.crew.workers then Kill(t.crew, w, t.crew.workers[w].token) else t.crew), w, full);
    case TakeClaim =>
    case Free =>
    case Forward =>
  }

  lemma {:induction false} BelowAfterExit(s: State, w: nat, full: set<nat>)
    requires Below(|s.trace.channels|, s.table.pending, s.permits) && w in s.crew.readers
    ensures var t := ExitStep(s, w, full); Below(|t.trace.channels|, t.table.pending, t.permits)
  {
  }

  lemma {:induction false} BelowAfterSubmit(s: State)
    requires Below(|s.trace.channels|, s.table.pending, s.permits)
    ensures var t := SubmitStep(s); Below(|t.trace.channels|, t.table.pending, t.permits)
  {
  }

  lemma {:induction false} BelowAfterSweep(cfg: Config, s: State)
    requires Below(|s.trace.channels|, s.table.pending, s.permits)
    ensures var t := SweepStep(cfg, s); Below(|t.trace.channels|, t.table.pending, t.permits)
  {
  }

  lemma {:induction false} BelowAfterQuietStep(cfg: Config, s: State, a: Action)
    requires Below(|s.trace.channels|, s.table.pending, s.permits) && !a.Submit? && !a.Hear? && !a.Sweep?
    ensures var t := Next(cfg, s, a); Below(|t.trace.channels|, t.table.pending, t.permits)
  {
    if a.ReaderExit? && a.worker in s.crew.readers {
      BelowAfterExit(s, a.worker, a.full);
    }
  }

  lemma {:induction false} StepKeepsBelow(cfg: Config, s: State, a: Action)
    requires Below(|s.trace.channels|, s.table.pending, s.permits)
    ensures var t := Next(cfg, s, a); Below(|t.trace.channels|, t.table.pending, t.permits)
  {
    match a
    case Submit => BelowAfterSubmit(s);
    case Hear(w, f, full) => if w in s.crew.readers { BelowAfterHear(s, w, f, full); }
    case Sweep => BelowAfterSweep(cfg, s);
    case _ => BelowAfterQuietStep(cfg, s, a);
  }

  // --- counters ---

  lemma {:induction false} SmallerByOne<K, V>(m: map<K, V>, k: K)
    requires k in m
    ensures |m - {k}| == |m| - 1
  {
    assert (m - {k}).Keys == m.Keys - {k};
  }

  lemma {:induction false} LargerByOne<K, V>(m: map<K, V>, k: K, v: V)
    requires k !in m
    ensures |m[k := v]| == |m| + 1
  {
    assert m[k := v].Keys == m.Keys + {k};
  }

  lemma {:induction false} CountedAfterRemoval(t: Table, id: u32)
    requires Counted(t)
    ensures Counted(RemovePending(t, id))
  {
    if id in t.pending {
      SmallerByOne(t.pending, id);
    }
  }

  lemma {:induction false} CountedAfterInsert(t: Table, c: nat)
    requires Counted(t) && |t.pending| < U32_LIMIT
    ensures Counted(Insert(t, c))
  {
    FreshIdIsFree(t);
    LargerByOne(t.pending, FreshId(t), Pending(c, None, None, false, None));
  }

  lemma {:induction false} CountedAfterRemoveAll(t: Table, gone: set<u32>)
    requires Counted(t)
    ensures Counted(RemoveAll(t, gone))
  {
    var p := t.pending;
    assert (p - gone).Keys == p.Keys - gone;
    assert p.Keys == (p.Keys - gone) + (p.Keys * gone);
  }

  lemma {:induction false} CountedAfterClaim(t: Table, id: u32, w: nat, now: nat)
    requires Counted(t) && id in t.pending
    ensures Counted(MarkClaimed(t, id, w, now))
  {
    assert MarkClaimed(t, id, w, now).pending.Keys == t.pending.Keys;
  }

  lemma {:induction false} CountedAfterHear(s: State, w: nat, f: Frame, full: set<nat>)
    requires Counted(s.table) && w in s.crew.readers
    ensures Counted(HearStep(s, w, f, full).table)
  {
    match TurnFor(s.crew, w, f)
    case Drop =>
    case OverClaim => CountedAfterRemoveAll(s.table, s.crew.readers[w].claimed);
    case TakeClaim => if Unclaimed(s.table.pending, f.id) { CountedAfterClaim(s.table, f.id, w, s.now); }
    case Free => CountedAfterRemoval(s.table, f.id);
    case Forward =>
  }

  /** `in_flight` is the size of the pending map after every step. */
  lemma {:induction false} CountedAfterSweep(cfg: Config, s: State)
    requires Counted(s.table)
    ensures Counted(SweepStep(cfg, s).table)
  {
    assert SweepStep(cfg, s).table.pending.Keys == s.table.pending.Keys;
  }

  lemma {:induction false} TableStays(cfg: Config, s: State, a: Action)
    requires a.Reserve? || a.Release? || a.Sent? || a.Join? || a.Remove? || a.Tick? || a.Confirm?
    ensures Next(cfg, s, a).table == s.table
  {
  }

  lemma {:induction false} StepKeepsCounted(cfg: Config, s: State, a: Action)
    requires Counted(s.table) && |s.table.pending| < U32_LIMIT
    ensures Counted(Next(cfg, s, a).table)
  {
    match a
    case Submit => CountedAfterInsert(s.table, |s.trace.channels|);
    case SendFailed(c) => if c in s.permits.sending { CountedAfterRemoval(s.table, s.permits.sending[c]); }
    case DropStream(c) => if c in s.permits.open { CountedAfterRemoval(s.table, s.permits.open[c]); }
    case Hear(w, f, full) => if w in s.crew.readers { CountedAfterHear(s, w, f, full); }
    case ReaderExit(w, full) =>
      if w in s.crew.readers { CountedAfterRemoveAll(s.table, s.crew.readers[w].claimed); }
    case Sweep => CountedAfterSweep(cfg, s);
    case _ => TableStays(cfg, s, a);
  }

  lemma {:induction false} BalancedAfterHear(cfg: Config, s: State, w: nat, f: Frame, full: set<nat>)
    requires Balanced(cfg, s.permits) && w in s.crew.readers
    ensures Balanced(cfg, HearStep(s, w, f, full).permits)
  {
    match TurnFor(s.crew, w, f)
    case Drop =>
    case OverClaim =>
    case TakeClaim =>
    case Free =>
    case Forward =>
  }

  /** No permit is lost or made: the free ones and the held ones always add up to `queue.max`. */
  lemma {:induction false} StepKeepsBalanced(cfg: Config, s: State, a: Action)
    requires Balanced(cfg, s.permits)
    requires forall c | c in s.permits.sending :: c !in s.permits.open && c < |s.trace.channels|
    ensures Balanced(cfg, Next(cfg, s, a).permits)
  {
    match a
    case Submit =>
      if s.permits.reserved > 0 { LargerByOne(s.permits.sending, |s.trace.channels|, FreshId(s.table)); }
    case Sent(c) =>
      if c in s.permits.sending {
        SmallerByOne(s.permits.sending, c);
        LargerByOne(s.permits.open, c, s.permits.sending[c]);
      }
    case SendFailed(c) => if c in s.permits.sending { SmallerByOne(s.permits.sending, c); }
    case DropStream(c) => if c in s.permits.open { SmallerByOne(s.permits.open, c); }
    case Hear(w, f, full) => if w in s.crew.readers { BalancedAfterHear(cfg, s, w, f, full); }
    case _ =>
  }

  // --- the bound on the pending map ---

  /** The grants of a set of workers, added up. */
  ghost function SumGrants(workers: map<nat, Worker>, ws: set<nat>): nat
    requires forall w | w in ws :: w in workers
    decreases |ws|
  {
    if ws == {} then 0 else
      var w :| w in ws;
      workers[w].granted + SumGrants(workers, ws - {w})
  }

  function ClaimedByAny(pending: Pendings, ws: set<nat>): set<u32> {
    set id | id in pending && pending[id].claimedBy.Some? && pending[id].claimedBy.value in ws
  }

  lemma {:induction false} ClaimsWithinGrants(pending: Pendings, crew: Crew, ws: set<nat>)
    requires Books(pending, crew.workers, crew.readers)
    requires forall w | w in ws :: w in crew.readers
    ensures |ClaimedByAny(pending, ws)| <= SumGrants(crew.workers, ws)
    decreases |ws|
  {
    if ws == {} {
      assert ClaimedByAny(pending, ws) == {};
    } else {
      var w :| w in ws && SumGrants(crew.workers, ws)
                       == crew.workers[w].granted + SumGrants(crew.workers, ws - {w});
      ClaimsWithinGrants(pending, crew, ws - {w});
      OneClaimerMore(pending, ws, w);
      assert |ClaimedBy(pending, w)| <= crew.workers[w].granted;
    }
  }

  lemma {:induction false} OneClaimerMore(pending: Pendings, ws: set<nat>, w: nat)
    requires w in ws
    ensures |ClaimedByAny(pending, ws)| == |ClaimedByAny(pending, ws - {w})| + |ClaimedBy(pending, w)|
  {
    var rest, own := ClaimedByAny(pending, ws - {w}), ClaimedBy(pending, w);
    assert ClaimedByAny(pending, ws) == rest + own;
    assert rest !! own;
  }

  lemma {:induction false} FewValues<K, V>(m: map<K, V>)
    ensures |m.Values| <= |m|
    decreases |m|
  {
    if m.Keys == {} {
      assert m.Values == {};
    } else {
      var k :| k in m;
      SmallerByOne(m, k);
      FewValues(m - {k});
      assert m.Values <= (m - {k}).Values + {m[k]} by {
        forall v | v in m.Values
          ensures v in (m - {k}).Values + {m[k]}
        {
          var j :| j in m && m[j] == v;
          if j != k {
            assert j in m - {k} && (m - {k})[j] == v;
          }
        }
      }
      CardAtMost(m.Values, (m - {k}).Values + {m[k]});
      assert |(m - {k}).Values + {m[k]}| <= |(m - {k}).Values| + 1;
    }
  }

  lemma {:induction false} CardAtMost<T>(a: set<T>, b: set<T>)
    requires a <= b
    ensures |a| <= |b|
  {
    assert b == a + (b - a);
  }

  /** Never more entries than queue permits plus grants of live workers. */
  lemma {:induction false} PendingWithinBound(cfg: Config, s: State)
    requires BooksOf(s) && Backed(s.table.pending, s.permits) && Balanced(cfg, s.permits)
    ensures |s.table.pending| <= cfg.queueMax + SumGrants(s.crew.workers, s.crew.readers.Keys)
  {
    var p := s.table.pending;
    var waiting := set id | Unclaimed(p, id) && id in p;
    var taken := ClaimedByAny(p, s.crew.readers.Keys);
    assert p.Keys == waiting + taken;
    var named := s.permits.sending.Values + s.permits.open.Values;
    forall id | id in waiting
      ensures id in named
    {
      assert Holds(s.permits, p[id].channel, id);
    }
    CardAtMost(waiting, named);
    FewValues(s.permits.sending);
    FewValues(s.permits.open);
    ClaimsWithinGrants(p, s.crew, s.crew.readers.Keys);
    assert |waiting + taken| <= |waiting| + |taken|;
    assert |named| <= |s.permits.sending.Values| + |s.permits.open.Values|;
  }

  // --- every reachable state ---

  ghost predicate Inv(cfg: Config, s: State) {
    && BooksOf(s)
    && Backed(s.table.pending, s.permits)
    && Below(|s.trace.channels|, s.table.pending, s.permits)
    && Counted(s.table)
    && Balanced(cfg, s.permits)
  }

  /** Queue and grants fit the request-id space. */
  ghost predicate Small(cfg: Config, s: State) {
    (forall w | w in s.crew.readers :: w in s.crew.workers)
    && cfg.queueMax + SumGrants(s.crew.workers, s.crew.readers.Keys) < U32_LIMIT
  }

  lemma {:induction false} FairImpliesSendFailsUnclaimed(s: State, a: Action)
    requires Backed(s.table.pending, s.permits)
    ensures SendFailsUnclaimed(s, a)
  {
  }

  lemma {:induction false} StepKeepsInv(cfg: Config, s: State, a: Action)
    requires Inv(cfg, s) && Small(cfg, s) && Fair(s, a)
    ensures Inv(cfg, Next(cfg, s, a))
  {
    PendingWithinBound(cfg, s);
    FairImpliesSendFailsUnclaimed(s, a);
    StepKeepsBooks(cfg, s, a);
    StepKeepsBacked(cfg, s, a);
    StepKeepsBelow(cfg, s, a);
    StepKeepsCounted(cfg, s, a);
    StepKeepsBalanced(cfg, s, a);
  }

  ghost predicate SmallRun(cfg: Config, actions: seq<Action>) {
    forall i | 0 <= i <= |actions| :: Small(cfg, Run(cfg, actions[..i]))
  }

  /** In every fair run the books agree, the counters agree and the bound holds at every step boundary. */
  lemma {:induction false} RunKeepsInv(cfg: Config, actions: seq<Action>)
    requires FairRun(cfg, actions) && SmallRun(cfg, actions)
    ensures Inv(cfg, Run(cfg, actions))
    ensures var s := Run(cfg, actions);
      |s.table.pending| <= cfg.queueMax + SumGrants(s.crew.workers, s.crew.readers.Keys)
  {
    var n := |actions|;
    if n == 0 {
      var s := Init(cfg);
      assert ClaimedByAny(s.table.pending, s.crew.readers.Keys) == {};
    } else {
      ShorterRun(cfg, actions);
      RunKeepsInv(cfg, actions[..n - 1]);
      assert Small(cfg, Run(cfg, actions[..n - 1]));
      assert Fair(Run(cfg, actions[..n - 1]), actions[n - 1]);
      StepKeepsInv(cfg, Run(cfg, actions[..n - 1]), actions[n - 1]);
    }
    PendingWithinBound(cfg, Run(cfg, actions));
  }

  lemma {:induction false} ShorterRun(cfg: Config, actions: seq<Action>)
    requires FairRun(cfg, actions) && SmallRun(cfg, actions) && actions != []
    ensures FairRun(cfg, actions[..|actions| - 1]) && SmallRun(cfg, actions[..|actions| - 1])
  {
    var short := actions[..|actions| - 1];
    forall i | 0 <= i <= |short|
      ensures Small(cfg, Run(cfg, short[..i]))
    {
      assert short[..i] == actions[..i];
    }
    forall i | 0 <= i < |short|
      ensures Fair(Run(cfg, short[..i]), short[i])
    {
      assert short[..i] == actions[..i];
    }
  }
}
