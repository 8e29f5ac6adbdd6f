/** Whom the kill hits: the worker that the sweep named, as long as its slot is not filled again too soon. */
module PoolKill {
  import opened Bytes
  import opened Frame
  import opened PoolState
  import opened PoolBooks
  import opened PoolPermits
  import opened PoolDemux
  import opened PoolSweep

  // --- a worker claims only while it is up ---

  predicate ClaimedSince(e: Pending, workers: map<nat, Worker>) {
    e.claimedBy.Some? && e.claimedAt.Some? && e.claimedBy.value in workers ==>
      workers[e.claimedBy.value].up <= e.claimedAt.value
  }

  ghost predicate Ups(p: Pendings, workers: map<nat, Worker>, now: nat) {
    && (forall w | w in workers :: workers[w].up <= now)
    && (forall id | id in p :: ClaimedSince(p[id], workers))
  }

  ghost predicate UpsOf(s: State) { Ups(s.table.pending, s.crew.workers, s.now) }

  /** The same workers or fewer, at most their flags changed. */
  predicate SameUps(workers: map<nat, Worker>, more: map<nat, Worker>) {
    forall w | w in more :: w in workers && more[w].up == workers[w].up
  }

  lemma {:induction false} UpsLater(p: Pendings, q: Pendings, workers: map<nat, Worker>, more: map<nat, Worker>, now: nat,
                                    later: nat)
    requires Ups(p, workers, now) && now <= later && SameUps(workers, more)
    requires forall id | id in q :: id in p && q[id].claimedBy == p[id].claimedBy && q[id].claimedAt == p[id].claimedAt
    ensures Ups(q, more, later)
  {
    forall id | id in q
      ensures ClaimedSince(q[id], more)
    {
      assert ClaimedSince(p[id], workers);
    }
  }

  lemma {:induction false} UpsAfterInsert(s: State)
    requires UpsOf(s)
    ensures UpsOf(SubmitStep(s))
  {
  }

  lemma {:induction false} UpsAfterJoin(cfg: Config, s: State, w: nat, token: nat, declared: u32)
    requires UpsOf(s) && BooksOf(s) && w !in s.crew.workers
    ensures UpsOf(JoinStep(cfg, s, w, token, declared))
  {
    var t := JoinStep(cfg, s, w, token, declared);
    forall id | id in t.table.pending
      ensures ClaimedSince(t.table.pending[id], t.crew.workers)
    {
      assert ClaimedSince(s.table.pending[id], s.crew.workers);
    }
  }

  lemma {:induction false} UpsAfterClaim(s: State, w: nat, id: u32)
    requires UpsOf(s) && w in s.crew.readers
    ensures UpsOf(ClaimStep(s, w, id))
  {
    var t := ClaimStep(s, w, id);
    forall j | j in t.table.pending
      ensures ClaimedSince(t.table.pending[j], t.crew.workers)
    {
      assert ClaimedSince(s.table.pending[j], s.crew.workers);
    }
  }

  lemma {:induction false} UpsAfterExit(s: State, w: nat, full: set<nat>)
    requires UpsOf(s) && w in s.crew.readers
    ensures UpsOf(ExitStep(s, w, full))
  {
    var t := ExitStep(s, w, full);
    UpsLater(s.table.pending, t.table.pending, s.crew.workers, t.crew.workers, s.now, s.now);
  }

  lemma {:induction false} UpsAfterFinish(s: State, w: nat, f: Frame)
    requires UpsOf(s) && w in s.crew.readers
    ensures UpsOf(FinishStep(s, w, f))
  {
    var t := FinishStep(s, w, f);
    UpsLater(s.table.pending, t.table.pending, s.crew.workers, t.crew.workers, s.now, s.now);
  }

  lemma {:induction false} UpsAfterHear(s: State, w: nat, f: Frame, full: set<nat>)
    requires UpsOf(s) && w in s.crew.readers
    ensures UpsOf(HearStep(s, w, f, full))
  {
    var t := TookStep(s, w, f);
    match TurnFor(s.crew, w, f)
    case Drop =>
    case OverClaim =>
      var u := t.(crew := Kill(t.crew, w, s.crew.workers[w].token));
      UpsLater(t.table.pending, u.table.pending, t.crew.workers, u.crew.workers, t.now, t.now);
      UpsAfterExit(u, w, full);
    case TakeClaim => UpsAfterClaim(t, w, f.id);
    case Free => UpsAfterFinish(t, w, f);
    case Forward =>
  }

  lemma {:induction false} UpsAfterQuietStep(cfg: Config, s: State, a: Action)
    requires UpsOf(s) && !a.Submit? && !a.Join? && !a.Hear? && !a.ReaderExit?
    ensures UpsOf(Next(cfg, s, a))
  {
    var t := Next(cfg, s, a);
    UpsLater(s.table.pending, t.table.pending, s.crew.workers, t.crew.workers, s.now, t.now);
  }

  lemma {:induction false} StepKeepsUps(cfg: Config, s: State, a: Action)
    requires UpsOf(s) && BooksOf(s)
    ensures UpsOf(Next(cfg, s, a))
  {
    match a
    case Submit => if s.permits.reserved > 0 { UpsAfterInsert(s); }
    case Join(w, token, declared) =>
      if w !in s.crew.workers && w !in s.crew.retired { UpsAfterJoin(cfg, s, w, token, declared); }
    case Hear(w, f, full) => if w in s.crew.readers { UpsAfterHear(s, w, f, full); }
    case ReaderExit(w, full) => if w in s.crew.readers { UpsAfterExit(s, w, full); }
    case _ => UpsAfterQuietStep(cfg, s, a);
  }

  // --- what a sweep has named ---

  /** A named worker is still the one named and has had a healthy uptime, or its id is gone for good. */
  ghost predicate NamedIsKnown(cfg: Config, crew: Crew, now: nat, w: nat, token: nat) {
    if w in crew.workers then crew.workers[w].token == token && crew.workers[w].up + cfg.healthyUptime <= now
    else w in crew.retired
  }

  ghost predicate NamedAreKnown(cfg: Config, crew: Crew, now: nat) {
    forall w, token | (w, token) in crew.named :: NamedIsKnown(cfg, crew, now, w, token)
  }

  ghost predicate KillsAreRight(cfg: Config, s: State) {
    NamedAreKnown(cfg, s.crew, s.now) && FlaggedAreKilled(s.crew)
  }

  /** A candidate has been up for the budget and the grace. */
  lemma {:induction false} CandidateIsHealthy(cfg: Config, s: State, w: nat)
    requires UpsOf(s) && Timed(cfg, s.table.pending, s.trace, s.now) && KillCandidate(cfg, s, w)
    ensures s.crew.workers[w].up + cfg.taskTimeout + cfg.grace <= s.now
  {
    var late := DefiantOf(cfg, s.table.pending, s.now, w);
    assert |late| >= 1;
    var id :| id in late;
    assert EntryTimed(cfg, s.table.pending[id], s.trace, s.now);
    assert ClaimedSince(s.table.pending[id], s.crew.workers);
  }

  lemma {:induction false} RightAfterSweep(cfg: Config, s: State)
    requires KillsAreRight(cfg, s) && UpsOf(s) && Timed(cfg, s.table.pending, s.trace, s.now)
    requires cfg.taskTimeout + cfg.grace >= cfg.healthyUptime
    ensures KillsAreRight(cfg, SweepStep(cfg, s))
  {
    var t := SweepStep(cfg, s);
    forall w, token | (w, token) in t.crew.named
      ensures NamedIsKnown(cfg, t.crew, t.now, w, token)
    {
      if (w, token) in s.crew.named {
        assert NamedIsKnown(cfg, s.crew, s.now, w, token);
      } else {
        assert KillCandidate(cfg, s, w);
        CandidateIsHealthy(cfg, s, w);
      }
    }
  }

  lemma {:induction false} RightAfterJoin(cfg: Config, s: State, w: nat, token: nat, declared: u32)
    requires KillsAreRight(cfg, s) && w !in s.crew.workers && w !in s.crew.retired
    ensures KillsAreRight(cfg, JoinStep(cfg, s, w, token, declared))
  {
    var t := JoinStep(cfg, s, w, token, declared);
    forall v, other | (v, other) in t.crew.named
      ensures NamedIsKnown(cfg, t.crew, t.now, v, other)
    {
      assert NamedIsKnown(cfg, s.crew, s.now, v, other);
    }
  }

  lemma {:induction false} RightAfterDismiss(cfg: Config, s: State, w: nat)
    requires KillsAreRight(cfg, s)
    ensures KillsAreRight(cfg, s.(crew := Dismiss(cfg, s.crew, w, s.now)))
  {
    var crew := Dismiss(cfg, s.crew, w, s.now);
    forall v, token | (v, token) in crew.named
      ensures NamedIsKnown(cfg, crew, s.now, v, token)
    {
      assert NamedIsKnown(cfg, s.crew, s.now, v, token);
    }
  }

  /** A kill by the worker's own token, or of no worker at all. */
  lemma {:induction false} RightAfterKill(cfg: Config, s: State, w: nat, token: nat)
    requires KillsAreRight(cfg, s) && (w in s.crew.workers ==> s.crew.workers[w].token == token)
    ensures KillsAreRight(cfg, s.(crew := Kill(s.crew, w, token)))
  {
    var crew := Kill(s.crew, w, token);
    forall v, other | (v, other) in crew.named
      ensures NamedIsKnown(cfg, crew, s.now, v, other)
    {
      assert NamedIsKnown(cfg, s.crew, s.now, v, other);
    }
  }

  lemma {:induction false} RightAfterConfirm(cfg: Config, s: State, w: nat, token: nat, idle: bool)
    requires KillsAreRight(cfg, s) && (w, token) in s.crew.named
    ensures KillsAreRight(cfg, ConfirmStep(s, w, token, idle))
  {
    assert NamedIsKnown(cfg, s.crew, s.now, w, token);
    var t := s.(crew := s.crew.(named := s.crew.named - {(w, token)}));
    forall v, other | (v, other) in t.crew.named
      ensures NamedIsKnown(cfg, t.crew, t.now, v, other)
    {
      assert NamedIsKnown(cfg, s.crew, s.now, v, other);
    }
    RightAfterKill(cfg, t, w, token);
  }

  lemma {:induction false} RightSame(cfg: Config, s: State, t: State)
    requires KillsAreRight(cfg, s) && s.now <= t.now && t.crew.workers == s.crew.workers && t.crew.kills == s.crew.kills
    requires t.crew.named == s.crew.named && t.crew.retired == s.crew.retired
    ensures KillsAreRight(cfg, t)
  {
    forall v, token | (v, token) in t.crew.named
      ensures NamedIsKnown(cfg, t.crew, t.now, v, token)
    {
      assert NamedIsKnown(cfg, s.crew, s.now, v, token);
    }
  }

  /** What a frame can do to the crew's records: nothing, or a kill of its own worker. */
  lemma {:induction false} HearOnCrew(s: State, w: nat, f: Frame, full: set<nat>)
    requires w in s.crew.readers
    ensures var t := HearStep(s, w, f, full).crew;
      exists c :: SameRecords(c, t) && (c == s.crew || (w in s.crew.workers && c == Kill(s.crew, w, s.crew.workers[w].token)))
  {
    var t := HearStep(s, w, f, full).crew;
    if TurnFor(s.crew, w, f).OverClaim? {
      assert SameRecords(Kill(s.crew, w, s.crew.workers[w].token), t);
    } else {
      OtherTurnsOnCrew(s, w, f, full);
    }
  }

  predicate SameRecords(a: Crew, b: Crew) {
    b.workers == a.workers && b.kills == a.kills && b.named == a.named && b.retired == a.retired
  }

  lemma {:induction false} OtherTurnsOnCrew(s: State, w: nat, f: Frame, full: set<nat>)
    requires w in s.crew.readers && !TurnFor(s.crew, w, f).OverClaim?
    ensures SameRecords(s.crew, HearStep(s, w, f, full).crew)
  {
    match TurnFor(s.crew, w, f)
    case Drop =>
    case TakeClaim =>
    case Free =>
    case Forward =>
  }

  lemma {:induction false} RightAfterHear(cfg: Config, s: State, w: nat, f: Frame, full: set<nat>)
    requires KillsAreRight(cfg, s) && w in s.crew.readers
    ensures KillsAreRight(cfg, HearStep(s, w, f, full))
  {
    HearOnCrew(s, w, f, full);
    var t := HearStep(s, w, f, full);
    var c :| SameRecords(c, t.crew) && (c == s.crew || (w in s.crew.workers && c == Kill(s.crew, w, s.crew.workers[w].token)));
    if c != s.crew {
      RightAfterKill(cfg, s, w, s.crew.workers[w].token);
    }
    assert KillsAreRight(cfg, s.(crew := c));
    HearKeepsTime(s, w, f, full);
    RightSame(cfg, s.(crew := c), t);
  }

  lemma {:induction false} HearKeepsTime(s: State, w: nat, f: Frame, full: set<nat>)
    requires w in s.crew.readers
    ensures HearStep(s, w, f, full).now == s.now
  {
  }

  lemma {:induction false} CrewAfterQuietStep(cfg: Config, s: State, a: Action)
    requires !a.Join? && !a.Hear? && !a.Remove? && !a.Sweep? && !a.Confirm?
    ensures var t := Next(cfg, s, a);
      && t.crew.workers == s.crew.workers && t.crew.kills == s.crew.kills && t.crew.named == s.crew.named
      && t.crew.retired == s.crew.retired && s.now <= t.now
  {
    if a.ReaderExit? {
      if a.worker in s.crew.readers { ExitKeepsRecords(s, a.worker, a.full); }
    } else {
      CrewStays(cfg, s, a);
    }
  }

  lemma {:induction false} ExitKeepsRecords(s: State, w: nat, full: set<nat>)
    requires w in s.crew.readers
    ensures SameRecords(s.crew, ExitStep(s, w, full).crew) && ExitStep(s, w, full).now == s.now
  {
  }

  lemma {:induction false} CrewStays(cfg: Config, s: State, a: Action)
    requires a.Reserve? || a.Release? || a.Submit? || a.Sent? || a.SendFailed? || a.DropStream? || a.Tick?
    ensures Next(cfg, s, a).crew == s.crew && s.now <= Next(cfg, s, a).now
  {
  }

  lemma {:induction false} RightAfterQuietStep(cfg: Config, s: State, a: Action)
    requires KillsAreRight(cfg, s) && !a.Join? && !a.Hear? && !a.Remove? && !a.Sweep? && !a.Confirm?
    ensures KillsAreRight(cfg, Next(cfg, s, a))
  {
    CrewAfterQuietStep(cfg, s, a);
    RightSame(cfg, s, Next(cfg, s, a));
  }

  lemma {:induction false} StepKeepsRight(cfg: Config, s: State, a: Action)
    requires KillsAreRight(cfg, s) && UpsOf(s) && Timed(cfg, s.table.pending, s.trace, s.now)
    requires cfg.taskTimeout + cfg.grace >= cfg.healthyUptime
    ensures KillsAreRight(cfg, Next(cfg, s, a))
  {
    match a
    case Join(w, token, declared) =>
      if w !in s.crew.workers && w !in s.crew.retired { RightAfterJoin(cfg, s, w, token, declared); }
    case Hear(w, f, full) => if w in s.crew.readers { RightAfterHear(cfg, s, w, f, full); }
    case Remove(w) => RightAfterDismiss(cfg, s, w);
    case Sweep => RightAfterSweep(cfg, s);
    case Confirm(w, token, idle) => if (w, token) in s.crew.named { RightAfterConfirm(cfg, s, w, token, idle); }
    case _ => RightAfterQuietStep(cfg, s, a);
  }

  lemma {:induction false} RunKeepsUps(cfg: Config, actions: seq<Action>)
    requires FairRun(cfg, actions) && SmallRun(cfg, actions)
    ensures UpsOf(Run(cfg, actions))
  {
    var n := |actions|;
    if n > 0 {
      ShorterRun(cfg, actions);
      var s := Run(cfg, actions[..n - 1]);
      RunKeepsUps(cfg, actions[..n - 1]);
      RunKeepsInv(cfg, actions[..n - 1]);
      StepKeepsUps(cfg, s, actions[n - 1]);
    }
  }

  /** Where a candidate has had a healthy uptime in any case, the kill hits whom the flag is on: in every fair run each
      flagged worker's own token has been handed to the spawner. */
  lemma {:induction false} RunKeepsKilled(cfg: Config, actions: seq<Action>)
    requires FairRun(cfg, actions) && SmallRun(cfg, actions)
    requires cfg.taskTimeout + cfg.grace >= cfg.healthyUptime
    ensures KillsAreRight(cfg, Run(cfg, actions))
  {
    var n := |actions|;
    if n > 0 {
      ShorterRun(cfg, actions);
      var s := Run(cfg, actions[..n - 1]);
      RunKeepsKilled(cfg, actions[..n - 1]);
      RunKeepsUps(cfg, actions[..n - 1]);
      RunKeepsTimed(cfg, actions[..n - 1]);
      StepKeepsRight(cfg, s, actions[n - 1]);
    }
  }

  // --- nobody is killed without cause ---

  /** Action j is a sweep that finds worker w stuck with half its grant, under this token. */
  ghost predicate SweptOut(cfg: Config, actions: seq<Action>, j: nat, w: nat, token: nat) {
    j < |actions| && actions[j].Sweep?
    && var s := Run(cfg, actions[..j]); Overdue(cfg, s, w) && s.crew.workers[w].token == token
  }

  ghost predicate SweptBefore(cfg: Config, actions: seq<Action>, i: nat, w: nat, token: nat) {
    exists j: nat :: j < i && SweptOut(cfg, actions, j, w, token)
  }

  /** A Claim from a worker, up under this token, that has as many claims as its grant allows. */
  predicate ClaimsBeyond(s: State, w: nat, f: Frame, token: nat) {
    && f.kind.Claim? && w in s.crew.readers && w in s.crew.workers && s.crew.workers[w].token == token
    && |s.crew.readers[w].claimed| >= s.crew.workers[w].granted
  }

  /** What action i has against the token: a probe not answered idle, after a sweep, or a Claim beyond the grant. */
  ghost predicate Cause(cfg: Config, actions: seq<Action>, i: nat, token: nat) {
    i < |actions|
    && match actions[i]
       case Confirm(w, t, idle) => t == token && !idle && SweptBefore(cfg, actions, i, w, token)
       case Hear(w, f, _) => ClaimsBeyond(Run(cfg, actions[..i]), w, f, token)
       case _ => false
  }

  ghost predicate HasCause(cfg: Config, actions: seq<Action>, token: nat) {
    exists i: nat :: Cause(cfg, actions, i, token)
  }

  ghost predicate HaveCauses(cfg: Config, actions: seq<Action>, kills: seq<nat>) {
    forall k | 0 <= k < |kills| :: HasCause(cfg, actions, kills[k])
  }

  ghost predicate WereSwept(cfg: Config, actions: seq<Action>, named: set<(nat, nat)>) {
    forall w, token | (w, token) in named :: SweptBefore(cfg, actions, |actions|, w, token)
  }

  /** Every kill has its cause, and every pair named its sweep. */
  ghost predicate Accounted(cfg: Config, actions: seq<Action>, crew: Crew) {
    HaveCauses(cfg, actions, crew.kills) && WereSwept(cfg, actions, crew.named)
  }

  lemma {:induction false} SweptStill(cfg: Config, actions: seq<Action>, a: Action, i: nat, w: nat, token: nat)
    requires SweptBefore(cfg, actions, i, w, token) && i <= |actions|
    ensures SweptBefore(cfg, actions + [a], i, w, token)
  {
    var j: nat :| j < i && SweptOut(cfg, actions, j, w, token);
    assert (actions + [a])[..j] == actions[..j];
    assert SweptOut(cfg, actions + [a], j, w, token);
  }

  lemma {:induction false} SweptEver(cfg: Config, actions: seq<Action>, i: nat, n: nat, w: nat, token: nat)
    requires SweptBefore(cfg, actions, i, w, token) && i <= n
    ensures SweptBefore(cfg, actions, n, w, token)
  {
    var j: nat :| j < i && SweptOut(cfg, actions, j, w, token);
  }

  lemma {:induction false} CauseStill(cfg: Config, actions: seq<Action>, a: Action, i: nat, token: nat)
    requires Cause(cfg, actions, i, token)
    ensures Cause(cfg, actions + [a], i, token)
  {
    assert (actions + [a])[..i] == actions[..i];
    if actions[i].Confirm? {
      SweptStill(cfg, actions, a, i, actions[i].worker, token);
    }
  }

  lemma {:induction false} CausesStill(cfg: Config, actions: seq<Action>, a: Action, kills: seq<nat>, more: seq<nat>)
    requires HaveCauses(cfg, actions, kills)
    requires more == kills || (|more| == |kills| + 1 && more[..|kills|] == kills
                               && Cause(cfg, actions + [a], |actions|, more[|kills|]))
    ensures HaveCauses(cfg, actions + [a], more)
  {
    forall k | 0 <= k < |more|
      ensures HasCause(cfg, actions + [a], more[k])
    {
      if k < |kills| {
        assert more[k] == more[..|kills|][k] == kills[k];
        assert HasCause(cfg, actions, kills[k]);
        var i: nat :| Cause(cfg, actions, i, kills[k]);
        CauseStill(cfg, actions, a, i, kills[k]);
      } else {
        assert Cause(cfg, actions + [a], |actions|, more[k]);
      }
    }
  }

  lemma {:induction false} SweptAfter(cfg: Config, actions: seq<Action>, a: Action, named: set<(nat, nat)>, more: set<(nat, nat)>)
    requires WereSwept(cfg, actions, named)
    requires forall w, token | (w, token) in more :: (w, token) in named || SweptOut(cfg, actions + [a], |actions|, w, token)
    ensures WereSwept(cfg, actions + [a], more)
  {
    forall w, token | (w, token) in more
      ensures SweptBefore(cfg, actions + [a], |actions| + 1, w, token)
    {
      if (w, token) in named {
        SweptStill(cfg, actions, a, |actions|, w, token);
        SweptEver(cfg, actions + [a], |actions|, |actions| + 1, w, token);
      }
    }
  }

  lemma {:induction false} SweepNames(cfg: Config, s: State, w: nat, token: nat)
    requires (w, token) in SweepStep(cfg, s).crew.named && (w, token) !in s.crew.named
    ensures Overdue(cfg, s, w) && s.crew.workers[w].token == token
  {
    CandidatesByNumber(cfg, s, w);
  }

  lemma {:induction false} HearKills(s: State, w: nat, f: Frame, full: set<nat>)
    requires w in s.crew.readers
    ensures var t := HearStep(s, w, f, full).crew;
      && t.named == s.crew.named
      && (t.kills == s.crew.kills
          || (w in s.crew.workers && ClaimsBeyond(s, w, f, s.crew.workers[w].token)
              && t.kills == s.crew.kills + [s.crew.workers[w].token]))
  {
    if TurnFor(s.crew, w, f).OverClaim? {
      assert SameRecords(Kill(s.crew, w, s.crew.workers[w].token), HearStep(s, w, f, full).crew);
    } else {
      OtherTurnsOnCrew(s, w, f, full);
    }
  }

  lemma {:induction false} ConfirmKills(s: State, w: nat, token: nat, idle: bool)
    ensures var t := ConfirmStep(s, w, token, idle).crew;
      t.named <= s.crew.named && (t.kills == s.crew.kills || (!idle && t.kills == s.crew.kills + [token]))
  {
  }

  lemma {:induction false} KillsStay(cfg: Config, s: State, a: Action)
    requires !a.Hear? && !a.Confirm?
    ensures Next(cfg, s, a).crew.kills == s.crew.kills
    ensures !a.Sweep? ==> Next(cfg, s, a).crew.named == s.crew.named
  {
  }

  lemma {:induction false} CauseAfterHear(cfg: Config, actions: seq<Action>, w: nat, f: Frame, full: set<nat>)
    requires w in Run(cfg, actions).crew.readers && Accounted(cfg, actions, Run(cfg, actions).crew)
    ensures Accounted(cfg, actions + [Hear(w, f, full)], HearStep(Run(cfg, actions), w, f, full).crew)
  {
    var s, a := Run(cfg, actions), Hear(w, f, full);
    HearKills(s, w, f, full);
    assert (actions + [a])[..|actions|] == actions;
    CausesStill(cfg, actions, a, s.crew.kills, HearStep(s, w, f, full).crew.kills);
    SweptAfter(cfg, actions, a, s.crew.named, s.crew.named);
  }

  lemma {:induction false} CauseAfterConfirm(cfg: Config, actions: seq<Action>, w: nat, token: nat, idle: bool)
    requires (w, token) in Run(cfg, actions).crew.named && Accounted(cfg, actions, Run(cfg, actions).crew)
    ensures Accounted(cfg, actions + [Confirm(w, token, idle)], ConfirmStep(Run(cfg, actions), w, token, idle).crew)
  {
    var s, a := Run(cfg, actions), Confirm(w, token, idle);
    ConfirmKills(s, w, token, idle);
    SweptStill(cfg, actions, a, |actions|, w, token);
    CausesStill(cfg, actions, a, s.crew.kills, ConfirmStep(s, w, token, idle).crew.kills);
    SweptAfter(cfg, actions, a, s.crew.named, ConfirmStep(s, w, token, idle).crew.named);
  }

  lemma {:induction false} CauseAfterQuiet(cfg: Config, actions: seq<Action>, a: Action)
    requires Accounted(cfg, actions, Run(cfg, actions).crew) && !a.Hear? && !a.Confirm?
    ensures Accounted(cfg, actions + [a], Next(cfg, Run(cfg, actions), a).crew)
  {
    var s := Run(cfg, actions);
    var t := Next(cfg, s, a);
    KillsStay(cfg, s, a);
    CausesStill(cfg, actions, a, s.crew.kills, t.crew.kills);
    forall w, token | (w, token) in t.crew.named
      ensures (w, token) in s.crew.named || SweptOut(cfg, actions + [a], |actions|, w, token)
    {
      if (w, token) !in s.crew.named {
        SweepNames(cfg, s, w, token);
        assert (actions + [a])[..|actions|] == actions;
      }
    }
    SweptAfter(cfg, actions, a, s.crew.named, t.crew.named);
  }

  /** In every run, fair or not: each kill has its cause, a Claim beyond the worker's grant or a probe that was not
      answered idle after a sweep had found that worker, under that token, stuck with half its grant. */
  lemma {:induction false} RunKillsForCause(cfg: Config, actions: seq<Action>)
    ensures Accounted(cfg, actions, Run(cfg, actions).crew)
  {
    if actions != [] {
      var n := |actions| - 1;
      var short, a := actions[..n], actions[n];
      var s := Run(cfg, short);
      RunKillsForCause(cfg, short);
      assert actions == short + [a];
      match a
      case Hear(w, f, full) =>
        if w in s.crew.readers {
          CauseAfterHear(cfg, short, w, f, full);
        } else {
          CauseAfterNothing(cfg, short, a, s.crew);
        }
      case Confirm(w, token, idle) =>
        if (w, token) in s.crew.named {
          CauseAfterConfirm(cfg, short, w, token, idle);
        } else {
          CauseAfterNothing(cfg, short, a, s.crew);
        }
      case _ => CauseAfterQuiet(cfg, short, a);
    }
  }

  lemma {:induction false} CauseAfterNothing(cfg: Config, actions: seq<Action>, a: Action, crew: Crew)
    requires Accounted(cfg, actions, crew)
    ensures Accounted(cfg, actions + [a], crew)
  {
    CausesStill(cfg, actions, a, crew.kills, crew.kills);
    SweptAfter(cfg, actions, a, crew.named, crew.named);
  }
}
