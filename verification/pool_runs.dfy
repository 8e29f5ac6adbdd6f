/** Runs that reach what the step lemmas allow: a failed send of a claimed request, a flag without a kill, an id that
    has come round. */
module PoolRuns {
  import opened Bytes
  import opened Frame
  import opened PoolState
  import opened PoolBooks
  import opened PoolPermits
  import opened PoolDemux
  import opened PoolSweep
  import opened PoolKill

  lemma {:induction false} PrefixesOfMore(actions: seq<Action>, a: Action)
    ensures var all := actions + [a];
      && all[..|all| - 1] == actions && all[..|all|] == all && all[|actions|] == a
      && (forall i | 0 <= i <= |actions| :: all[..i] == actions[..i]) && actions[..|actions|] == actions
  {
  }

  lemma {:induction false} OneMoreStep(cfg: Config, actions: seq<Action>, a: Action)
    ensures Run(cfg, actions + [a]) == Next(cfg, Run(cfg, actions), a)
    ensures FairRun(cfg, actions) && Fair(Run(cfg, actions), a) ==> FairRun(cfg, actions + [a])
  {
    PrefixesOfMore(actions, a);
  }

  lemma {:induction false} SmallBefore(cfg: Config, actions: seq<Action>, a: Action, i: nat)
    requires SmallRun(cfg, actions) && i <= |actions|
    ensures Small(cfg, Run(cfg, (actions + [a])[..i]))
  {
    assert (actions + [a])[..i] == actions[..i];
  }

  lemma {:induction false} OneMoreSmallStep(cfg: Config, actions: seq<Action>, a: Action)
    requires SmallRun(cfg, actions) && Small(cfg, Run(cfg, actions + [a]))
    ensures SmallRun(cfg, actions + [a])
  {
    var all := actions + [a];
    forall i | 0 <= i <= |all|
      ensures Small(cfg, Run(cfg, all[..i]))
    {
      if i <= |actions| {
        SmallBefore(cfg, actions, a, i);
      } else {
        assert all[..i] == all;
      }
    }
  }

  /** A run goes on from where it stands. */
  function Follow(cfg: Config, s: State, more: seq<Action>): State
    decreases |more|
  {
    if |more| == 0 then s else Next(cfg, Follow(cfg, s, more[..|more| - 1]), more[|more| - 1])
  }

  lemma {:induction false} RunFollows(cfg: Config, actions: seq<Action>, more: seq<Action>)
    ensures Run(cfg, actions + more) == Follow(cfg, Run(cfg, actions), more)
    decreases |more|
  {
    if |more| == 0 {
      assert actions + more == actions;
    } else {
      var n := |more| - 1;
      RunFollows(cfg, actions, more[..n]);
      assert actions + more == (actions + more[..n]) + [more[n]];
      OneMoreStep(cfg, actions + more[..n], more[n]);
    }
  }

  predicate OneRequestFits(cfg: Config) {
    cfg.queueMax >= 1 && cfg.concurrencyCap >= 1
  }

  /** One request and one worker, and the queue limit fits 32 bits with them. */
  predicate OneWorkerFits(cfg: Config) {
    OneRequestFits(cfg) && cfg.queueMax + 1 < U32_LIMIT
  }

  function ClaimFrame(): Frame { Bare(Claim, 1) }

  function DoneFrame(): Frame { Bare(Done, 1) }

  ghost predicate Allowed(cfg: Config, s: State, a: Action) {
    Fair(s, a) && Small(cfg, Next(cfg, s, a))
  }

  /** `at` says which actions lead to which state, and goes on with every step, or with every one allowed. */
  ghost predicate GoesOn(cfg: Config, fair: bool, at: (seq<Action>, State) -> bool) {
    forall actions, s, a {:trigger at(actions, s), Next(cfg, s, a)} ::
      at(actions, s) && (fair ==> Allowed(cfg, s, a)) ==> at(actions + [a], Next(cfg, s, a))
  }

  ghost function RunsTo(cfg: Config, fair: bool): (seq<Action>, State) -> bool {
    (actions, s) => Run(cfg, actions) == s && (fair ==> FairRun(cfg, actions) && SmallRun(cfg, actions))
  }

  lemma {:induction false} RunsGoOn(cfg: Config, fair: bool)
    requires fair ==> cfg.queueMax < U32_LIMIT
    ensures GoesOn(cfg, fair, RunsTo(cfg, fair))
    ensures RunsTo(cfg, fair)([], Init(cfg))
  {
    assert Run(cfg, []) == Init(cfg);
    assert fair ==> Small(cfg, Init(cfg));
    forall actions, s, a | RunsTo(cfg, fair)(actions, s) && (fair ==> Allowed(cfg, s, a))
      ensures RunsTo(cfg, fair)(actions + [a], Next(cfg, s, a))
    {
      OneMoreStep(cfg, actions, a);
      if fair {
        OneMoreSmallStep(cfg, actions, a);
      }
    }
  }

  /** One worker at most, in slot 0, with a grant of one at most. */
  predicate Little(crew: Crew) {
    crew.readers.Keys <= {0} && (0 in crew.readers ==> 0 in crew.workers && crew.workers[0].granted <= 1)
  }

  lemma {:induction false} LittleIsSmall(cfg: Config, s: State)
    requires cfg.queueMax + 1 < U32_LIMIT && Little(s.crew)
    ensures Small(cfg, s)
  {
    if 0 in s.crew.readers {
      assert s.crew.readers.Keys == {0};
    } else {
      assert s.crew.readers.Keys == {};
    }
  }

  /** One more action of a run that stays little. */
  lemma {:induction false} Onward(cfg: Config, fair: bool, at: (seq<Action>, State) -> bool, actions: seq<Action>, s: State,
                                  a: Action)
    requires GoesOn(cfg, fair, at) && at(actions, s)
    requires fair ==> cfg.queueMax + 1 < U32_LIMIT && Fair(s, a) && Little(Next(cfg, s, a).crew)
    ensures at(actions + [a], Next(cfg, s, a))
  {
    if fair {
      LittleIsSmall(cfg, Next(cfg, s, a));
    }
  }

  /** A request submitted and waiting for its datagram. */
  function Submitted(cfg: Config): State {
    State(Table(map[1 := Pending(0, None, None, false, None)], 2, 1), Permits(cfg.queueMax - 1, 0, map[0 := 1], map[]),
          NoCrew(), Trace([Channel([], 0)], [], map[]), 0)
  }

  lemma {:induction false} SubmittedIsReached(cfg: Config, fair: bool, at: (seq<Action>, State) -> bool)
    requires OneRequestFits(cfg) && (fair ==> OneWorkerFits(cfg)) && GoesOn(cfg, fair, at) && at([], Init(cfg))
    ensures at([] + [Reserve] + [Submit], Submitted(cfg))
  {
    var s := Next(cfg, Init(cfg), Reserve);
    Onward(cfg, fair, at, [], Init(cfg), Reserve);
    assert FreshId(s.table) == 1;
    assert Next(cfg, s, Submit) == Submitted(cfg);
    Onward(cfg, fair, at, [] + [Reserve], s, Submit);
  }

  // --- a send that fails after the claim ---

  /** The worker with token 7, with a claim. */
  function FirstCrew(): Crew {
    Crew(map[0 := Worker(7, 1, false, 0)], map[0 := Reader(0, {1})], 1, [], {}, {})
  }

  /** The worker with token 7, and the request its own. */
  ghost predicate Busy(s: State) {
    && s.crew == FirstCrew()
    && s.table == Table(map[1 := Pending(0, Some(0), Some(0), false, None)], 2, 1)
    && s.now == 0 && |s.trace.channels| == 1
  }

  lemma {:induction false} BusyIsReached(cfg: Config, s: State)
    requires OneRequestFits(cfg) && s.crew == NoCrew() && s.table == Submitted(cfg).table
    requires s.trace == Submitted(cfg).trace && s.now == 0
    ensures var t := Next(cfg, Next(cfg, s, Join(0, 7, 1)), Hear(0, ClaimFrame(), {}));
      Busy(t) && t.permits == s.permits
  {
    var joined := Next(cfg, s, Join(0, 7, 1));
    assert joined.crew == Crew(map[0 := Worker(7, 1, false, 0)], map[0 := Reader(0, {})], 1, [], {}, {});
    assert TurnFor(joined.crew, 0, ClaimFrame()).TakeClaim?;
  }

  /** A request is claimed while its submit still waits for the datagram, which then fails: the books agree up to that
      step and not after it. */
  lemma {:induction false} FailedSendIsReached(cfg: Config) returns (before: seq<Action>)
    requires OneRequestFits(cfg)
    ensures before == [Reserve, Submit, Join(0, 7, 1), Hear(0, ClaimFrame(), {})]
    ensures BooksOf(Run(cfg, before)) && !BooksOf(Run(cfg, before + [SendFailed(0)]))
  {
    RunsGoOn(cfg, false);
    before := FailedSendPath(cfg, RunsTo(cfg, false));
    FailedSendBreaks(cfg, before);
  }

  lemma {:induction false} FailedSendPath(cfg: Config, at: (seq<Action>, State) -> bool) returns (before: seq<Action>)
    requires OneRequestFits(cfg) && GoesOn(cfg, false, at) && at([], Init(cfg))
    ensures before == [Reserve, Submit, Join(0, 7, 1), Hear(0, ClaimFrame(), {})]
    ensures exists s :: at(before, s) && Busy(s) && s.permits.sending == map[0 := 1]
  {
    SubmittedIsReached(cfg, false, at);
    var joined := Next(cfg, Submitted(cfg), Join(0, 7, 1));
    var s := Next(cfg, joined, Hear(0, ClaimFrame(), {}));
    BusyIsReached(cfg, Submitted(cfg));
    before := [] + [Reserve] + [Submit] + [Join(0, 7, 1)] + [Hear(0, ClaimFrame(), {})];
    Onward(cfg, false, at, [] + [Reserve] + [Submit], Submitted(cfg), Join(0, 7, 1));
    Onward(cfg, false, at, [] + [Reserve] + [Submit] + [Join(0, 7, 1)], joined, Hear(0, ClaimFrame(), {}));
    assert at(before, s);
  }

  lemma {:induction false} FailedSendBreaks(cfg: Config, before: seq<Action>)
    requires exists s :: RunsTo(cfg, false)(before, s) && Busy(s) && s.permits.sending == map[0 := 1]
    ensures BooksOf(Run(cfg, before)) && !BooksOf(Run(cfg, before + [SendFailed(0)]))
  {
    var s :| RunsTo(cfg, false)(before, s) && Busy(s) && s.permits.sending == map[0 := 1];
    BusyHasBooks(s);
    FailedSendOfClaimedBreaksBooks(s, 0);
    OneMoreStep(cfg, before, SendFailed(0));
  }

  lemma {:induction false} BusyHasBooks(s: State)
    requires Busy(s)
    ensures BooksOf(s)
  {
    assert ClaimedBy(s.table.pending, 0) == {1};
  }

  // --- a flag without a kill ---

  function Taken(): seq<Action> {
    [] + [Reserve] + [Submit] + [Sent(0)] + [Join(0, 7, 1)] + [Hear(0, ClaimFrame(), {})]
  }

  lemma {:induction false} TakenIsReached(cfg: Config, fair: bool, at: (seq<Action>, State) -> bool) returns (s: State)
    requires OneRequestFits(cfg) && (fair ==> OneWorkerFits(cfg)) && GoesOn(cfg, fair, at) && at([], Init(cfg))
    ensures at(Taken(), s) && Busy(s) && s.permits == Permits(cfg.queueMax - 1, 0, map[], map[0 := 1])
  {
    SubmittedIsReached(cfg, fair, at);
    var sent := Next(cfg, Submitted(cfg), Sent(0));
    assert sent.permits.sending == map[] && sent.permits.open == map[0 := 1];
    Onward(cfg, fair, at, [] + [Reserve] + [Submit], Submitted(cfg), Sent(0));
    var joined := Next(cfg, sent, Join(0, 7, 1));
    assert joined.permits == sent.permits;
    Onward(cfg, fair, at, [] + [Reserve] + [Submit] + [Sent(0)], sent, Join(0, 7, 1));
    s := Next(cfg, joined, Hear(0, ClaimFrame(), {}));
    BusyIsReached(cfg, sent);
    Onward(cfg, fair, at, [] + [Reserve] + [Submit] + [Sent(0)] + [Join(0, 7, 1)], joined, Hear(0, ClaimFrame(), {}));
  }

  /** The task has overrun its budget and then the grace. */
  function Overrun(cfg: Config): seq<Action> {
    Taken() + [Tick(cfg.taskTimeout)] + [Sweep] + [Tick(cfg.grace)]
  }

  /** The first sweep aborts the task and names nobody; a grace later the worker is a candidate. */
  lemma {:induction false} OverrunSteps(cfg: Config, s: State)
    requires Busy(s)
    ensures var swept := Next(cfg, Next(cfg, s, Tick(cfg.taskTimeout)), Sweep);
      swept.crew == FirstCrew() && KillCandidate(cfg, Next(cfg, swept, Tick(cfg.grace)), 0)
  {
    var late := Next(cfg, s, Tick(cfg.taskTimeout));
    assert ToAbort(cfg, late.table.pending, late.now) == {1};
    assert DefiantOf(cfg, late.table.pending, late.now, 0) == {};
    assert Candidates(cfg, late) == {};
    var swept := Next(cfg, late, Sweep);
    var t := Next(cfg, swept, Tick(cfg.grace));
    assert t.table.pending == map[1 := Pending(0, Some(0), Some(0), true, Some(cfg.taskTimeout))];
    assert DefiantOf(cfg, t.table.pending, t.now, 0) == {1};
  }

  lemma {:induction false} OverrunIsReached(cfg: Config, at: (seq<Action>, State) -> bool) returns (s: State)
    requires OneWorkerFits(cfg) && GoesOn(cfg, true, at) && at([], Init(cfg))
    ensures at(Overrun(cfg), s) && KillCandidate(cfg, s, 0)
    ensures s.crew == FirstCrew() && s.now == cfg.taskTimeout + cfg.grace
  {
    var taken := TakenIsReached(cfg, true, at);
    OverrunSteps(cfg, taken);
    var late := Next(cfg, taken, Tick(cfg.taskTimeout));
    Onward(cfg, true, at, Taken(), taken, Tick(cfg.taskTimeout));
    var swept := Next(cfg, late, Sweep);
    Onward(cfg, true, at, Taken() + [Tick(cfg.taskTimeout)], late, Sweep);
    s := Next(cfg, swept, Tick(cfg.grace));
    Onward(cfg, true, at, Taken() + [Tick(cfg.taskTimeout)] + [Sweep], swept, Tick(cfg.grace));
  }

  /** The second sweep names the worker. */
  function NamedCrew(): Crew { FirstCrew().(named := {(0, 7)}) }

  lemma {:induction false} SecondSweep(cfg: Config, s: State)
    requires s.crew == FirstCrew() && KillCandidate(cfg, s, 0)
    ensures Next(cfg, s, Sweep).crew == NamedCrew() && Next(cfg, s, Sweep).now == s.now
  {
    assert Candidates(cfg, s) == {(0, 7)};
  }

  lemma {:induction false} ExitOnCrew(cfg: Config, s: State, w: nat, full: set<nat>)
    requires w in s.crew.readers
    ensures var t := Next(cfg, s, ReaderExit(w, full)); t.crew == s.crew.(readers := s.crew.readers - {w}) && t.now == s.now
  {
    assert Next(cfg, s, ReaderExit(w, full)) == ExitStep(s, w, full);
  }

  lemma {:induction false} SlotIsLeft(cfg: Config, s: State, w: nat, full: set<nat>)
    requires s.crew == NamedCrew() && w == 0
    ensures Next(cfg, s, ReaderExit(w, full)).crew == NamedCrew().(readers := map[])
    ensures Next(cfg, s, ReaderExit(w, full)).now == s.now
  {
    ExitOnCrew(cfg, s, w, full);
    assert s.crew.readers - {w} == map[];
  }

  /** The worker was not up for long enough: its id stays in use. */
  lemma {:induction false} SlotIsEmptied(cfg: Config, s: State)
    requires s.crew == NamedCrew().(readers := map[]) && s.now < cfg.healthyUptime
    ensures Next(cfg, s, Remove(0)).crew == NoCrew().(granted := 1, named := {(0, 7)})
    ensures Next(cfg, s, Remove(0)).now == s.now
  {
    assert Next(cfg, s, Remove(0)).crew.workers == map[];
  }

  lemma {:induction false} SlotIsRefilled(cfg: Config, s: State)
    requires s.crew == NoCrew().(granted := 1, named := {(0, 7)})
    ensures Next(cfg, s, Join(0, 8, 1)).crew == Crew(map[0 := Worker(8, 1, false, s.now)],
                                                     map[0 := Reader(|s.trace.streams|, {})], 1, [], {}, {(0, 7)})
  {
  }

  /** Before that is confirmed the worker exits. */
  lemma {:induction false} ExitIsReached(cfg: Config, at: (seq<Action>, State) -> bool, actions: seq<Action>, s: State)
      returns (t: State)
    requires GoesOn(cfg, true, at) && at(actions, s) && OneWorkerFits(cfg)
    requires s.crew == FirstCrew() && KillCandidate(cfg, s, 0) && s.now < cfg.healthyUptime
    ensures at(actions + [Sweep] + [ReaderExit(0, {})] + [Remove(0)], t)
    ensures t.crew == NoCrew().(granted := 1, named := {(0, 7)}) && t.now == s.now
  {
    var swept := Next(cfg, s, Sweep);
    SecondSweep(cfg, s);
    Onward(cfg, true, at, actions, s, Sweep);
    var exited := Next(cfg, swept, ReaderExit(0, {}));
    SlotIsLeft(cfg, swept, 0, {});
    Onward(cfg, true, at, actions + [Sweep], swept, ReaderExit(0, {}));
    t := Next(cfg, exited, Remove(0));
    SlotIsEmptied(cfg, exited);
    Onward(cfg, true, at, actions + [Sweep] + [ReaderExit(0, {})], exited, Remove(0));
  }

  /** Whatever the delay, its slot is filled again. */
  lemma {:induction false} RefillIsReached(cfg: Config, at: (seq<Action>, State) -> bool, actions: seq<Action>, s: State,
                                           delay: nat) returns (t: State)
    requires GoesOn(cfg, true, at) && at(actions, s) && OneWorkerFits(cfg)
    requires s.crew == NoCrew().(granted := 1, named := {(0, 7)})
    ensures at(actions + [Tick(delay)] + [Join(0, 8, 1)], t)
    ensures t.crew.workers == map[0 := Worker(8, 1, false, s.now + delay)] && t.crew.kills == []
    ensures t.crew.named == {(0, 7)} && Little(t.crew)
  {
    var waited := Next(cfg, s, Tick(delay));
    Onward(cfg, true, at, actions, s, Tick(delay));
    t := Next(cfg, waited, Join(0, 8, 1));
    SlotIsRefilled(cfg, waited);
    Onward(cfg, true, at, actions + [Tick(delay)], waited, Join(0, 8, 1));
  }

  /** The run of the flag without a kill. */
  function Respawned(cfg: Config, delay: nat): seq<Action> {
    Overrun(cfg) + [Sweep] + [ReaderExit(0, {})] + [Remove(0)] + [Tick(delay)] + [Join(0, 8, 1)] + [Confirm(0, 7, false)]
  }

  /** Where budget and grace are over before a worker counts as healthy: a fair run in which the confirm of a real
      candidate flags the next worker of its slot, token 8, and kills the token of the one that is gone. */
  lemma {:induction false} FlagWithoutKillIsReached(cfg: Config, delay: nat)
    requires OneWorkerFits(cfg) && cfg.taskTimeout + cfg.grace < cfg.healthyUptime
    ensures FairRun(cfg, Respawned(cfg, delay)) && SmallRun(cfg, Respawned(cfg, delay))
    ensures var s := Run(cfg, Overrun(cfg)); KillCandidate(cfg, s, 0) && s.crew.workers[0].token == 7
    ensures var s := Run(cfg, Respawned(cfg, delay));
      s.crew.workers.Keys == {0} && s.crew.workers[0].token == 8 && s.crew.workers[0].killRequested && s.crew.kills == [7]
    ensures !FlaggedAreKilled(Run(cfg, Respawned(cfg, delay)).crew)
  {
    RunsGoOn(cfg, true);
    var s, t := FlagWithoutKillPath(cfg, RunsTo(cfg, true), delay);
  }

  lemma {:induction false} FlagWithoutKillPath(cfg: Config, at: (seq<Action>, State) -> bool, delay: nat)
      returns (s: State, t: State)
    requires OneWorkerFits(cfg) && cfg.taskTimeout + cfg.grace < cfg.healthyUptime
    requires GoesOn(cfg, true, at) && at([], Init(cfg))
    ensures at(Overrun(cfg), s) && KillCandidate(cfg, s, 0) && s.crew.workers[0].token == 7
    ensures at(Respawned(cfg, delay), t)
    ensures t.crew.workers.Keys == {0} && t.crew.workers[0].token == 8 && t.crew.workers[0].killRequested
    ensures t.crew.kills == [7] && !FlaggedAreKilled(t.crew)
  {
    s := OverrunIsReached(cfg, at);
    var left := ExitIsReached(cfg, at, Overrun(cfg), s);
    var filled := RefillIsReached(cfg, at, Overrun(cfg) + [Sweep] + [ReaderExit(0, {})] + [Remove(0)], left, delay);
    t := Next(cfg, filled, Confirm(0, 7, false));
    Onward(cfg, true, at,
           Overrun(cfg) + [Sweep] + [ReaderExit(0, {})] + [Remove(0)] + [Tick(delay)] + [Join(0, 8, 1)], filled,
           Confirm(0, 7, false));
  }

  /** The exact condition: in every run each flagged worker's own token is killed if and only if budget and grace
      together are no shorter than the uptime from which a worker's id is not used again. */
  lemma {:induction false} FlagsMeanKillsExactly(cfg: Config)
    requires OneWorkerFits(cfg)
    ensures (forall actions | FairRun(cfg, actions) && SmallRun(cfg, actions) :: FlaggedAreKilled(Run(cfg, actions).crew))
      <==> cfg.taskTimeout + cfg.grace >= cfg.healthyUptime
  {
    if cfg.taskTimeout + cfg.grace >= cfg.healthyUptime {
      forall actions | FairRun(cfg, actions) && SmallRun(cfg, actions)
        ensures FlaggedAreKilled(Run(cfg, actions).crew)
      {
        RunKeepsKilled(cfg, actions);
      }
    } else {
      FlagWithoutKillIsReached(cfg, 0);
    }
  }

  /** One step leaves a flagged worker's record alone, or takes the worker away, and never kills for it. */
  lemma {:induction false} FlaggedStays(cfg: Config, s: State, a: Action, w: nat)
    requires w in s.crew.workers && s.crew.workers[w].killRequested
    ensures var t := Next(cfg, s, a); w in t.crew.workers ==> t.crew.workers[w] == s.crew.workers[w]
    ensures var t := Next(cfg, s, a); t.crew.kills == s.crew.kills || KillsBy(s, a, t, w)
  {
    if a.Hear? {
      if a.worker in s.crew.readers { HearOnCrew(s, a.worker, a.frame, a.full); }
    } else {
      OthersOnCrew(cfg, s, a, w);
    }
  }

  lemma {:induction false} OthersOnCrew(cfg: Config, s: State, a: Action, w: nat)
    requires w in s.crew.workers && s.crew.workers[w].killRequested && !a.Hear?
    ensures var t := Next(cfg, s, a); w in t.crew.workers ==> t.crew.workers[w] == s.crew.workers[w]
    ensures var t := Next(cfg, s, a); t.crew.kills == s.crew.kills || KillsBy(s, a, t, w)
  {
    var t := Next(cfg, s, a);
    match a
    case Join(v, _, _) => assert v in s.crew.workers || v != w;
    case Remove(v) => assert t.crew == Dismiss(cfg, s.crew, v, s.now);
    case Confirm(v, token, idle) => assert t.crew.workers == s.crew.workers || t.crew.workers == Kill(s.crew, v, token).workers;
    case _ =>
  }

  /** The step has killed for another slot: the token of its worker, or the one a confirm named. */
  ghost predicate KillsBy(s: State, a: Action, t: State, w: nat) {
    || (a.Confirm? && a.worker != w && t.crew.kills == s.crew.kills + [a.token])
    || (a.Hear? && a.worker != w && a.worker in s.crew.workers
        && t.crew.kills == s.crew.kills + [s.crew.workers[a.worker].token])
  }

  /** The worker stays, and nobody else goes by its token. */
  ghost predicate KeepsToken(cfg: Config, s: State, more: seq<Action>, w: nat, token: nat) {
    && (forall k | 0 <= k <= |more| :: var t := Follow(cfg, s, more[..k]);
          w in t.crew.workers && forall v | v in t.crew.workers && v != w :: t.crew.workers[v].token != token)
    && (forall k | 0 <= k < |more| && more[k].Confirm? && more[k].token == token :: more[k].worker == w)
  }

  /** So a worker flagged without having been killed is never a candidate again and never killed, however long it
      stays and whatever it does. */
  lemma {:induction false} FlaggedIsNeverKilled(cfg: Config, s: State, more: seq<Action>, w: nat)
    requires w in s.crew.workers && s.crew.workers[w].killRequested && s.crew.workers[w].token !in s.crew.kills
    requires KeepsToken(cfg, s, more, w, s.crew.workers[w].token)
    ensures var t := Follow(cfg, s, more);
      && w in t.crew.workers && t.crew.workers[w] == s.crew.workers[w]
      && !KillCandidate(cfg, t, w) && t.crew.workers[w].token !in t.crew.kills
    decreases |more|
  {
    var token, n := s.crew.workers[w].token, |more| - 1;
    assert more[..|more|] == more;
    if |more| > 0 {
      var short := more[..n];
      assert forall k | 0 <= k <= n :: short[..k] == more[..k];
      assert forall k | 0 <= k < n :: short[k] == more[k];
      FlaggedIsNeverKilled(cfg, s, short, w);
      FlaggedStays(cfg, Follow(cfg, s, short), more[n], w);
    }
  }

  // --- an id that has come round ---

  /** n requests, from channel c on, whose sends all fail. */
  function Rounds(c: nat, n: nat): seq<Action> {
    if n == 0 then [] else Rounds(c, n - 1) + [Reserve] + [Submit] + [SendFailed(c + n - 1)]
  }

  /** Nothing is pending or being submitted, and there is room for a request. */
  ghost predicate Quiet(s: State) {
    && s.table.pending == map[] && s.table.inFlight == 0
    && s.permits.available >= 1 && s.permits.reserved == 0 && s.permits.sending == map[]
  }

  /** n requests later. */
  ghost predicate Later(s: State, t: State, n: nat) {
    && Quiet(t) && t.table.nextId == Wrap(s.table.nextId + n) && |t.trace.channels| == |s.trace.channels| + n
    && t.permits.open == s.permits.open
  }

  lemma {:induction false} QuietSubmit(cfg: Config, s: State)
    requires Quiet(s)
    ensures var t := Next(cfg, Next(cfg, s, Reserve), Submit);
      && t.table == Table(map[s.table.nextId := Pending(|s.trace.channels|, None, None, false, None)],
                          Wrap(s.table.nextId + 1), 1)
      && t.permits == Permits(s.permits.available - 1, 0, map[|s.trace.channels| := s.table.nextId], s.permits.open)
      && |t.trace.channels| == |s.trace.channels| + 1
  {
    assert FreshId(s.table) == s.table.nextId;
  }

  lemma {:induction false} OneRound(cfg: Config, s: State)
    requires Quiet(s)
    ensures Later(s, Next(cfg, Next(cfg, Next(cfg, s, Reserve), Submit), SendFailed(|s.trace.channels|)), 1)
  {
    QuietSubmit(cfg, s);
    var t, c := Next(cfg, Next(cfg, s, Reserve), Submit), |s.trace.channels|;
    assert t.table.pending - {s.table.nextId} == map[];
    assert t.permits.sending - {c} == map[];
  }

  lemma {:induction false} RoundOn(cfg: Config, at: (seq<Action>, State) -> bool, actions: seq<Action>, s: State)
      returns (t: State)
    requires GoesOn(cfg, false, at) && at(actions, s) && Quiet(s)
    ensures at(actions + [Reserve] + [Submit] + [SendFailed(|s.trace.channels|)], t) && Later(s, t, 1)
  {
    OneRound(cfg, s);
    var reserved := Next(cfg, s, Reserve);
    var submitted := Next(cfg, reserved, Submit);
    t := Next(cfg, submitted, SendFailed(|s.trace.channels|));
    assert at(actions + [Reserve], reserved);
    assert at(actions + [Reserve] + [Submit], submitted);
  }

  lemma {:induction false} LaterStill(s: State, t: State, u: State, n: nat)
    requires Later(s, t, n) && Later(t, u, 1)
    ensures Later(s, u, n + 1)
  {
  }

  lemma {:induction false} ManyRounds(cfg: Config, at: (seq<Action>, State) -> bool, actions: seq<Action>, s: State, n: nat)
      returns (t: State)
    requires GoesOn(cfg, false, at) && at(actions, s) && Quiet(s)
    ensures at(actions + Rounds(|s.trace.channels|, n), t) && Later(s, t, n)
    decreases n
  {
    var c := |s.trace.channels|;
    if n == 0 {
      t := s;
      assert actions + Rounds(c, n) == actions;
    } else {
      var u := ManyRounds(cfg, at, actions, s, n - 1);
      t := RoundOn(cfg, at, actions + Rounds(c, n - 1), u);
      LaterStill(s, u, t, n - 1);
      RoundsAppend(actions, c, n);
    }
  }

  lemma {:induction false} RoundsAppend(actions: seq<Action>, c: nat, n: nat)
    requires n > 0
    ensures actions + Rounds(c, n) == actions + Rounds(c, n - 1) + [Reserve] + [Submit] + [SendFailed(c + (n - 1))]
  {
  }

  /** The first request is done and its stream still open. */
  lemma {:induction false} ServedIsReached(cfg: Config, at: (seq<Action>, State) -> bool) returns (s: State)
    requires cfg.queueMax >= 2 && cfg.concurrencyCap >= 1
    requires GoesOn(cfg, false, at) && at([], Init(cfg))
    ensures at(Taken() + [Hear(0, DoneFrame(), {})], s)
    ensures Quiet(s) && s.table.nextId == 2 && |s.trace.channels| == 1 && s.permits.open == map[0 := 1]
  {
    var taken := TakenIsReached(cfg, false, at);
    assert TurnFor(taken.crew, 0, DoneFrame()).Free?;
    s := Next(cfg, taken, Hear(0, DoneFrame(), {}));
    assert s.table.pending == map[];
  }

  /** n requests after the first. */
  function CameRound(n: nat): seq<Action> {
    Taken() + [Hear(0, DoneFrame(), {})] + Rounds(1, n) + [Reserve] + [Submit]
  }

  lemma {:induction false} CameRoundPath(cfg: Config, at: (seq<Action>, State) -> bool, n: nat) returns (s: State)
    requires cfg.queueMax >= 2 && cfg.concurrencyCap >= 1 && n == U32_LIMIT - 1
    requires GoesOn(cfg, false, at) && at([], Init(cfg))
    ensures at(CameRound(n), s) && s.permits.open == map[0 := 1]
    ensures s.table.pending == map[1 := Pending(n + 1, None, None, false, None)]
  {
    var served := ServedIsReached(cfg, at);
    var round := ManyRounds(cfg, at, Taken() + [Hear(0, DoneFrame(), {})], served, n);
    assert round.table.nextId == 1;
    QuietSubmit(cfg, round);
    var reserved := Next(cfg, round, Reserve);
    s := Next(cfg, reserved, Submit);
    assert at(Taken() + [Hear(0, DoneFrame(), {})] + Rounds(1, n) + [Reserve], reserved);
  }

  /** When the counter has gone round once, the next request has the id of the first, and dropping the first one's
      stream takes its entry. */
  lemma {:induction false} WrappedIdIsReached(cfg: Config, n: nat)
    requires cfg.queueMax >= 2 && cfg.concurrencyCap >= 1 && n == U32_LIMIT - 1
    ensures var s := Run(cfg, CameRound(n));
      && 0 in s.permits.open && s.permits.open[0] in s.table.pending
      && s.table.pending[s.permits.open[0]].channel == n + 1
      && s.permits.open[0] !in Run(cfg, CameRound(n) + [DropStream(0)]).table.pending
  {
    RunsGoOn(cfg, false);
    var s := CameRoundPath(cfg, RunsTo(cfg, false), n);
    DropOfFirst(cfg, CameRound(n), s, n);
  }

  lemma {:induction false} DropOfFirst(cfg: Config, actions: seq<Action>, s: State, n: nat)
    requires Run(cfg, actions) == s && s.permits.open == map[0 := 1]
    requires s.table.pending == map[1 := Pending(n + 1, None, None, false, None)]
    ensures 1 !in Run(cfg, actions + [DropStream(0)]).table.pending
  {
    OneMoreStep(cfg, actions, DropStream(0));
  }
}
