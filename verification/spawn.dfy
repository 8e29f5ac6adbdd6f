/** Spawning and killing workers through a prototype process, by token. */
module Spawning {
  import opened Bytes

  const CMD_SPAWN: byte := 1
  const CMD_KILL: byte := 2

  // --- the control channel ---

  datatype Command = Spawn(token: u64) | Kill(token: u64)

  /** A command byte and the 8-byte token; a spawn's descriptor rides on the first byte. */
  function EncodeCommand(c: Command): (s: seq<byte>)
    ensures |s| == 9
  {
    [if c.Spawn? then CMD_SPAWN else CMD_KILL] + Le(c.token, 8)
  }

  function EncodeCommands(cs: seq<Command>): seq<byte>
    decreases |cs|
  {
    if |cs| == 0 then [] else EncodeCommand(cs[0]) + EncodeCommands(cs[1..])
  }

  /** `recv_command`, where every spawn byte carries a descriptor: `None` on end of stream or a broken command. */
  function FirstCommand(s: seq<byte>): (r: Option<Command>)
    ensures r.Some? ==> |s| >= 9
  {
    if |s| < 9 then None
    else if s[0] == CMD_SPAWN then Some(Spawn(ReadLe64(s, 1)))
    else if s[0] == CMD_KILL then Some(Kill(ReadLe64(s, 1)))
    else None
  }

  lemma {:induction false} CommandReadsBack(c: Command, rest: seq<byte>)
    ensures FirstCommand(EncodeCommand(c) + rest) == Some(c) && (EncodeCommand(c) + rest)[9..] == rest
  {
    Spans();
    var first := [if c.Spawn? then CMD_SPAWN else CMD_KILL];
    assert EncodeCommand(c) + rest == first + Le(c.token, 8) + rest;
    ReadLeOf(first, c.token, 8, rest);
  }

  /** The config goes first: a 4-byte length and the text; the length must fit. */
  function EncodeConfig(text: seq<byte>): Option<seq<byte>> {
    if |text| < U32_LIMIT then Some(Le(|text|, 4) + text) else None
  }

  /** The text, and where the commands begin. */
  function ReadConfig(s: seq<byte>): Option<(seq<byte>, nat)> {
    if |s| < 4 || |s| < 4 + ReadLe32(s, 0) then None
    else Some((s[4..4 + ReadLe32(s, 0)], 4 + ReadLe32(s, 0)))
  }

  /** Whatever the config holds, the prototype reads it whole and finds the first command behind it. */
  lemma {:induction false} ConfigReadsBack(text: seq<byte>, rest: seq<byte>)
    requires EncodeConfig(text).Some?
    ensures ReadConfig(EncodeConfig(text).value + rest) == Some((text, 4 + |text|))
    ensures (EncodeConfig(text).value + rest)[4 + |text|..] == rest
  {
    Spans();
    var buf := EncodeConfig(text).value + rest;
    assert buf == [] + Le(|text|, 4) + (text + rest);
    ReadLeOf([], |text|, 4, text + rest);
    assert buf[4..4 + |text|] == text;
  }

  // --- processes ---

  datatype Status = Running | Zombie | Reaped

  /** One process that a prototype forked, in the order of the forks; `epoch` numbers the prototypes. */
  datatype Process = Process(pid: nat, token: u64, epoch: nat, status: Status)

  /** The prototype as the supervisor last started it. `control` is what it has not read of its channel. */
  datatype Prototype = Prototype(epoch: nat, alive: bool, control: seq<byte>, queue: seq<Command>,
                                 workers: map<u64, nat>)

  /** A signal sent for a token, and the process that held the pid. */
  datatype Hit = Hit(token: u64, victim: Option<nat>)

  datatype State = State(issued: nat, prototype: Option<Prototype>, epochs: nat, processes: seq<Process>, hits: seq<Hit>)

  function Init(): State { State(0, None, 0, [], []) }

  /** `fetch_add` from 1, wrapping at 64 bits. */
  function Token(issued: nat): u64 { (issued + 1) % U64_LIMIT }

  /** The kernel gives out no pid that a process or a zombie still has. */
  predicate PidFree(ps: seq<Process>, pid: nat) {
    forall i | 0 <= i < |ps| :: ps[i].status.Reaped? || ps[i].pid != pid
  }

  /** Who has the pid. */
  function Holder(ps: seq<Process>, pid: nat): (r: Option<nat>)
    ensures r.Some? ==> r.value < |ps| && ps[r.value].pid == pid && !ps[r.value].status.Reaped?
    ensures r.None? ==> PidFree(ps, pid)
    decreases |ps|
  {
    if |ps| == 0 then None
    else
      var n := |ps| - 1;
      if !ps[n].status.Reaped? && ps[n].pid == pid then Some(n) else Holder(ps[..n], pid)
  }

  /** How the start of a prototype goes: not at all, to one that is gone by the first command, or well. */
  datatype Start = Fails | Dies | Answers

  datatype Action =
    | SpawnCall(first: Start, second: Start) | KillCall(token: u64) | Handle(pid: nat, forkOk: bool) | Die
    | Exit(process: nat) | Reap(process: nat) | InitReap(process: nat)

  function Enqueue(p: Prototype, c: Command): Prototype {
    p.(control := p.control + EncodeCommand(c), queue := p.queue + [c])
  }

  /** A fresh prototype, and the command to it if it answers. */
  function Launch(s: State, c: Command, how: Start): State {
    match how
    case Fails => s.(prototype := None)
    case Dies => s.(epochs := s.epochs + 1, prototype := Some(Prototype(s.epochs, false, [], [], map[])))
    case Answers =>
      s.(epochs := s.epochs + 1, prototype := Some(Enqueue(Prototype(s.epochs, true, [], [], map[]), c)))
  }

  /** A running prototype takes the command; a dead one is replaced once, and so is one that was never started. */
  function SpawnStep(s: State, first: Start, second: Start): State {
    var c, t := Spawn(Token(s.issued)), s.(issued := s.issued + 1);
    if s.prototype.Some? && s.prototype.value.alive then t.(prototype := Some(Enqueue(s.prototype.value, c)))
    else if s.prototype.None? && first.Dies? then Launch(Launch(t, c, first), c, second)
    else Launch(t, c, first)
  }

  function KillStep(s: State, token: u64): State {
    if s.prototype.Some? && s.prototype.value.alive
    then s.(prototype := Some(Enqueue(s.prototype.value, Kill(token)))) else s
  }

  /** One command off the channel. */
  function HandleStep(s: State, p: Prototype, pid: nat, forkOk: bool): State {
    match FirstCommand(p.control)
    case None => s.(prototype := Some(p.(alive := false)))
    case Some(c) =>
      var q := p.(control := p.control[9..], queue := if |p.queue| > 0 then p.queue[1..] else []);
      match c
      case Spawn(token) =>
        if forkOk && PidFree(s.processes, pid) then
          s.(prototype := Some(q.(workers := q.workers[token := pid])),
             processes := s.processes + [Process(pid, token, p.epoch, Running)])
        else s.(prototype := Some(q))
      case Kill(token) =>
        if token in q.workers then
          s.(prototype := Some(q), hits := s.hits + [Hit(token, Holder(s.processes, q.workers[token]))])
        else s.(prototype := Some(q))
  }

  function WithStatus(ps: seq<Process>, i: nat, status: Status): seq<Process>
    requires i < |ps|
  {
    ps[i := ps[i].(status := status)]
  }

  function Retained(workers: map<u64, nat>, pid: nat): map<u64, nat> {
    map t | t in workers && workers[t] != pid :: workers[t]
  }

  predicate IsParent(s: State, i: nat) {
    i < |s.processes| && s.prototype.Some? && s.prototype.value.alive && s.prototype.value.epoch == s.processes[i].epoch
  }

  /** An action that is not enabled changes nothing. The handling of a command waits for one that is whole. */
  function Next(s: State, a: Action): State {
    match a
    case SpawnCall(first, second) => SpawnStep(s, first, second)
    case KillCall(token) => KillStep(s, token)
    case Handle(pid, forkOk) =>
      if s.prototype.Some? && s.prototype.value.alive && |s.prototype.value.control| > 0
      then HandleStep(s, s.prototype.value, pid, forkOk) else s
    case Die => if s.prototype.Some? then s.(prototype := Some(s.prototype.value.(alive := false))) else s
    case Exit(i) =>
      if i < |s.processes| && s.processes[i].status.Running?
      then s.(processes := WithStatus(s.processes, i, Zombie)) else s
    case Reap(i) =>
      if IsParent(s, i) && s.processes[i].status.Zombie? then
        s.(processes := WithStatus(s.processes, i, Reaped),
           prototype := Some(s.prototype.value.(workers := Retained(s.prototype.value.workers, s.processes[i].pid))))
      else s
    case InitReap(i) =>
      if i < |s.processes| && !IsParent(s, i) && s.processes[i].status.Zombie?
      then s.(processes := WithStatus(s.processes, i, Reaped)) else s
  }

  function Run(actions: seq<Action>): State
    decreases |actions|
  {
    if |actions| == 0 then Init() else Next(Run(actions[..|actions| - 1]), actions[|actions| - 1])
  }

  // --- what every run keeps ---

  ghost predicate PidsDistinct(ps: seq<Process>) {
    forall i, j | 0 <= i < j < |ps| && !ps[i].status.Reaped? && !ps[j].status.Reaped? :: ps[i].pid != ps[j].pid
  }

  /** The channel holds exactly the commands sent and not yet handled. */
  ghost predicate ChannelOk(p: Prototype) {
    p.control == EncodeCommands(p.queue)
  }

  /** Process i is the unreaped child that the prototype forked for the token. */
  ghost predicate ChildFor(s: State, i: nat, epoch: nat, token: u64, pid: nat) {
    i < |s.processes| && s.processes[i].token == token && s.processes[i].epoch == epoch
    && s.processes[i].pid == pid && !s.processes[i].status.Reaped?
  }

  /** Every mapping of a running prototype is to an unreaped child of its own, forked for that token. */
  ghost predicate Mapped(s: State) {
    s.prototype.Some? && s.prototype.value.alive ==>
      forall t | t in s.prototype.value.workers ::
        exists i :: ChildFor(s, i, s.prototype.value.epoch, t, s.prototype.value.workers[t])
  }

  /** Every signal went to the process forked for its token. */
  ghost predicate HitsAreRight(s: State) {
    forall h | 0 <= h < |s.hits| :: s.hits[h].victim.Some? && s.hits[h].victim.value < |s.processes|
      && s.processes[s.hits[h].victim.value].token == s.hits[h].token
  }

  ghost predicate Inv(s: State) {
    && PidsDistinct(s.processes) && Mapped(s) && HitsAreRight(s)
    && (s.prototype.Some? && s.prototype.value.alive ==> ChannelOk(s.prototype.value))
  }

  lemma {:induction false} EncodeMore(cs: seq<Command>, c: Command)
    ensures EncodeCommands(cs + [c]) == EncodeCommands(cs) + EncodeCommand(c)
    decreases |cs|
  {
    if |cs| == 0 {
      assert cs + [c] == [c] && [c][1..] == [];
    } else {
      assert (cs + [c])[0] == cs[0] && (cs + [c])[1..] == cs[1..] + [c];
      EncodeMore(cs[1..], c);
    }
  }

  /** What the prototype reads next is the oldest command sent and not handled. */
  lemma {:induction false} ReadsWhatWasSent(p: Prototype)
    requires ChannelOk(p) && |p.control| > 0
    ensures |p.queue| > 0 && FirstCommand(p.control) == Some(p.queue[0]) && |p.control| >= 9
    ensures p.control[9..] == EncodeCommands(p.queue[1..])
  {
    CommandReadsBack(p.queue[0], EncodeCommands(p.queue[1..]));
  }

  /** The same processes with other statuses, none of a mapped child reaped. */
  lemma {:induction false} MappedStays(s: State, t: State)
    requires Mapped(s) && t.prototype == s.prototype && |s.processes| <= |t.processes|
    requires forall i | 0 <= i < |s.processes| ::
      t.processes[i] == s.processes[i].(status := t.processes[i].status)
      && (t.processes[i].status.Reaped? ==> s.processes[i].status.Reaped? || !IsParent(s, i))
    ensures Mapped(t)
  {
    if t.prototype.Some? && t.prototype.value.alive {
      var p := t.prototype.value;
      forall k | k in p.workers
        ensures exists i :: ChildFor(t, i, p.epoch, k, p.workers[k])
      {
        var i :| ChildFor(s, i, p.epoch, k, p.workers[k]);
        assert ChildFor(t, i, p.epoch, k, p.workers[k]);
      }
    }
  }

  lemma {:induction false} EnqueueKeeps(s: State, c: Command, issued: nat)
    requires Inv(s) && s.prototype.Some? && s.prototype.value.alive
    ensures Inv(s.(issued := issued, prototype := Some(Enqueue(s.prototype.value, c))))
  {
    EncodeMore(s.prototype.value.queue, c);
    var t := s.(issued := issued, prototype := Some(Enqueue(s.prototype.value, c)));
    forall k | k in t.prototype.value.workers
      ensures exists i :: ChildFor(t, i, t.prototype.value.epoch, k, t.prototype.value.workers[k])
    {
      var i :| ChildFor(s, i, s.prototype.value.epoch, k, s.prototype.value.workers[k]);
      assert ChildFor(t, i, t.prototype.value.epoch, k, t.prototype.value.workers[k]);
    }
  }

  lemma {:induction false} LaunchKeeps(s: State, c: Command, how: Start)
    requires PidsDistinct(s.processes) && HitsAreRight(s)
    ensures Inv(Launch(s, c, how))
  {
    EncodeMore([], c);
  }

  lemma {:induction false} SpawnKeeps(s: State, first: Start, second: Start)
    requires Inv(s)
    ensures Inv(SpawnStep(s, first, second))
  {
    var c, t := Spawn(Token(s.issued)), s.(issued := s.issued + 1);
    if s.prototype.Some? && s.prototype.value.alive {
      EnqueueKeeps(s, c, s.issued + 1);
    } else {
      LaunchKeeps(t, c, first);
      LaunchKeeps(Launch(t, c, first), c, second);
    }
  }

  /** The pid of a mapped token is held by the child forked for it and by no other process. */
  lemma {:induction false} HolderIsTheChild(s: State, token: u64)
    requires Inv(s) && s.prototype.Some? && s.prototype.value.alive && token in s.prototype.value.workers
    ensures var r := Holder(s.processes, s.prototype.value.workers[token]);
      r.Some? && s.processes[r.value].token == token && !s.processes[r.value].status.Reaped?
  {
    var p := s.prototype.value;
    var i :| ChildFor(s, i, p.epoch, token, p.workers[token]);
    var r := Holder(s.processes, p.workers[token]);
    assert r.Some?;
    assert r.value == i;
  }

  lemma {:induction false} MappedAfterHandle(s: State, pid: nat, forkOk: bool)
    requires Inv(s) && s.prototype.Some? && s.prototype.value.alive && |s.prototype.value.control| > 0
    ensures Mapped(HandleStep(s, s.prototype.value, pid, forkOk))
  {
    var p := s.prototype.value;
    ReadsWhatWasSent(p);
    var t := HandleStep(s, p, pid, forkOk);
    var q := t.prototype.value;
    forall k | k in q.workers
      ensures exists i :: ChildFor(t, i, q.epoch, k, q.workers[k])
    {
      if |t.processes| > |s.processes| && k == p.queue[0].token {
        assert ChildFor(t, |s.processes|, q.epoch, k, pid);
      } else {
        var i :| ChildFor(s, i, p.epoch, k, p.workers[k]);
        assert ChildFor(t, i, q.epoch, k, q.workers[k]);
      }
    }
  }

  lemma {:induction false} HandleKeeps(s: State, pid: nat, forkOk: bool)
    requires Inv(s) && s.prototype.Some? && s.prototype.value.alive && |s.prototype.value.control| > 0
    ensures Inv(HandleStep(s, s.prototype.value, pid, forkOk))
  {
    var p := s.prototype.value;
    ReadsWhatWasSent(p);
    MappedAfterHandle(s, pid, forkOk);
    if p.queue[0].Kill? && p.queue[0].token in p.workers {
      HolderIsTheChild(s, p.queue[0].token);
    }
  }

  lemma {:induction false} ReapKeeps(s: State, i: nat)
    requires Inv(s) && IsParent(s, i) && s.processes[i].status.Zombie?
    ensures Inv(Next(s, Reap(i)))
  {
    var t := Next(s, Reap(i));
    var p, q := s.prototype.value, t.prototype.value;
    forall k | k in q.workers
      ensures exists j :: ChildFor(t, j, q.epoch, k, q.workers[k])
    {
      var j :| ChildFor(s, j, p.epoch, k, p.workers[k]);
      assert ChildFor(t, j, q.epoch, k, q.workers[k]);
    }
  }

  lemma {:induction false} StepKeepsInv(s: State, a: Action)
    requires Inv(s)
    ensures Inv(Next(s, a))
  {
    match a
    case SpawnCall(first, second) => SpawnKeeps(s, first, second);
    case KillCall(token) => if s.prototype.Some? && s.prototype.value.alive { EnqueueKeeps(s, Kill(token), s.issued); }
    case Handle(pid, forkOk) =>
      if s.prototype.Some? && s.prototype.value.alive && |s.prototype.value.control| > 0 { HandleKeeps(s, pid, forkOk); }
    case Die =>
    case Exit(i) => MappedStays(s, Next(s, a));
    case Reap(i) => if IsParent(s, i) && s.processes[i].status.Zombie? { ReapKeeps(s, i); }
    case InitReap(i) => MappedStays(s, Next(s, a));
  }

  /** In every run of spawns, kills, forks, exits, reaps, recycled pids and restarts of the prototype: commands are
      read as they were sent, mapped pids are those of unreaped children, and every signal goes to the process that
      was forked for its token. */
  lemma {:induction false} RunKeepsInv(actions: seq<Action>)
    ensures Inv(Run(actions))
    decreases |actions|
  {
    if |actions| > 0 {
      RunKeepsInv(actions[..|actions| - 1]);
      StepKeepsInv(Run(actions[..|actions| - 1]), actions[|actions| - 1]);
    }
  }

  // --- tokens ---

  /** Tokens of processes and of spawn commands on their way are below the counter, and no two are the same. */
  ghost predicate TokensOk(ps: seq<Process>, queue: seq<Command>, issued: nat) {
    && (forall i | 0 <= i < |ps| :: 1 <= ps[i].token <= issued)
    && (forall k | 0 <= k < |queue| && queue[k].Spawn? :: 1 <= queue[k].token <= issued)
    && (forall i, j | 0 <= i < j < |ps| :: ps[i].token != ps[j].token)
    && (forall k, l | 0 <= k < l < |queue| && queue[k].Spawn? && queue[l].Spawn? :: queue[k].token != queue[l].token)
    && (forall k, i | 0 <= k < |queue| && queue[k].Spawn? && 0 <= i < |ps| :: queue[k].token != ps[i].token)
  }

  /** The commands that will still be read. */
  function LiveQueue(s: State): seq<Command> {
    if s.prototype.Some? && s.prototype.value.alive then s.prototype.value.queue else []
  }

  ghost predicate TokensUnique(s: State) { TokensOk(s.processes, LiveQueue(s), s.issued) }

  lemma {:induction false} TokensAfterSpawn(ps: seq<Process>, queue: seq<Command>, issued: nat)
    requires TokensOk(ps, queue, issued) && issued + 1 < U64_LIMIT
    ensures TokensOk(ps, queue + [Spawn(Token(issued))], issued + 1)
  {
    assert Token(issued) == issued + 1;
  }

  lemma {:induction false} TokensAfterPop(ps: seq<Process>, queue: seq<Command>, issued: nat)
    requires TokensOk(ps, queue, issued) && |queue| > 0
    ensures TokensOk(ps, queue[1..], issued)
  {
  }

  lemma {:induction false} TokensAfterFork(ps: seq<Process>, queue: seq<Command>, issued: nat, p: Process)
    requires TokensOk(ps, queue, issued) && |queue| > 0 && queue[0] == Spawn(p.token)
    ensures TokensOk(ps + [p], queue[1..], issued)
  {
  }

  lemma {:induction false} TokensOfFewer(ps: seq<Process>, queue: seq<Command>, issued: nat)
    requires TokensOk(ps, queue, issued)
    ensures TokensOk(ps, [], issued)
  {
  }

  lemma {:induction false} TokensAfterStatus(ps: seq<Process>, i: nat, status: Status, queue: seq<Command>, issued: nat)
    requires TokensOk(ps, queue, issued) && i < |ps|
    ensures TokensOk(WithStatus(ps, i, status), queue, issued)
  {
  }

  lemma {:induction false} TokensAfterHandle(s: State, pid: nat, forkOk: bool)
    requires Inv(s) && TokensUnique(s)
    requires s.prototype.Some? && s.prototype.value.alive && |s.prototype.value.control| > 0
    ensures TokensUnique(HandleStep(s, s.prototype.value, pid, forkOk))
  {
    var p := s.prototype.value;
    ReadsWhatWasSent(p);
    TokensAfterPop(s.processes, p.queue, s.issued);
    if p.queue[0].Spawn? {
      TokensAfterFork(s.processes, p.queue, s.issued, Process(pid, p.queue[0].token, p.epoch, Running));
    }
  }

  /** What a spawn does to the queue that will be read. */
  lemma {:induction false} QueueAfterSpawn(s: State, first: Start, second: Start)
    ensures var t, c := SpawnStep(s, first, second), Spawn(Token(s.issued));
      && t.processes == s.processes && t.issued == s.issued + 1
      && (LiveQueue(t) == LiveQueue(s) + [c] || LiveQueue(t) == [] + [c] || LiveQueue(t) == [])
  {
  }

  lemma {:induction false} TokensAfterSpawnCall(s: State, first: Start, second: Start)
    requires TokensUnique(s) && s.issued + 1 < U64_LIMIT
    ensures TokensUnique(SpawnStep(s, first, second))
  {
    QueueAfterSpawn(s, first, second);
    TokensOfFewer(s.processes, LiveQueue(s), s.issued);
    TokensAfterSpawn(s.processes, LiveQueue(s), s.issued);
    TokensAfterSpawn(s.processes, [], s.issued);
    TokensOfFewer(s.processes, [] + [Spawn(Token(s.issued))], s.issued + 1);
  }

  lemma {:induction false} TokensAfterKillCall(s: State, token: u64)
    requires TokensUnique(s)
    ensures TokensUnique(KillStep(s, token))
  {
    if s.prototype.Some? && s.prototype.value.alive {
      assert LiveQueue(KillStep(s, token)) == LiveQueue(s) + [Kill(token)];
    }
  }

  lemma {:induction false} StepKeepsTokens(s: State, a: Action)
    requires Inv(s) && TokensUnique(s) && Next(s, a).issued < U64_LIMIT
    ensures TokensUnique(Next(s, a))
  {
    match a
    case SpawnCall(first, second) => TokensAfterSpawnCall(s, first, second);
    case KillCall(token) => TokensAfterKillCall(s, token);
    case Handle(pid, forkOk) =>
      if s.prototype.Some? && s.prototype.value.alive && |s.prototype.value.control| > 0 {
        TokensAfterHandle(s, pid, forkOk);
      }
    case Die => TokensOfFewer(s.processes, LiveQueue(s), s.issued);
    case Exit(i) => if i < |s.processes| { TokensAfterStatus(s.processes, i, Zombie, LiveQueue(s), s.issued); }
    case Reap(i) => if i < |s.processes| { TokensAfterStatus(s.processes, i, Reaped, LiveQueue(s), s.issued); }
    case InitReap(i) => if i < |s.processes| { TokensAfterStatus(s.processes, i, Reaped, LiveQueue(s), s.issued); }
  }

  lemma {:induction false} IssuedGrows(s: State, a: Action)
    ensures s.issued <= Next(s, a).issued
  {
  }

  /** While fewer than 2^64 workers have been asked for, no token stands for two processes. */
  lemma {:induction false} RunKeepsTokens(actions: seq<Action>)
    requires Run(actions).issued < U64_LIMIT
    ensures TokensUnique(Run(actions))
    decreases |actions|
  {
    if |actions| > 0 {
      var before := actions[..|actions| - 1];
      IssuedGrows(Run(before), actions[|actions| - 1]);
      RunKeepsTokens(before);
      RunKeepsInv(before);
      StepKeepsTokens(Run(before), actions[|actions| - 1]);
    }
  }

  lemma {:induction false} MappedIsUnreaped(s: State, i: nat)
    requires Inv(s) && TokensUnique(s) && i < |s.processes| && s.prototype.Some? && s.prototype.value.alive
    requires s.processes[i].token in s.prototype.value.workers
    ensures !s.processes[i].status.Reaped?
  {
    var p, t := s.prototype.value, s.processes[i].token;
    var j :| ChildFor(s, j, p.epoch, t, p.workers[t]);
    assert i == j;
  }

  /** A kill for a token whose process has been reaped signals nothing, whoever has its pid by then. */
  lemma {:induction false} KillAfterReapIsHarmless(actions: seq<Action>, i: nat, pid: nat, forkOk: bool)
    requires Run(actions).issued < U64_LIMIT && i < |Run(actions).processes|
    requires Run(actions).processes[i].status.Reaped?
    requires LiveQueue(Run(actions)) != [] && LiveQueue(Run(actions))[0] == Kill(Run(actions).processes[i].token)
    ensures Next(Run(actions), Handle(pid, forkOk)).hits == Run(actions).hits
  {
    RunKeepsInv(actions);
    RunKeepsTokens(actions);
    var s := Run(actions);
    if s.processes[i].token in s.prototype.value.workers {
      MappedIsUnreaped(s, i);
    }
    UnmappedKillHitsNothing(s, pid, forkOk);
  }

  lemma {:induction false} UnmappedKillHitsNothing(s: State, pid: nat, forkOk: bool)
    requires Inv(s) && |LiveQueue(s)| > 0 && LiveQueue(s)[0].Kill?
    requires LiveQueue(s)[0].token !in s.prototype.value.workers
    ensures Next(s, Handle(pid, forkOk)).hits == s.hits
  {
    var p := s.prototype.value;
    assert p.control == EncodeCommand(p.queue[0]) + EncodeCommands(p.queue[1..]);
    ReadsWhatWasSent(p);
  }

  // --- whom a kill reaches ---

  /** The epochs of the processes and of the prototype have begun. */
  ghost predicate EpochsOk(s: State) {
    && (forall i | 0 <= i < |s.processes| :: s.processes[i].epoch < s.epochs)
    && (s.prototype.Some? ==> s.prototype.value.epoch < s.epochs)
  }

  predicate IsMapped(p: Prototype, x: Process) {
    x.token in p.workers && p.workers[x.token] == x.pid
  }

  /** Every unreaped child of a running prototype is mapped. */
  ghost predicate ChildrenMapped(s: State) {
    s.prototype.Some? && s.prototype.value.alive ==>
      forall i | 0 <= i < |s.processes| && s.processes[i].epoch == s.prototype.value.epoch
                 && !s.processes[i].status.Reaped? :: IsMapped(s.prototype.value, s.processes[i])
  }

  ghost predicate Reachable(s: State) { EpochsOk(s) && ChildrenMapped(s) }

  lemma {:induction false} ReachableAfterSpawn(s: State, first: Start, second: Start)
    requires Reachable(s)
    ensures Reachable(SpawnStep(s, first, second))
  {
  }

  lemma {:induction false} ReachableAfterHandle(s: State, pid: nat, forkOk: bool)
    requires Inv(s) && TokensUnique(s) && Reachable(s)
    requires s.prototype.Some? && s.prototype.value.alive && |s.prototype.value.control| > 0
    ensures Reachable(HandleStep(s, s.prototype.value, pid, forkOk))
  {
    ReadsWhatWasSent(s.prototype.value);
    var t := HandleStep(s, s.prototype.value, pid, forkOk);
    forall i | 0 <= i < |t.processes| && t.processes[i].epoch == t.prototype.value.epoch && !t.processes[i].status.Reaped?
      ensures IsMapped(t.prototype.value, t.processes[i])
    {
      if i < |s.processes| {
        assert IsMapped(s.prototype.value, s.processes[i]);
      }
    }
  }

  lemma {:induction false} ReachableAfterReap(s: State, i: nat)
    requires Inv(s) && Reachable(s) && IsParent(s, i) && s.processes[i].status.Zombie?
    ensures Reachable(Next(s, Reap(i)))
  {
    var t := Next(s, Reap(i));
    forall j | 0 <= j < |t.processes| && t.processes[j].epoch == t.prototype.value.epoch && !t.processes[j].status.Reaped?
      ensures IsMapped(t.prototype.value, t.processes[j])
    {
      assert j != i && t.processes[j] == s.processes[j];
      assert IsMapped(s.prototype.value, s.processes[j]);
      assert s.processes[j].pid != s.processes[i].pid;
    }
  }

  lemma {:induction false} ReachableAfterStatus(s: State, i: nat, status: Status)
    requires Reachable(s) && i < |s.processes| && !s.processes[i].status.Reaped?
    ensures Reachable(s.(processes := WithStatus(s.processes, i, status)))
  {
    var t := s.(processes := WithStatus(s.processes, i, status));
    if s.prototype.Some? && s.prototype.value.alive {
      forall j | 0 <= j < |t.processes| && t.processes[j].epoch == t.prototype.value.epoch && !t.processes[j].status.Reaped?
        ensures IsMapped(t.prototype.value, t.processes[j])
      {
        assert IsMapped(s.prototype.value, s.processes[j]);
      }
    }
  }

  lemma {:induction false} StepKeepsReachable(s: State, a: Action)
    requires Inv(s) && TokensUnique(s) && Reachable(s)
    ensures Reachable(Next(s, a))
  {
    match a
    case SpawnCall(first, second) => ReachableAfterSpawn(s, first, second);
    case KillCall(token) =>
    case Handle(pid, forkOk) =>
      if s.prototype.Some? && s.prototype.value.alive && |s.prototype.value.control| > 0 {
        ReachableAfterHandle(s, pid, forkOk);
      }
    case Die =>
    case Exit(i) => if i < |s.processes| && s.processes[i].status.Running? { ReachableAfterStatus(s, i, Zombie); }
    case Reap(i) => if IsParent(s, i) && s.processes[i].status.Zombie? { ReachableAfterReap(s, i); }
    case InitReap(i) =>
      if i < |s.processes| && s.processes[i].status.Zombie? { ReachableAfterStatus(s, i, Reaped); }
  }

  lemma {:induction false} RunKeepsReachable(actions: seq<Action>)
    requires Run(actions).issued < U64_LIMIT
    ensures Reachable(Run(actions))
    decreases |actions|
  {
    if |actions| > 0 {
      var before := actions[..|actions| - 1];
      IssuedGrows(Run(before), actions[|actions| - 1]);
      RunKeepsReachable(before);
      RunKeepsInv(before);
      RunKeepsTokens(before);
      StepKeepsReachable(Run(before), actions[|actions| - 1]);
    }
  }

  /** The kill of process i is what a live prototype reads next. */
  ghost predicate KillIsNext(s: State, i: nat) {
    i < |s.processes| && |LiveQueue(s)| > 0 && LiveQueue(s)[0] == Kill(s.processes[i].token)
  }

  lemma {:induction false} OnlyOwnMapping(s: State, i: nat)
    requires Inv(s) && TokensUnique(s) && i < |s.processes| && s.prototype.Some? && s.prototype.value.alive
    requires s.processes[i].token in s.prototype.value.workers
    ensures s.processes[i].epoch == s.prototype.value.epoch
    ensures Holder(s.processes, s.prototype.value.workers[s.processes[i].token]) == Some(i)
  {
    var p, t := s.prototype.value, s.processes[i].token;
    var j :| ChildFor(s, j, p.epoch, t, p.workers[t]);
    assert i == j;
    HolderIsTheChild(s, t);
    var r := Holder(s.processes, p.workers[t]);
    assert r.value == i;
  }

  /** A kill signals the unreaped process it is meant for if and only if the live prototype is the one that forked it;
      the workers of an earlier prototype are out of reach. */
  lemma {:induction false} KillReachesExactly(actions: seq<Action>, i: nat, pid: nat, forkOk: bool)
    requires Run(actions).issued < U64_LIMIT && KillIsNext(Run(actions), i)
    requires !Run(actions).processes[i].status.Reaped?
    ensures var s, t := Run(actions), Next(Run(actions), Handle(pid, forkOk));
      t.hits == s.hits + if s.processes[i].epoch == s.prototype.value.epoch then [Hit(s.processes[i].token, Some(i))] else []
  {
    RunKeepsInv(actions);
    RunKeepsTokens(actions);
    RunKeepsReachable(actions);
    var s := Run(actions);
    ReadsWhatWasSent(s.prototype.value);
    if s.processes[i].token in s.prototype.value.workers {
      OnlyOwnMapping(s, i);
    } else {
      assert !IsMapped(s.prototype.value, s.processes[i]);
    }
  }

  lemma {:induction false} OneMoreStep(actions: seq<Action>, s: State, a: Action, t: State)
    requires Run(actions) == s && Next(s, a) == t
    ensures Run(actions + [a]) == t
  {
    assert (actions + [a])[..|actions|] == actions;
  }

  /** One command on the channel of a prototype without children. */
  function Waiting(issued: nat, epoch: nat, c: Command, ps: seq<Process>): State {
    State(issued, Some(Prototype(epoch, true, EncodeCommand(c), [c], map[])), epoch + 1, ps, [])
  }

  /** The child forked for it. */
  function Forked(issued: nat, epoch: nat, token: u64, pid: nat, ps: seq<Process>): State {
    State(issued, Some(Prototype(epoch, true, [], [], map[token := pid])), epoch + 1,
          ps + [Process(pid, token, epoch, Running)], [])
  }

  lemma {:induction false} OneOnTheChannel(c: Command)
    ensures FirstCommand(EncodeCommand(c)) == Some(c) && EncodeCommand(c)[9..] == []
  {
    CommandReadsBack(c, []);
    assert EncodeCommand(c) + [] == EncodeCommand(c);
  }

  lemma {:induction false} ForkIsHandled(issued: nat, epoch: nat, token: u64, pid: nat, ps: seq<Process>)
    requires PidFree(ps, pid)
    ensures Next(Waiting(issued, epoch, Spawn(token), ps), Handle(pid, true)) == Forked(issued, epoch, token, pid, ps)
  {
    OneOnTheChannel(Spawn(token));
  }

  lemma {:induction false} StaleKillIsHandled(s: State, token: u64, pid: nat, forkOk: bool)
    requires s.prototype.Some? && s.prototype.value.alive && s.prototype.value.control == [] && s.prototype.value.queue == []
    requires token !in s.prototype.value.workers
    ensures Next(Next(s, KillCall(token)), Handle(pid, forkOk)) == s
  {
    OneOnTheChannel(Kill(token));
    var t := Next(s, KillCall(token));
    assert [] + EncodeCommand(Kill(token)) == EncodeCommand(Kill(token)) && [] + [Kill(token)] == [Kill(token)];
    assert t.prototype.value.control == EncodeCommand(Kill(token)) && [Kill(token)][1..] == [];
  }

  /** A worker forked, its prototype dead and replaced by the next spawn, and a kill of the worker handled. */
  function Outlived(pid: nat, other: nat): seq<Action> {
    [] + [SpawnCall(Answers, Answers)] + [Handle(pid, true)] + [Die] + [SpawnCall(Answers, Answers)] + [Handle(other, true)]
    + [KillCall(1)] + [Handle(other, false)]
  }

  lemma {:induction false} FirstForks(pid: nat)
    ensures Run([] + [SpawnCall(Answers, Answers)] + [Handle(pid, true)]) == Forked(1, 0, 1, pid, [])
  {
    assert [] + EncodeCommand(Spawn(1)) == EncodeCommand(Spawn(1)) && [] + [Spawn(1)] == [Spawn(1)];
    OneMoreStep([], Init(), SpawnCall(Answers, Answers), Waiting(1, 0, Spawn(1), []));
    ForkIsHandled(1, 0, 1, pid, []);
    OneMoreStep([] + [SpawnCall(Answers, Answers)], Waiting(1, 0, Spawn(1), []), Handle(pid, true), Forked(1, 0, 1, pid, []));
  }

  lemma {:induction false} SecondForks(actions: seq<Action>, s: State, pid: nat, other: nat)
    requires Run(actions) == s && s == Forked(1, 0, 1, pid, []) && pid != other
    ensures Run(actions + [Die] + [SpawnCall(Answers, Answers)] + [Handle(other, true)])
         == Forked(2, 1, 2, other, [Process(pid, 1, 0, Running)])
  {
    var ps := [Process(pid, 1, 0, Running)];
    var dead := Next(s, Die);
    OneMoreStep(actions, s, Die, dead);
    assert [] + EncodeCommand(Spawn(2)) == EncodeCommand(Spawn(2)) && [] + [Spawn(2)] == [Spawn(2)];
    OneMoreStep(actions + [Die], dead, SpawnCall(Answers, Answers), Waiting(2, 1, Spawn(2), ps));
    ForkIsHandled(2, 1, 2, other, ps);
    OneMoreStep(actions + [Die] + [SpawnCall(Answers, Answers)], Waiting(2, 1, Spawn(2), ps), Handle(other, true),
                Forked(2, 1, 2, other, ps));
  }

  lemma {:induction false} KillIsLost(actions: seq<Action>, s: State, pid: nat, other: nat)
    requires Run(actions) == s && s == Forked(2, 1, 2, other, [Process(pid, 1, 0, Running)])
    ensures Run(actions + [KillCall(1)] + [Handle(other, false)]) == s
  {
    StaleKillIsHandled(s, 1, other, false);
    OneMoreStep(actions, s, KillCall(1), Next(s, KillCall(1)));
    OneMoreStep(actions + [KillCall(1)], Next(s, KillCall(1)), Handle(other, false), s);
  }

  /** The worker is still running, and nobody has been signalled. */
  lemma {:induction false} SurvivorIsOutOfReach(pid: nat, other: nat)
    requires pid != other
    ensures var s := Run(Outlived(pid, other));
      |s.processes| == 2 && s.processes[0] == Process(pid, 1, 0, Running) && s.hits == [] && LiveQueue(s) == []
  {
    var first := [] + [SpawnCall(Answers, Answers)] + [Handle(pid, true)];
    FirstForks(pid);
    SecondForks(first, Forked(1, 0, 1, pid, []), pid, other);
    KillIsLost(first + [Die] + [SpawnCall(Answers, Answers)] + [Handle(other, true)],
               Forked(2, 1, 2, other, [Process(pid, 1, 0, Running)]), pid, other);
  }

  // --- the objects ---

  /** The processes, and the signals sent so far. */
  class Kernel {
    var processes: seq<Process>
    ghost var hits: seq<Hit>

    constructor ()
      ensures processes == [] && hits == []
    {
      processes, hits := [], [];
    }

    /** `fork`, where `pid` is what the kernel would give out. */
    method Fork(pid: nat, ok: bool, token: u64, epoch: nat) returns (child: Option<nat>)
      modifies this`processes
      ensures child == if ok && PidFree(old(processes), pid) then Some(pid) else None
      ensures processes == old(processes) + if child.Some? then [Process(pid, token, epoch, Running)] else []
    {
      if ok && PidFree(processes, pid) {
        processes := processes + [Process(pid, token, epoch, Running)];
        return Some(pid);
      }
      return None;
    }

    /** `kill`: the token is what the signal is meant for, the pid is where it goes. */
    method Signal(pid: nat, ghost token: u64)
      modifies this`hits
      ensures hits == old(hits) + [Hit(token, Holder(processes, pid))]
    {
      hits := hits + [Hit(token, Holder(processes, pid))];
    }

    /** `waitpid` for any child, without waiting. */
    method WaitAny(epoch: nat) returns (i: Option<nat>)
      modifies this`processes
      ensures i.Some? ==> i.value < |processes| && i.value in Exited(old(processes), epoch)
      ensures i.Some? ==> processes == WithStatus(old(processes), i.value, Reaped)
      ensures i.None? ==> processes == old(processes) && Exited(processes, epoch) == {}
    {
      var left := Exited(processes, epoch);
      if left == {} {
        return None;
      }
      var k: nat :| k in left;
      processes := WithStatus(processes, k, Reaped);
      return Some(k);
    }
  }

  /** The children of a prototype that have exited and wait to be reaped. */
  function Exited(ps: seq<Process>, epoch: nat): set<nat> {
    set i: nat | i < |ps| && ps[i].epoch == epoch && ps[i].status.Zombie?
  }

  /** One child after another. */
  function ReapEach(s: State, order: seq<nat>): State
    decreases |order|
  {
    if |order| == 0 then s else Next(ReapEach(s, order[..|order| - 1]), Reap(order[|order| - 1]))
  }

  lemma {:induction false} ReapOneMore(s: State, order: seq<nat>, i: nat)
    ensures ReapEach(s, order + [i]) == Next(ReapEach(s, order), Reap(i))
  {
    assert (order + [i])[..|order|] == order;
  }

  /** The prototype's side: the control channel as far as it has not read it, and its map of children. */
  class PrototypeLoop {
    const epoch: nat
    var alive: bool
    var control: seq<byte>
    ghost var queue: seq<Command>
    var workers: map<u64, nat>

    ghost function Value(): Prototype
      reads this
    {
      Prototype(epoch, alive, control, queue, workers)
    }

    /** The prototype and the kernel, as the state shows them. */
    ghost predicate Shown(s: State, k: Kernel)
      reads this, k
    {
      s.prototype == Some(Value()) && s.processes == k.processes && s.hits == k.hits
    }

    constructor (epoch: nat, alive: bool)
      ensures Value() == Prototype(epoch, alive, [], [], map[])
    {
      this.epoch, this.alive, control, queue, workers := epoch, alive, [], [], map[];
    }

    /** The kernel's end of the channel takes the bytes whole. */
    method Send(c: Command)
      modifies this`control, this`queue
      ensures Value() == Enqueue(old(Value()), c)
    {
      var bytes := [if c.Spawn? then CMD_SPAWN else CMD_KILL] + Le(c.token, 8);
      control, queue := control + bytes, queue + [c];
    }

    /** `recv_command`: the command byte, then the token. */
    method RecvCommand() returns (c: Option<Command>)
      modifies this`control
      ensures c == FirstCommand(old(control))
      ensures control == if c.Some? then old(control)[9..] else old(control)
    {
      if |control| == 0 || (control[0] != CMD_SPAWN && control[0] != CMD_KILL) || |control| < 9 {
        return None;
      }
      var code, token := control[0], ReadLe64(control, 1);
      control := control[9..];
      return Some(if code == CMD_SPAWN then Spawn(token) else Kill(token));
    }

    /** One turn of the command loop: whatever is on the channel, it is the step of the run theorem. */
    method HandleCommand(k: Kernel, ghost s: State, pid: nat, forkOk: bool)
      requires Shown(s, k) && alive && |control| > 0
      modifies this, k
      ensures Shown(HandleStep(s, old(Value()), pid, forkOk), k)
    {
      var c := RecvCommand();
      if c.None? {
        alive := false;
        return;
      }
      queue := if |queue| > 0 then queue[1..] else [];
      match c.value
      case Kill(token) =>
        if token in workers {
          k.Signal(workers[token], token);
        }
      case Spawn(token) =>
        var child := k.Fork(pid, forkOk, token, epoch);
        if child.Some? {
          workers := workers[token := child.value];
        }
    }

    /** `reap_children`: every exited child is reaped, in whatever order `waitpid` reports them, and loses its
        mapping. */
    method ReapChildren(k: Kernel, ghost s: State) returns (ghost order: seq<nat>)
      requires Shown(s, k) && alive
      modifies this`workers, k`processes
      ensures Shown(ReapEach(s, order), k) && Exited(k.processes, epoch) == {}
    {
      order := [];
      while true
        invariant Shown(ReapEach(s, order), k) && alive
        decreases |Exited(k.processes, epoch)|
      {
        ghost var before := k.processes;
        var i := k.WaitAny(epoch);
        if i.None? {
          return;
        }
        FewerExited(before, epoch, i.value);
        ReapOneMore(s, order, i.value);
        workers := Retained(workers, k.processes[i.value].pid);
        order := order + [i.value];
      }
    }
  }

  lemma {:induction false} FewerExited(ps: seq<Process>, epoch: nat, i: nat)
    requires i in Exited(ps, epoch)
    ensures |Exited(WithStatus(ps, i, Reaped), epoch)| < |Exited(ps, epoch)|
  {
    assert Exited(WithStatus(ps, i, Reaped), epoch) == Exited(ps, epoch) - {i};
  }

  /** The supervisor's side. */
  class PrototypeSpawner {
    var nextToken: u64
    var prototype: PrototypeLoop?
    ghost var issued: nat
    var epochs: nat
    const kernel: Kernel

    ghost predicate Valid()
      reads this
    {
      nextToken == Token(issued)
    }

    ghost function Snapshot(): State
      reads this, prototype, kernel
    {
      State(issued, if prototype == null then None else Some(prototype.Value()), epochs, kernel.processes, kernel.hits)
    }

    constructor ()
      ensures Valid() && Snapshot() == Init()
    {
      nextToken, prototype, issued, epochs := 1, null, 0, 0;
      kernel := new Kernel();
    }

    /** `start_prototype`. */
    method StartPrototype(how: Start) returns (ok: bool)
      requires prototype == null
      modifies this`prototype, this`epochs
      ensures ok <==> !how.Fails?
      ensures how.Fails? ==> prototype == null && epochs == old(epochs)
      ensures ok ==> prototype != null && fresh(prototype) && epochs == old(epochs) + 1
      ensures ok ==> prototype.Value() == Prototype(old(epochs), how.Answers?, [], [], map[])
    {
      if how.Fails? {
        return false;
      }
      prototype := new PrototypeLoop(epochs, how.Answers?);
      epochs := epochs + 1;
      return true;
    }

    /** One attempt: the command to the prototype there is, or to a fresh one. */
    method Attempt(t: u64, how: Start) returns (sent: bool)
      modifies this`prototype, this`epochs, prototype
      ensures sent <==> prototype != null && prototype.alive
      ensures old(prototype) == null ==> Snapshot() == Launch(old(Snapshot()), Spawn(t), how)
      ensures old(prototype) == null && prototype != null ==> fresh(prototype)
      ensures old(prototype) != null ==> prototype == old(prototype) && epochs == old(epochs)
      ensures old(prototype) != null && !sent ==> Snapshot() == old(Snapshot())
      ensures old(prototype) != null && sent ==>
        old(prototype.alive) && prototype.Value() == Enqueue(old(prototype.Value()), Spawn(t))
    {
      if prototype == null {
        var ok := StartPrototype(how);
        if !ok {
          return false;
        }
      }
      if !prototype.alive {
        return false;
      }
      prototype.Send(Spawn(t));
      return true;
    }

    /** `spawn_worker`: the token is drawn once; the command is tried on the prototype there is and, if that one is
        dead, on a fresh one. `first` and `second` are how the starts go, if there are any. The token comes back exactly
        if there is a live prototype to hear of it. */
    method SpawnWorker(first: Start, second: Start) returns (token: Option<u64>)
      requires Valid()
      modifies this, prototype
      ensures Valid() && Snapshot() == SpawnStep(old(Snapshot()), first, second)
      ensures token == if prototype != null && prototype.alive then Some(old(nextToken)) else None
    {
      ghost var s := Snapshot();
      var t := nextToken;
      nextToken, issued := (nextToken + 1) % U64_LIMIT, issued + 1;
      token := None;
      var attempt, how := 0, first;
      while attempt < 2
        invariant attempt <= 1 && Valid() && issued == s.issued + 1 && token == None && unchanged(kernel)
        invariant attempt == 0 ==> prototype == old(prototype) && how == first && Snapshot() == s.(issued := s.issued + 1)
        invariant attempt == 1 ==> prototype == null && Second(s, first)
        invariant attempt == 1 ==> how == if s.prototype.Some? then first else second
        invariant attempt == 1 ==> epochs == if s.prototype.Some? then s.epochs else s.epochs + 1
        decreases 2 - attempt
      {
        var starts := prototype == null;
        var sent := Attempt(t, how);
        if sent {
          return Some(t);
        }
        if prototype == null || attempt == 1 {
          return;
        }
        prototype, how := null, if starts then second else how;
        attempt := attempt + 1;
      }
    }

    /** `kill`: nothing to do without a prototype, and a dead one does not take the command. */
    method KillWorker(token: u64)
      modifies prototype
      ensures Snapshot() == KillStep(old(Snapshot()), token)
    {
      if prototype != null && prototype.alive {
        prototype.Send(Kill(token));
      }
    }
  }

  /** A spawn comes to its second attempt. */
  ghost predicate Second(s: State, first: Start) {
    if s.prototype.Some? then !s.prototype.value.alive else first.Dies?
  }
}
