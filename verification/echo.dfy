/** The concurrent reference worker: permits, tasks, cancellation and the drain. */
module Echo {
  import opened Bytes
  import opened Frame
  import opened PoolState
  import opened PoolPermits
  import opened PoolSweep
  import W = BlockingWorker

  /** The worker's own cap on what the router grants. */
  const MAX_CONCURRENCY := 1024

  function GrantTaken(ack: u32): nat {
    if ack < MAX_CONCURRENCY then ack else MAX_CONCURRENCY
  }

  /** A spawned handler: its join handle and the request it serves. It owns one permit. */
  datatype Task = Task(handle: nat, id: u32)

  /** `holding`: the accept loop has a permit and waits for a datagram. `inflight` maps a request to the handle
      of its task; `wire` is what has been queued to the single writer. */
  datatype Side = Side(available: nat, holding: bool, tasks: seq<Task>, inflight: map<u32, nat>, spawned: nat,
                       served: nat, draining: bool, wire: seq<Frame>)

  function Start(granted: nat): Side { Side(granted, false, [], map[], 0, 0, false, []) }

  /** How a handler ends: an answer, an error, or the close of a WebSocket session. */
  datatype Outcome = Answered(body: seq<byte>) | Failed(message: seq<byte>) | SessionOver

  /** `content-type: text/plain` and a line end. */
  const ECHO_HEADERS: seq<byte> :=
    [99, 111, 110, 116, 101, 110, 116, 45, 116, 121, 112, 101, 58, 32,
     116, 101, 120, 116, 47, 112, 108, 97, 105, 110, 13, 10]

  /** The one batch a handler ends with. */
  function Batch(id: u32, o: Outcome): seq<Frame> {
    match o
    case Answered(body) =>
      [Frame(ResponseHeaders, 0, id, 200, ECHO_HEADERS), Frame(ResponseBody, 0, id, 0, body), Bare(End, id), Bare(Done, id)]
    case Failed(message) => [Frame(FrameKind.Error, 0, id, 0, message)]
    case SessionOver => [Bare(End, id), Bare(Done, id)]
  }

  /** What a WebSocket session says before its end. */
  datatype Remark = Accept | Mirror(op: u32, message: seq<byte>)

  function RemarkFrame(id: u32, r: Remark): Frame {
    match r
    case Accept => Frame(ResponseHeaders, 0, id, 101, [])
    case Mirror(op, message) => Frame(WsMessage, 0, id, op, message)
  }

  datatype Action =
    | Acquire | Receive(data: seq<byte>) | Remarks(task: nat, remark: Remark) | Finish(task: nat, outcome: Outcome)
    | Cancel(id: u32) | Probe(id: u32)

  // --- the steps ---

  function Say(s: Side, fs: seq<Frame>): Side { s.(wire := s.wire + fs) }

  function Without(tasks: seq<Task>, i: nat): seq<Task>
    requires i < |tasks|
  {
    tasks[..i] + tasks[i + 1..]
  }

  datatype Verdict = Ignore | Retired | Take(id: u32)

  /** Unlike the blocking worker, this one ignores a head that does not decode. */
  function Judge(data: seq<byte>): Verdict {
    if |data| < FRAME_HEADER_LEN then Ignore
    else
      match DecodeHeader(data[..FRAME_HEADER_LEN])
      case None => Ignore
      case Some(h) =>
        if h.kind.Retire? then Retired
        else if !h.kind.Request? || FRAME_HEADER_LEN + h.payloadLen > |data| then Ignore
        else Take(h.requestId)
  }

  /** A claimed request takes the loop's permit with it into its task. */
  function Spawn(s: Side, id: u32, maxRequests: nat): Side {
    Say(s, [Bare(Claim, id)]).(
      holding := false, tasks := s.tasks + [Task(s.spawned, id)], inflight := s.inflight[id := s.spawned],
      spawned := s.spawned + 1, served := s.served + 1, draining := maxRequests > 0 && s.served + 1 >= maxRequests)
  }

  function ReceiveStep(s: Side, data: seq<byte>, maxRequests: nat): Side {
    match Judge(W.Received(data))
    case Ignore => s.(holding := false, available := s.available + 1)
    case Retired => s.(holding := false, available := s.available + 1, draining := true)
    case Take(id) => Spawn(s, id, maxRequests)
  }

  /** The batch goes out and the permit comes back. */
  function FinishStep(s: Side, i: nat, o: Outcome): Side
    requires i < |s.tasks|
  {
    Say(s, Batch(s.tasks[i].id, o)).(
      tasks := Without(s.tasks, i), inflight := s.inflight - {s.tasks[i].id}, available := s.available + 1)
  }

  /** Where this handle stands among the tasks; |tasks| if it is gone. */
  function Find(tasks: seq<Task>, handle: nat): (i: nat)
    ensures i <= |tasks| && (i < |tasks| ==> tasks[i].handle == handle)
    ensures forall j | 0 <= j < i :: tasks[j].handle != handle
    decreases |tasks|
  {
    if |tasks| == 0 then 0
    else
      var i := Find(tasks[..|tasks| - 1], handle);
      if i < |tasks| - 1 then i else if tasks[|tasks| - 1].handle == handle then |tasks| - 1 else |tasks|
  }

  /** Cancel, Done and the permit's return, taken together. */
  function CancelStep(s: Side, id: u32): Side {
    if id !in s.inflight then s
    else
      var t := Say(s, [Bare(Done, id)]).(inflight := s.inflight - {id});
      var i := Find(s.tasks, s.inflight[id]);
      if i < |s.tasks| then t.(tasks := Without(s.tasks, i), available := s.available + 1) else t
  }

  function ProbeStep(s: Side, id: u32): Side {
    Say(s, [W.PongFrame(id, if id in s.inflight then W.PONG_BUSY else W.PONG_IDLE)])
  }

  /** An action that is not enabled changes nothing. */
  function Next(s: Side, a: Action, maxRequests: nat): Side {
    match a
    case Acquire =>
      if s.available > 0 && !s.holding && !s.draining then s.(available := s.available - 1, holding := true) else s
    case Receive(data) => if s.holding then ReceiveStep(s, data, maxRequests) else s
    case Remarks(i, remark) => if i < |s.tasks| then Say(s, [RemarkFrame(s.tasks[i].id, remark)]) else s
    case Finish(i, outcome) => if i < |s.tasks| then FinishStep(s, i, outcome) else s
    case Cancel(id) => CancelStep(s, id)
    case Probe(id) => ProbeStep(s, id)
  }

  function Run(granted: nat, maxRequests: nat, actions: seq<Action>): Side {
    if actions == [] then Start(granted)
    else
      var n := |actions| - 1;
      Next(Run(granted, maxRequests, actions[..n]), actions[n], maxRequests)
  }

  // --- permits are conserved, and the open claims are the running tasks ---

  function Ids(tasks: seq<Task>): seq<u32> {
    seq(|tasks|, i requires 0 <= i < |tasks| => tasks[i].id)
  }

  predicate Conserved(granted: nat, s: Side) {
    s.available + (if s.holding then 1 else 0) + |s.tasks| == granted
  }

  ghost predicate OpenAreTasks(s: Side) {
    OpenClaims(s.wire) == multiset(Ids(s.tasks))
  }

  /** Every registered handle is that of a running task for the same request, and handles are unique. */
  ghost predicate Registered(s: Side) {
    && (forall i | 0 <= i < |s.tasks| :: s.tasks[i].handle < s.spawned)
    && (forall i, j | 0 <= i < j < |s.tasks| :: s.tasks[i].handle != s.tasks[j].handle)
    && (forall id | id in s.inflight :: Task(s.inflight[id], id) in s.tasks)
  }

  ghost predicate Inv(granted: nat, s: Side) {
    Conserved(granted, s) && OpenAreTasks(s) && Registered(s) && HonoursGrant(s.wire, granted)
  }

  lemma {:induction false} IdsMore(tasks: seq<Task>, t: Task)
    ensures multiset(Ids(tasks + [t])) == multiset(Ids(tasks)) + multiset{t.id}
  {
    assert Ids(tasks + [t]) == Ids(tasks) + [t.id];
  }

  lemma {:induction false} IdsWithout(tasks: seq<Task>, i: nat)
    requires i < |tasks|
    ensures multiset(Ids(Without(tasks, i))) == multiset(Ids(tasks)) - multiset{tasks[i].id}
  {
    var before, after := Ids(tasks[..i]), Ids(tasks[i + 1..]);
    assert Ids(Without(tasks, i)) == before + after;
    assert Ids(tasks) == before + [tasks[i].id] + after;
  }

  /** Frames that open nothing. */
  ghost predicate OpensNothing(fs: seq<Frame>) {
    forall i | 0 <= i < |fs| :: !fs[i].kind.Claim?
  }

  lemma {:induction false} OpenShrinks(wire: seq<Frame>, fs: seq<Frame>)
    requires OpensNothing(fs)
    ensures OpenClaims(wire + fs) <= OpenClaims(wire)
    decreases |fs|
  {
    if |fs| == 0 {
      assert wire + fs == wire;
    } else {
      var before, f := fs[..|fs| - 1], fs[|fs| - 1];
      OpenShrinks(wire, before);
      OneFrameBehind(wire, fs, before, f);
      OpenAfter(wire + before, f);
    }
  }

  lemma {:induction false} OneFrameBehind(wire: seq<Frame>, fs: seq<Frame>, before: seq<Frame>, f: Frame)
    requires |fs| > 0 && before == fs[..|fs| - 1] && f == fs[|fs| - 1]
    ensures wire + fs == wire + before + [f]
  {
  }

  lemma {:induction false} SmallerMultiset(a: multiset<u32>, b: multiset<u32>)
    requires a <= b
    ensures |a| <= |b|
  {
    assert b == a + (b - a);
  }

  lemma {:induction false} GrantKept(wire: seq<Frame>, fs: seq<Frame>, granted: nat)
    requires HonoursGrant(wire, granted) && OpensNothing(fs)
    ensures HonoursGrant(wire + fs, granted)
  {
    forall n | 0 <= n <= |wire + fs|
      ensures |OpenClaims((wire + fs)[..n])| <= granted
    {
      if n <= |wire| {
        assert (wire + fs)[..n] == wire[..n];
      } else {
        var k := n - |wire|;
        assert (wire + fs)[..n] == wire + fs[..k];
        OpenShrinks(wire, fs[..k]);
        SmallerMultiset(OpenClaims(wire + fs[..k]), OpenClaims(wire));
        assert wire[..|wire|] == wire;
      }
    }
  }

  lemma {:induction false} GrantKeptByClaim(wire: seq<Frame>, id: u32, granted: nat)
    requires HonoursGrant(wire, granted) && |OpenClaims(wire)| < granted
    ensures HonoursGrant(wire + [Bare(Claim, id)], granted)
  {
    OpenAfter(wire, Bare(Claim, id));
    forall n | 0 <= n <= |wire| + 1
      ensures |OpenClaims((wire + [Bare(Claim, id)])[..n])| <= granted
    {
      if n <= |wire| {
        assert (wire + [Bare(Claim, id)])[..n] == wire[..n];
      } else {
        assert (wire + [Bare(Claim, id)])[..n] == wire + [Bare(Claim, id)];
      }
    }
  }

  /** Frames that neither open nor close a request. */
  lemma {:induction false} OpenSame(wire: seq<Frame>, f: Frame)
    requires !f.kind.Claim? && !W.Ends(f)
    ensures OpenClaims(wire + [f]) == OpenClaims(wire)
  {
    OpenAfter(wire, f);
  }

  /** A batch closes exactly the one request. */
  lemma {:induction false} OpenAfterBatch(wire: seq<Frame>, id: u32, o: Outcome)
    ensures OpenClaims(wire + Batch(id, o)) == OpenClaims(wire) - multiset{id}
  {
    match o
    case Answered(body) =>
      var b := Batch(id, o);
      OpenSame(wire, b[0]);
      OpenSame(wire + [b[0]], b[1]);
      OpenSame(wire + [b[0]] + [b[1]], b[2]);
      OpenAfter(wire + [b[0]] + [b[1]] + [b[2]], b[3]);
      assert wire + b == wire + [b[0]] + [b[1]] + [b[2]] + [b[3]];
    case Failed(message) => OpenAfter(wire, Batch(id, o)[0]);
    case SessionOver =>
      OpenSame(wire, Bare(End, id));
      OpenAfter(wire + [Bare(End, id)], Bare(Done, id));
      assert wire + Batch(id, o) == wire + [Bare(End, id)] + [Bare(Done, id)];
  }

  lemma {:induction false} OthersStay(tasks: seq<Task>, i: nat, j: nat)
    requires i < |tasks| && j < |tasks| && j != i
    ensures tasks[j] in Without(tasks, i)
  {
    assert Without(tasks, i)[if j < i then j else j - 1] == tasks[j];
  }

  lemma {:induction false} RegisteredWithout(s: Side, t: Side, i: nat)
    requires Registered(s) && i < |s.tasks| && t.tasks == Without(s.tasks, i) && t.spawned == s.spawned
    requires t.inflight == s.inflight - {s.tasks[i].id}
    ensures Registered(t)
  {
    forall id | id in t.inflight
      ensures Task(t.inflight[id], id) in t.tasks
    {
      var j :| 0 <= j < |s.tasks| && s.tasks[j] == Task(s.inflight[id], id);
      assert id != s.tasks[i].id;
      OthersStay(s.tasks, i, j);
    }
  }

  lemma {:induction false} SpawnKeeps(granted: nat, s: Side, id: u32, maxRequests: nat)
    requires Inv(granted, s) && s.holding
    ensures Inv(granted, Spawn(s, id, maxRequests))
  {
    GrantKeptByClaim(s.wire, id, granted);
    OpenAfter(s.wire, Bare(Claim, id));
    IdsMore(s.tasks, Task(s.spawned, id));
    var t := Spawn(s, id, maxRequests);
    forall j | j in t.inflight
      ensures Task(t.inflight[j], j) in t.tasks
    {
      if j == id {
        assert t.tasks[|s.tasks|] == Task(s.spawned, id);
      } else {
        var i :| 0 <= i < |s.tasks| && s.tasks[i] == Task(s.inflight[j], j);
        assert t.tasks[i] == s.tasks[i];
      }
    }
  }

  lemma {:induction false} FinishKeeps(granted: nat, s: Side, i: nat, o: Outcome)
    requires Inv(granted, s) && i < |s.tasks|
    ensures Inv(granted, FinishStep(s, i, o))
  {
    GrantKept(s.wire, Batch(s.tasks[i].id, o), granted);
    OpenAfterBatch(s.wire, s.tasks[i].id, o);
    IdsWithout(s.tasks, i);
    RegisteredWithout(s, FinishStep(s, i, o), i);
  }

  lemma {:induction false} FindsItsTask(s: Side, id: u32)
    requires Registered(s) && id in s.inflight
    ensures var i := Find(s.tasks, s.inflight[id]); i < |s.tasks| && s.tasks[i].id == id
  {
    var j :| 0 <= j < |s.tasks| && s.tasks[j] == Task(s.inflight[id], id);
  }

  lemma {:induction false} CancelKeeps(granted: nat, s: Side, id: u32)
    requires Inv(granted, s)
    ensures Inv(granted, CancelStep(s, id))
  {
    if id in s.inflight {
      FindsItsTask(s, id);
      var i := Find(s.tasks, s.inflight[id]);
      GrantKept(s.wire, [Bare(Done, id)], granted);
      OpenAfter(s.wire, Bare(Done, id));
      IdsWithout(s.tasks, i);
      RegisteredWithout(s, CancelStep(s, id), i);
    }
  }

  lemma {:induction false} RemarkKeeps(granted: nat, s: Side, f: Frame)
    requires Inv(granted, s) && !f.kind.Claim? && !W.Ends(f)
    ensures Inv(granted, Say(s, [f]))
  {
    GrantKept(s.wire, [f], granted);
    OpenSame(s.wire, f);
  }

  lemma {:induction false} AcquireKeeps(granted: nat, s: Side, maxRequests: nat)
    requires Inv(granted, s)
    ensures Inv(granted, Next(s, Acquire, maxRequests))
  {
  }

  lemma {:induction false} ReceiveKeeps(granted: nat, s: Side, data: seq<byte>, maxRequests: nat)
    requires Inv(granted, s)
    ensures Inv(granted, Next(s, Receive(data), maxRequests))
  {
    if s.holding && Judge(W.Received(data)).Take? {
      SpawnKeeps(granted, s, Judge(W.Received(data)).id, maxRequests);
    }
  }

  lemma {:induction false} StepKeepsInv(granted: nat, s: Side, a: Action, maxRequests: nat)
    requires Inv(granted, s)
    ensures Inv(granted, Next(s, a, maxRequests))
  {
    match a
    case Acquire => AcquireKeeps(granted, s, maxRequests);
    case Receive(data) => ReceiveKeeps(granted, s, data, maxRequests);
    case Remarks(i, remark) => if i < |s.tasks| { RemarkKeeps(granted, s, RemarkFrame(s.tasks[i].id, remark)); }
    case Finish(i, outcome) => if i < |s.tasks| { FinishKeeps(granted, s, i, outcome); }
    case Cancel(id) => CancelKeeps(granted, s, id);
    case Probe(id) =>
      RemarkKeeps(granted, s, W.PongFrame(id, if id in s.inflight then W.PONG_BUSY else W.PONG_IDLE));
  }

  /** In every run, whatever is cancelled or probed when: claims never exceed the grant, on any prefix of the wire,
      and the open claims are exactly the running tasks. */
  lemma {:induction false} RunHonoursGrant(granted: nat, maxRequests: nat, actions: seq<Action>)
    ensures Inv(granted, Run(granted, maxRequests, actions))
    decreases |actions|
  {
    if |actions| > 0 {
      var n := |actions| - 1;
      RunHonoursGrant(granted, maxRequests, actions[..n]);
      StepKeepsInv(granted, Run(granted, maxRequests, actions[..n]), actions[n], maxRequests);
    } else {
      assert Start(granted).wire[..0] == [];
    }
  }

  /** Up to as many tasks as the router granted, but 1024 at most, the worker takes another request: with nothing in its
      hands it can get a permit exactly below that number, and then a datagram that fits is claimed under its id and has
      a task of its own. */
  lemma {:induction false} TakesUpToItsGrant(ack: u32, maxRequests: nat, actions: seq<Action>, f: Frame)
    requires var s := Run(GrantTaken(ack), maxRequests, actions); !s.holding && !s.draining
    requires f.kind.Request? && |f.payload| + 16 <= 256 * 1024
    ensures var s := Run(GrantTaken(ack), maxRequests, actions);
      Next(s, Acquire, maxRequests).holding <==> |s.tasks| < ack && |s.tasks| < 1024
    ensures var s := Run(GrantTaken(ack), maxRequests, actions);
      var t := Next(Next(s, Acquire, maxRequests), Receive(EncodeFrame(f)), maxRequests);
      |s.tasks| < ack && |s.tasks| < 1024 ==>
        t.wire == s.wire + [Bare(Claim, f.id)] && t.tasks == s.tasks + [Task(s.spawned, f.id)] && !t.holding
  {
    RunHonoursGrant(GrantTaken(ack), maxRequests, actions);
    DatagramIsJudged(f);
  }

  lemma {:induction false} DatagramIsJudged(f: Frame)
    requires f.kind.Request? && |f.payload| + 16 <= 256 * 1024
    ensures Judge(W.Received(EncodeFrame(f))) == Take(f.id)
  {
    W.HeaderIsRead(f);
    W.ReceivedParts(EncodeHeader(HeaderOf(f)), f.payload);
    JudgedByHeader(W.Received(EncodeFrame(f)), HeaderOf(f));
  }

  lemma {:induction false} JudgedByHeader(data: seq<byte>, h: Header)
    requires |data| >= FRAME_HEADER_LEN && DecodeHeader(data[..FRAME_HEADER_LEN]) == Some(h)
    requires h.kind.Request? && 16 + h.payloadLen <= |data|
    ensures Judge(data) == Take(h.requestId)
  {
  }

  /** A probe is answered once, with its own id: busy only while a task for that request runs, and idle after it. */
  lemma {:induction false} ProbeIsTrue(granted: nat, maxRequests: nat, actions: seq<Action>, id: u32)
    ensures var s := Run(granted, maxRequests, actions);
      exists status: u32 :: Next(s, Probe(id), maxRequests) == s.(wire := s.wire + [Frame(FrameKind.Pong, 0, id, status, [])])
        && (status == 1 || status == 0) && (status == 1 ==> id in Ids(s.tasks)) && (status == 0 ==> id !in s.inflight)
  {
    RunHonoursGrant(granted, maxRequests, actions);
    var s := Run(granted, maxRequests, actions);
    if id in s.inflight {
      var j :| 0 <= j < |s.tasks| && s.tasks[j] == Task(s.inflight[id], id);
      assert Ids(s.tasks)[j] == id;
      assert Next(s, Probe(id), maxRequests) == s.(wire := s.wire + [Frame(FrameKind.Pong, 0, id, 1, [])]);
    } else {
      assert Next(s, Probe(id), maxRequests) == s.(wire := s.wire + [Frame(FrameKind.Pong, 0, id, 0, [])]);
    }
  }

  /** The drain waits for all permits: it can end exactly when every claimed request has its terminal frame. */
  lemma {:induction false} DrainEndsWithNothingOpen(granted: nat, maxRequests: nat, actions: seq<Action>)
    requires Run(granted, maxRequests, actions).draining
    ensures var s := Run(granted, maxRequests, actions);
      s.available >= granted <==> OpenClaims(s.wire) == multiset{}
  {
    RunHonoursGrant(granted, maxRequests, actions);
    DrainTakesNothing(granted, maxRequests, actions);
    var s := Run(granted, maxRequests, actions);
    assert |multiset(Ids(s.tasks))| == |s.tasks|;
  }

  /** A draining worker takes no more requests. */
  lemma {:induction false} DrainTakesNothing(granted: nat, maxRequests: nat, actions: seq<Action>)
    requires Run(granted, maxRequests, actions).draining
    ensures !Run(granted, maxRequests, actions).holding
    decreases |actions|
  {
    if |actions| > 0 {
      var n := |actions| - 1;
      if Run(granted, maxRequests, actions[..n]).draining {
        DrainTakesNothing(granted, maxRequests, actions[..n]);
      }
    }
  }

  /** Action i is a Retire that the worker receives. */
  ghost predicate RetiredAt(granted: nat, maxRequests: nat, actions: seq<Action>, i: nat) {
    i < |actions| && actions[i].Receive? && Run(granted, maxRequests, actions[..i]).holding
    && Judge(W.Received(actions[i].data)).Retired?
  }

  ghost predicate WasRetired(granted: nat, maxRequests: nat, actions: seq<Action>) {
    exists i: nat :: RetiredAt(granted, maxRequests, actions, i)
  }

  lemma {:induction false} RetiredMore(granted: nat, maxRequests: nat, actions: seq<Action>, a: Action)
    ensures WasRetired(granted, maxRequests, actions + [a]) <==>
      WasRetired(granted, maxRequests, actions)
      || (a.Receive? && Run(granted, maxRequests, actions).holding && Judge(W.Received(a.data)).Retired?)
  {
    var more := actions + [a];
    assert more[..|actions|] == actions && more[|actions|] == a;
    forall i: nat | i < |actions|
      ensures RetiredAt(granted, maxRequests, more, i) <==> RetiredAt(granted, maxRequests, actions, i)
    {
      assert more[..i] == actions[..i];
    }
    if a.Receive? && Run(granted, maxRequests, actions).holding && Judge(W.Received(a.data)).Retired? {
      assert RetiredAt(granted, maxRequests, more, |actions|);
    }
    if i: nat :| RetiredAt(granted, maxRequests, actions, i) {
      assert RetiredAt(granted, maxRequests, more, i);
    }
  }

  lemma {:induction false} StepDrains(s: Side, a: Action, maxRequests: nat)
    requires s.served == s.spawned && (maxRequests > 0 ==> s.served <= maxRequests) && (s.draining ==> !s.holding)
    requires maxRequests > 0 && s.served == maxRequests ==> s.draining
    ensures var t := Next(s, a, maxRequests);
      && t.served == t.spawned && (maxRequests > 0 ==> t.served <= maxRequests) && s.served <= t.served
      && (t.draining <==> s.draining || (a.Receive? && s.holding && Judge(W.Received(a.data)).Retired?)
                          || (maxRequests > 0 && t.served == maxRequests))
  {
  }

  /** The worker drains exactly once it has been told to retire or has taken its last request, and it takes no more than
      `max_requests` of them if there is such a limit. */
  lemma {:induction false} DrainsExactly(granted: nat, maxRequests: nat, actions: seq<Action>)
    ensures var s := Run(granted, maxRequests, actions);
      && s.served == s.spawned && (maxRequests > 0 ==> s.served <= maxRequests)
      && (s.draining <==> (maxRequests > 0 && s.served == maxRequests) || WasRetired(granted, maxRequests, actions))
    decreases |actions|
  {
    if |actions| > 0 {
      var n := |actions| - 1;
      var before, a := actions[..n], actions[n];
      DrainsExactly(granted, maxRequests, before);
      assert actions == before + [a];
      RetiredMore(granted, maxRequests, before, a);
      if Run(granted, maxRequests, before).draining {
        DrainTakesNothing(granted, maxRequests, before);
      }
      StepDrains(Run(granted, maxRequests, before), a, maxRequests);
    }
  }

  /** The router never takes this worker for one that claims beyond its grant. */
  lemma {:induction false} EchoIsNeverKilledForClaiming(cfg: Config, steps: seq<PoolState.Action>, w: nat, f: Frame,
                                                        ack: u32, maxRequests: nat, actions: seq<Action>)
    requires FairRun(cfg, steps) && SmallRun(cfg, steps)
    requires var s := PoolState.Run(cfg, steps);
      && w in s.crew.readers && w in s.crew.workers && s.crew.readers[w].stream < |s.trace.streams|
      && s.crew.workers[w].granted == ack
      && s.trace.streams[s.crew.readers[w].stream] + [f] <= Run(GrantTaken(ack), maxRequests, actions).wire
    ensures var s := PoolState.Run(cfg, steps); w in s.crew.readers && !TurnFor(s.crew, w, f).OverClaim?
  {
    var s := PoolState.Run(cfg, steps);
    var wire := Run(GrantTaken(ack), maxRequests, actions).wire;
    var heard := s.trace.streams[s.crew.readers[w].stream] + [f];
    RunHonoursGrant(GrantTaken(ack), maxRequests, actions);
    forall n | 0 <= n <= |heard|
      ensures |OpenClaims(heard[..n])| <= ack
    {
      assert heard[..n] == wire[..n];
    }
    HonestWorkerNeverOverClaims(cfg, steps, w, f);
  }

  // --- streamed request bodies ---

  datatype Inbound = InBody(chunk: seq<byte>) | InWs(op: u32, message: seq<byte>)

  /** `pump_body`: the non-empty chunks, then the terminator. */
  method PumpBody(chunks: seq<seq<byte>>) returns (frames: seq<Inbound>)
    ensures frames == Pumped(chunks) + [InBody([])]
  {
    frames := [];
    for i := 0 to |chunks|
      invariant frames == Pumped(chunks[..i])
    {
      assert chunks[..i + 1][..i] == chunks[..i];
      if chunks[i] != [] {
        frames := frames + [InBody(chunks[i])];
      }
    }
    assert chunks[..|chunks|] == chunks;
    frames := frames + [InBody([])];
  }

  function Pumped(chunks: seq<seq<byte>>): seq<Inbound>
    decreases |chunks|
  {
    if |chunks| == 0 then []
    else
      var n := |chunks| - 1;
      Pumped(chunks[..n]) + if chunks[n] == [] then [] else [InBody(chunks[n])]
  }

  /** The bodies up to the terminator or the first that reaches `total`. */
  function Gather(inbound: seq<Inbound>, total: u64, body: seq<byte>): seq<byte>
    decreases |inbound|
  {
    if |inbound| == 0 then body
    else
      match inbound[0]
      case InWs(_, _) => Gather(inbound[1..], total, body)
      case InBody(chunk) =>
        if chunk == [] || |body + chunk| >= total then body + chunk else Gather(inbound[1..], total, body + chunk)
  }

  /** `read_body` of a streamed request; `None` is the aborted upload. */
  method ReadBody(inbound: seq<Inbound>, total: u64) returns (r: Option<seq<byte>>)
    ensures r == if |Gather(inbound, total, [])| == total then Some(Gather(inbound, total, [])) else None
  {
    var body: seq<byte> := [];
    var i, stop := 0, false;
    while i < |inbound| && !stop
      invariant i <= |inbound|
      invariant Gather(inbound, total, []) == if stop then body else Gather(inbound[i..], total, body)
      decreases |inbound| - i, !stop
    {
      var next := inbound[i];
      assert inbound[i..][0] == next && inbound[i..][1..] == inbound[i + 1..];
      i := i + 1;
      if next.InBody? {
        if next.chunk == [] {
          assert body + next.chunk == body;
          stop := true;
        } else {
          body := body + next.chunk;
          stop := |body| >= total;
        }
      }
    }
    r := if |body| != total then None else Some(body);
  }

  lemma {:induction false} PumpedFirst(chunks: seq<seq<byte>>)
    requires |chunks| > 0
    ensures Pumped(chunks) == (if chunks[0] == [] then [] else [InBody(chunks[0])]) + Pumped(chunks[1..])
    decreases |chunks|
  {
    var n := |chunks| - 1;
    if n == 0 {
      assert chunks[..0] == [] && chunks[1..] == [];
    } else {
      PumpedFirst(chunks[..n]);
      assert chunks[..n][1..] == chunks[1..][..n - 1];
    }
  }

  lemma {:induction false} GatherPumped(chunks: seq<seq<byte>>, total: u64, body: seq<byte>)
    requires |body| + |Concat(chunks)| <= total && (|chunks| > 0 && |Concat(chunks)| > 0 ==> |body| < total)
    ensures Gather(Pumped(chunks) + [InBody([])], total, body) == body + Concat(chunks)
    decreases |chunks|
  {
    if |chunks| == 0 {
      assert Pumped(chunks) + [InBody([])] == [InBody([])];
    } else {
      PumpedFirst(chunks);
      var rest := Pumped(chunks[1..]) + [InBody([])];
      if chunks[0] == [] {
        assert Pumped(chunks) + [InBody([])] == rest;
        GatherPumped(chunks[1..], total, body);
        assert chunks[0] + Concat(chunks[1..]) == Concat(chunks[1..]);
      } else {
        assert Pumped(chunks) + [InBody([])] == [InBody(chunks[0])] + rest;
        if |body + chunks[0]| >= total {
          assert Concat(chunks[1..]) == [];
        } else {
          GatherPumped(chunks[1..], total, body + chunks[0]);
        }
        assert body + Concat(chunks) == body + chunks[0] + Concat(chunks[1..]);
      }
    }
  }

  /** A streamed upload arrives whole or is known to be cut short: for every division of what the router fed. */
  lemma {:induction false} StreamedBodyIsExact(chunks: seq<seq<byte>>, total: u64)
    requires |Concat(chunks)| <= total
    ensures Gather(Pumped(chunks) + [InBody([])], total, []) == Concat(chunks)
  {
    GatherPumped(chunks, total, []);
  }
}
