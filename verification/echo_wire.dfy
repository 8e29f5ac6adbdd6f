/** The interleaved wire of the concurrent worker, request by request, and on to the clients' channels. */
module EchoWire {
  import opened Bytes
  import opened Frame
  import opened PoolState
  import opened PoolDemux
  import opened PoolPermits
  import opened Compose
  import E = Echo
  import W = BlockingWorker

  // --- what each task says ---

  /** A task in the order of the spawns: its Claim stands at `start`, `said` are its frames after that, and `end` is just
      past its terminal frame. */
  datatype Told = Told(id: u32, start: nat, said: seq<Frame>, end: Option<nat>)

  function Adds(told: seq<Told>, h: nat, fs: seq<Frame>, end: Option<nat>): seq<Told> {
    if h < |told| then told[h := told[h].(said := told[h].said + fs, end := end)] else told
  }

  function TellStep(told: seq<Told>, s: E.Side, a: E.Action): seq<Told> {
    match a
    case Receive(data) =>
      if s.holding && E.Judge(W.Received(data)).Take?
      then told + [Told(E.Judge(W.Received(data)).id, |s.wire|, [], None)] else told
    case Remarks(i, remark) =>
      if i < |s.tasks| then Adds(told, s.tasks[i].handle, [E.RemarkFrame(s.tasks[i].id, remark)], None) else told
    case Finish(i, o) =>
      if i < |s.tasks| then
        var fs := E.Batch(s.tasks[i].id, o);
        Adds(told, s.tasks[i].handle, fs, Some(|s.wire| + |fs|))
      else told
    case Cancel(id) =>
      if id in s.inflight then Adds(told, s.inflight[id], [Bare(Done, id)], Some(|s.wire| + 1)) else told
    case _ => told
  }

  function Tell(granted: nat, maxRequests: nat, actions: seq<E.Action>): seq<Told>
    decreases |actions|
  {
    if |actions| == 0 then []
    else
      var before := actions[..|actions| - 1];
      TellStep(Tell(granted, maxRequests, before), E.Run(granted, maxRequests, before), actions[|actions| - 1])
  }

  /** The frames of a request, without the answers to probes. */
  function Own(fs: seq<Frame>, id: u32): seq<Frame>
    decreases |fs|
  {
    if |fs| == 0 then []
    else
      var last := fs[|fs| - 1];
      Own(fs[..|fs| - 1], id) + if last.id == id && !last.kind.Pong? then [last] else []
  }

  lemma {:induction false} OwnMore(fs: seq<Frame>, f: Frame, id: u32)
    ensures Own(fs + [f], id) == Own(fs, id) + if f.id == id && !f.kind.Pong? then [f] else []
  {
    assert (fs + [f])[..|fs|] == fs;
  }

  /** Frames of other requests, and answers to probes. */
  ghost predicate Foreign(fs: seq<Frame>, id: u32) {
    forall i | 0 <= i < |fs| :: fs[i].id != id || fs[i].kind.Pong?
  }

  ghost predicate AllOwn(fs: seq<Frame>, id: u32) {
    forall i | 0 <= i < |fs| :: fs[i].id == id && !fs[i].kind.Pong?
  }

  lemma {:induction false} OwnOneMore(fs: seq<Frame>, before: seq<Frame>, f: Frame, id: u32)
    ensures Own(fs + (before + [f]), id) == Own(fs + before, id) + if f.id == id && !f.kind.Pong? then [f] else []
  {
    assert fs + (before + [f]) == (fs + before) + [f];
    OwnMore(fs + before, f, id);
  }

  lemma {:induction false} OwnOfForeign(fs: seq<Frame>, more: seq<Frame>, id: u32)
    requires Foreign(more, id)
    ensures Own(fs + more, id) == Own(fs, id)
    decreases |more|
  {
    if |more| == 0 {
      assert fs + more == fs;
    } else {
      var before, f := more[..|more| - 1], more[|more| - 1];
      assert more == before + [f];
      OwnOfForeign(fs, before, id);
      OwnOneMore(fs, before, f, id);
    }
  }

  lemma {:induction false} OwnOfOwn(fs: seq<Frame>, more: seq<Frame>, id: u32)
    requires AllOwn(more, id)
    ensures Own(fs + more, id) == Own(fs, id) + more
    decreases |more|
  {
    if |more| == 0 {
      assert fs + more == fs && Own(fs, id) + more == Own(fs, id);
    } else {
      var before, f := more[..|more| - 1], more[|more| - 1];
      assert more == before + [f];
      OwnOfOwn(fs, before, id);
      OwnOneMore(fs, before, f, id);
      assert Own(fs, id) + (before + [f]) == (Own(fs, id) + before) + [f];
    }
  }

  // --- the wire, task by task ---

  ghost predicate ToldOk(x: Told, wire: seq<Frame>) {
    && x.start < |wire| && wire[x.start] == Bare(Claim, x.id)
    && match x.end
       case None => Calm(wire[x.start + 1..], x.id) && Own(wire[x.start + 1..], x.id) == x.said
       case Some(e) =>
         && x.start + 1 < e <= |wire| && Terminal(wire[e - 1], x.id)
         && Calm(wire[x.start + 1..e - 1], x.id) && Own(wire[x.start + 1..e], x.id) == x.said
  }

  lemma {:induction false} ClosedStays(x: Told, wire: seq<Frame>, fs: seq<Frame>)
    requires ToldOk(x, wire) && x.end.Some?
    ensures ToldOk(x, wire + fs)
  {
    var e := x.end.value;
    assert (wire + fs)[x.start + 1..e] == wire[x.start + 1..e];
    assert (wire + fs)[x.start + 1..e - 1] == wire[x.start + 1..e - 1];
  }

  lemma {:induction false} OpenStays(x: Told, wire: seq<Frame>, fs: seq<Frame>)
    requires ToldOk(x, wire) && x.end.None? && Foreign(fs, x.id)
    ensures ToldOk(x, wire + fs)
  {
    var tail := wire[x.start + 1..];
    assert (wire + fs)[x.start + 1..] == tail + fs;
    OwnOfForeign(tail, fs, x.id);
  }

  lemma {:induction false} OpenSays(x: Told, wire: seq<Frame>, fs: seq<Frame>)
    requires ToldOk(x, wire) && x.end.None? && AllOwn(fs, x.id) && Calm(fs, x.id)
    ensures ToldOk(x.(said := x.said + fs), wire + fs)
  {
    var tail := wire[x.start + 1..];
    assert (wire + fs)[x.start + 1..] == tail + fs;
    OwnOfOwn(tail, fs, x.id);
  }

  lemma {:induction false} OpenEnds(x: Told, wire: seq<Frame>, fs: seq<Frame>)
    requires ToldOk(x, wire) && x.end.None? && |fs| > 0 && AllOwn(fs, x.id)
    requires Terminal(fs[|fs| - 1], x.id) && Calm(fs[..|fs| - 1], x.id)
    ensures ToldOk(x.(said := x.said + fs, end := Some(|wire| + |fs|)), wire + fs)
  {
    var tail, all := wire[x.start + 1..], wire + fs;
    assert all[x.start + 1..|all|] == tail + fs;
    assert all[x.start + 1..|all| - 1] == tail + fs[..|fs| - 1];
    OwnOfOwn(tail, fs, x.id);
  }

  ghost predicate OneTaskEach(tasks: seq<E.Task>) {
    forall i, j | 0 <= i < j < |tasks| :: tasks[i].id != tasks[j].id
  }

  /** The running tasks are exactly those that have not ended. */
  ghost predicate OpenAreRunning(tasks: seq<E.Task>, told: seq<Told>) {
    && (forall i | 0 <= i < |tasks| :: tasks[i].handle < |told| && told[tasks[i].handle].id == tasks[i].id
                                       && told[tasks[i].handle].end.None?)
    && (forall h | 0 <= h < |told| && told[h].end.None? :: E.Task(h, told[h].id) in tasks)
  }

  predicate StartsAt(told: seq<Told>, h: nat, p: nat) { h < |told| && told[h].start == p }

  ghost predicate ClaimsAreTasks(wire: seq<Frame>, told: seq<Told>) {
    forall p: nat | p < |wire| && wire[p].kind.Claim? :: exists h :: StartsAt(told, h, p)
  }

  ghost predicate AllTold(wire: seq<Frame>, told: seq<Told>) {
    forall h | 0 <= h < |told| :: ToldOk(told[h], wire)
  }

  ghost predicate Matches(s: E.Side, told: seq<Told>) {
    && |told| == s.spawned && OneTaskEach(s.tasks) && OpenAreRunning(s.tasks, told)
    && ClaimsAreTasks(s.wire, told) && AllTold(s.wire, told)
  }

  /** No request is received while one with its id is running: the router has no two live requests with one id. */
  predicate Distinct(s: E.Side, a: E.Action) {
    a.Receive? && s.holding && E.Judge(W.Received(a.data)).Take? ==>
      forall i | 0 <= i < |s.tasks| :: s.tasks[i].id != E.Judge(W.Received(a.data)).id
  }

  ghost predicate DistinctRun(granted: nat, maxRequests: nat, actions: seq<E.Action>) {
    forall i | 0 <= i < |actions| :: Distinct(E.Run(granted, maxRequests, actions[..i]), actions[i])
  }

  lemma {:induction false} ClaimsOfMore(wire: seq<Frame>, told: seq<Told>, more: seq<Told>, fs: seq<Frame>)
    requires ClaimsAreTasks(wire, told) && E.OpensNothing(fs) && |more| == |told|
    requires forall h | 0 <= h < |told| :: more[h].start == told[h].start
    ensures ClaimsAreTasks(wire + fs, more)
  {
    forall p: nat | p < |wire + fs| && (wire + fs)[p].kind.Claim?
      ensures exists h :: StartsAt(more, h, p)
    {
      assert p < |wire| && wire[p].kind.Claim?;
      var h :| StartsAt(told, h, p);
      assert StartsAt(more, h, p);
    }
  }

  /** Frames that nobody's request owns. */
  lemma {:induction false} AllStay(wire: seq<Frame>, told: seq<Told>, fs: seq<Frame>)
    requires AllTold(wire, told) && forall h | 0 <= h < |told| && told[h].end.None? :: Foreign(fs, told[h].id)
    ensures AllTold(wire + fs, told)
  {
    forall h | 0 <= h < |told|
      ensures ToldOk(told[h], wire + fs)
    {
      if told[h].end.Some? {
        ClosedStays(told[h], wire, fs);
      } else {
        OpenStays(told[h], wire, fs);
      }
    }
  }

  lemma {:induction false} OneStays(x: Told, wire: seq<Frame>, fs: seq<Frame>, id: u32)
    requires ToldOk(x, wire) && AllOwn(fs, id) && (x.end.None? ==> x.id != id)
    ensures ToldOk(x, wire + fs)
  {
    if x.end.Some? {
      ClosedStays(x, wire, fs);
    } else {
      OpenStays(x, wire, fs);
    }
  }

  /** Frames of one open task. */
  lemma {:induction false} OneSpeaks(wire: seq<Frame>, told: seq<Told>, h: nat, fs: seq<Frame>, end: Option<nat>)
    requires AllTold(wire, told) && h < |told| && told[h].end.None? && AllOwn(fs, told[h].id)
    requires forall g | 0 <= g < |told| && g != h && told[g].end.None? :: told[g].id != told[h].id
    requires end.None? ==> Calm(fs, told[h].id)
    requires end.Some? ==> |fs| > 0 && end.value == |wire| + |fs|
    requires end.Some? ==> Terminal(fs[|fs| - 1], told[h].id) && Calm(fs[..|fs| - 1], told[h].id)
    ensures AllTold(wire + fs, Adds(told, h, fs, end))
  {
    if end.None? { OpenSays(told[h], wire, fs); } else { OpenEnds(told[h], wire, fs); }
    forall g | 0 <= g < |told| && g != h
      ensures ToldOk(told[g], wire + fs)
    {
      OneStays(told[g], wire, fs, told[h].id);
    }
  }

  /** The open tasks have different ids. */
  lemma {:induction false} OthersDiffer(s: E.Side, told: seq<Told>, i: nat)
    requires Matches(s, told) && i < |s.tasks|
    ensures forall g | 0 <= g < |told| && g != s.tasks[i].handle && told[g].end.None? :: told[g].id != s.tasks[i].id
  {
    forall g | 0 <= g < |told| && g != s.tasks[i].handle && told[g].end.None?
      ensures told[g].id != s.tasks[i].id
    {
      var j :| 0 <= j < |s.tasks| && s.tasks[j] == E.Task(g, told[g].id);
    }
  }

  /** A new task's Claim is foreign to the open ones. */
  lemma {:induction false} ClaimIsForeign(s: E.Side, told: seq<Told>, id: u32)
    requires OpenAreRunning(s.tasks, told) && forall i | 0 <= i < |s.tasks| :: s.tasks[i].id != id
    ensures forall h | 0 <= h < |told| && told[h].end.None? :: Foreign([Bare(Claim, id)], told[h].id)
  {
    forall h | 0 <= h < |told| && told[h].end.None?
      ensures Foreign([Bare(Claim, id)], told[h].id)
    {
      var j :| 0 <= j < |s.tasks| && s.tasks[j] == E.Task(h, told[h].id);
    }
  }

  lemma {:induction false} NewIsTold(wire: seq<Frame>, told: seq<Told>, id: u32)
    requires AllTold(wire + [Bare(Claim, id)], told)
    ensures AllTold(wire + [Bare(Claim, id)], told + [Told(id, |wire|, [], None)])
  {
    assert (wire + [Bare(Claim, id)])[|wire| + 1..] == [];
  }

  lemma {:induction false} NewIsRunning(tasks: seq<E.Task>, told: seq<Told>, x: Told)
    requires OpenAreRunning(tasks, told) && x.end.None?
    ensures OpenAreRunning(tasks + [E.Task(|told|, x.id)], told + [x])
  {
    var more, all := tasks + [E.Task(|told|, x.id)], told + [x];
    forall h | 0 <= h < |all| && all[h].end.None?
      ensures E.Task(h, all[h].id) in more
    {
      if h < |told| {
        assert E.Task(h, told[h].id) in tasks;
      } else {
        assert more[|tasks|] == E.Task(h, x.id);
      }
    }
  }

  lemma {:induction false} NewClaims(wire: seq<Frame>, told: seq<Told>, x: Told)
    requires ClaimsAreTasks(wire, told) && x.start == |wire|
    ensures ClaimsAreTasks(wire + [Bare(Claim, x.id)], told + [x])
  {
    var all, more := wire + [Bare(Claim, x.id)], told + [x];
    forall p: nat | p < |all| && all[p].kind.Claim?
      ensures exists h :: StartsAt(more, h, p)
    {
      if p < |wire| {
        assert wire[p].kind.Claim?;
        var h :| StartsAt(told, h, p);
        assert StartsAt(more, h, p);
      } else {
        assert StartsAt(more, |told|, p);
      }
    }
  }

  lemma {:induction false} MatchesAfterTake(s: E.Side, told: seq<Told>, id: u32, maxRequests: nat)
    requires Matches(s, told) && forall i | 0 <= i < |s.tasks| :: s.tasks[i].id != id
    ensures Matches(E.Spawn(s, id, maxRequests), told + [Told(id, |s.wire|, [], None)])
  {
    var x := Told(id, |s.wire|, [], None);
    ClaimIsForeign(s, told, id);
    AllStay(s.wire, told, [Bare(Claim, id)]);
    NewIsTold(s.wire, told, id);
    NewIsRunning(s.tasks, told, x);
    NewClaims(s.wire, told, x);
  }

  lemma {:induction false} RunningSame(tasks: seq<E.Task>, told: seq<Told>, more: seq<Told>)
    requires OpenAreRunning(tasks, told) && |more| == |told|
    requires forall h | 0 <= h < |told| :: more[h].id == told[h].id && more[h].end == told[h].end
    ensures OpenAreRunning(tasks, more)
  {
    forall h | 0 <= h < |more| && more[h].end.None?
      ensures E.Task(h, more[h].id) in tasks
    {
      assert E.Task(h, told[h].id) in tasks;
    }
  }

  lemma {:induction false} MatchesAfterRemark(s: E.Side, told: seq<Told>, i: nat, f: Frame)
    requires Matches(s, told) && i < |s.tasks| && f.id == s.tasks[i].id
    requires !f.kind.Pong? && !f.kind.Claim? && !W.Ends(f)
    ensures Matches(E.Say(s, [f]), Adds(told, s.tasks[i].handle, [f], None))
  {
    var h := s.tasks[i].handle;
    OthersDiffer(s, told, i);
    OneSpeaks(s.wire, told, h, [f], None);
    ClaimsOfMore(s.wire, told, Adds(told, h, [f], None), [f]);
    RunningSame(s.tasks, told, Adds(told, h, [f], None));
  }

  /** A task ends with the frames given. */
  lemma {:induction false} MatchesAfterEnd(s: E.Side, told: seq<Told>, i: nat, fs: seq<Frame>, t: E.Side)
    requires Matches(s, told) && i < |s.tasks| && E.Registered(s) && |fs| > 0 && AllOwn(fs, s.tasks[i].id)
    requires E.OpensNothing(fs) && Terminal(fs[|fs| - 1], s.tasks[i].id) && Calm(fs[..|fs| - 1], s.tasks[i].id)
    requires t.wire == s.wire + fs && t.tasks == E.Without(s.tasks, i) && t.spawned == s.spawned
    ensures Matches(t, Adds(told, s.tasks[i].handle, fs, Some(|s.wire| + |fs|)))
  {
    var h := s.tasks[i].handle;
    var more := Adds(told, h, fs, Some(|s.wire| + |fs|));
    OthersDiffer(s, told, i);
    OneSpeaks(s.wire, told, h, fs, Some(|s.wire| + |fs|));
    ClaimsOfMore(s.wire, told, more, fs);
    RunningWithout(s, told, i, more);
  }

  lemma {:induction false} RunningWithout(s: E.Side, told: seq<Told>, i: nat, more: seq<Told>)
    requires OpenAreRunning(s.tasks, told) && OneTaskEach(s.tasks) && E.Registered(s) && i < |s.tasks|
    requires s.tasks[i].handle < |told| == |more| && more[s.tasks[i].handle].end.Some?
    requires forall g | 0 <= g < |told| && g != s.tasks[i].handle :: more[g] == told[g]
    ensures OpenAreRunning(E.Without(s.tasks, i), more) && OneTaskEach(E.Without(s.tasks, i))
  {
    var rest := E.Without(s.tasks, i);
    forall k | 0 <= k < |rest|
      ensures rest[k].handle < |more| && more[rest[k].handle].id == rest[k].id && more[rest[k].handle].end.None?
    {
      var j := if k < i then k else k + 1;
      assert rest[k] == s.tasks[j] && j != i;
      assert s.tasks[j].handle != s.tasks[i].handle;
    }
    forall g | 0 <= g < |more| && more[g].end.None?
      ensures E.Task(g, more[g].id) in rest
    {
      var j :| 0 <= j < |s.tasks| && s.tasks[j] == E.Task(g, told[g].id);
      E.OthersStay(s.tasks, i, j);
    }
  }

  lemma {:induction false} BatchEnds(id: u32, o: E.Outcome)
    ensures var fs := E.Batch(id, o);
      |fs| > 0 && AllOwn(fs, id) && E.OpensNothing(fs) && Terminal(fs[|fs| - 1], id) && Calm(fs[..|fs| - 1], id)
  {
  }

  lemma {:induction false} CancelIs(s: E.Side, id: u32) returns (i: nat)
    requires E.Registered(s) && id in s.inflight
    ensures i < |s.tasks| && s.tasks[i] == E.Task(s.inflight[id], id)
    ensures var t := E.CancelStep(s, id);
      t.wire == s.wire + [Bare(Done, id)] && t.tasks == E.Without(s.tasks, i) && t.spawned == s.spawned
  {
    E.FindsItsTask(s, id);
    i := E.Find(s.tasks, s.inflight[id]);
  }

  lemma {:induction false} DoneEnds(id: u32)
    ensures var fs := [Bare(Done, id)];
      AllOwn(fs, id) && E.OpensNothing(fs) && Terminal(fs[|fs| - 1], id) && Calm(fs[..|fs| - 1], id)
  {
  }

  lemma {:induction false} MatchesAfterCancel(s: E.Side, told: seq<Told>, id: u32)
    requires Matches(s, told) && E.Registered(s) && id in s.inflight
    ensures Matches(E.CancelStep(s, id), Adds(told, s.inflight[id], [Bare(Done, id)], Some(|s.wire| + 1)))
  {
    var i := CancelIs(s, id);
    DoneEnds(id);
    MatchesAfterEnd(s, told, i, [Bare(Done, id)], E.CancelStep(s, id));
  }

  lemma {:induction false} MatchesAfterProbe(s: E.Side, told: seq<Told>, id: u32)
    requires Matches(s, told)
    ensures Matches(E.ProbeStep(s, id), told)
  {
    var f := W.PongFrame(id, if id in s.inflight then W.PONG_BUSY else W.PONG_IDLE);
    AllStay(s.wire, told, [f]);
    ClaimsOfMore(s.wire, told, told, [f]);
  }

  lemma {:induction false} MatchesSame(s: E.Side, told: seq<Told>, t: E.Side)
    requires Matches(s, told) && t.tasks == s.tasks && t.wire == s.wire && t.spawned == s.spawned
    ensures Matches(t, told)
  {
  }

  lemma {:induction false} MatchesAfterReceive(s: E.Side, told: seq<Told>, data: seq<byte>, maxRequests: nat)
    requires Matches(s, told) && Distinct(s, E.Receive(data))
    ensures Matches(E.Next(s, E.Receive(data), maxRequests), TellStep(told, s, E.Receive(data)))
  {
    if s.holding && E.Judge(W.Received(data)).Take? {
      MatchesAfterTake(s, told, E.Judge(W.Received(data)).id, maxRequests);
    } else {
      MatchesSame(s, told, E.Next(s, E.Receive(data), maxRequests));
    }
  }

  lemma {:induction false} MatchesAfterRemarks(s: E.Side, told: seq<Told>, a: E.Action, maxRequests: nat)
    requires Matches(s, told) && a.Remarks?
    ensures Matches(E.Next(s, a, maxRequests), TellStep(told, s, a))
  {
    if a.task < |s.tasks| {
      MatchesAfterRemark(s, told, a.task, E.RemarkFrame(s.tasks[a.task].id, a.remark));
    }
  }

  lemma {:induction false} FinishIs(s: E.Side, told: seq<Told>, a: E.Action, maxRequests: nat, fs: seq<Frame>)
    requires a.Finish? && a.task < |s.tasks| && fs == E.Batch(s.tasks[a.task].id, a.outcome)
    ensures var t := E.Next(s, a, maxRequests);
      t.wire == s.wire + fs && t.tasks == E.Without(s.tasks, a.task) && t.spawned == s.spawned
    ensures TellStep(told, s, a) == Adds(told, s.tasks[a.task].handle, fs, Some(|s.wire| + |fs|))
  {
  }

  /** What a batch is, whatever the outcome. */
  ghost predicate EndsTask(fs: seq<Frame>, id: u32) {
    && |fs| > 0 && AllOwn(fs, id) && E.OpensNothing(fs) && Terminal(fs[|fs| - 1], id) && Calm(fs[..|fs| - 1], id)
  }

  lemma {:induction false} MatchesAfterBatch(s: E.Side, told: seq<Told>, i: nat, fs: seq<Frame>, t: E.Side, more: seq<Told>)
    requires Matches(s, told) && E.Registered(s) && i < |s.tasks| && EndsTask(fs, s.tasks[i].id)
    requires t.wire == s.wire + fs && t.tasks == E.Without(s.tasks, i) && t.spawned == s.spawned
    requires more == Adds(told, s.tasks[i].handle, fs, Some(|s.wire| + |fs|))
    ensures Matches(t, more)
  {
    MatchesAfterEnd(s, told, i, fs, t);
  }

  lemma {:induction false} BatchOf(id: u32, o: E.Outcome) returns (fs: seq<Frame>)
    ensures fs == E.Batch(id, o) && EndsTask(fs, id)
  {
    fs := E.Batch(id, o);
    BatchEnds(id, o);
  }

  lemma {:induction false} MatchesAfterFinish(s: E.Side, told: seq<Told>, a: E.Action, maxRequests: nat)
    requires Matches(s, told) && E.Registered(s) && a.Finish? && a.task < |s.tasks|
    ensures Matches(E.Next(s, a, maxRequests), TellStep(told, s, a))
  {
    var fs := BatchOf(s.tasks[a.task].id, a.outcome);
    FinishIs(s, told, a, maxRequests, fs);
    MatchesAfterBatch(s, told, a.task, fs, E.Next(s, a, maxRequests), TellStep(told, s, a));
  }

  lemma {:induction false} MatchesAfterCancelStep(s: E.Side, told: seq<Told>, a: E.Action, maxRequests: nat)
    requires Matches(s, told) && E.Registered(s) && a.Cancel?
    ensures Matches(E.Next(s, a, maxRequests), TellStep(told, s, a))
  {
    if a.id in s.inflight {
      MatchesAfterCancel(s, told, a.id);
    }
  }

  lemma {:induction false} StepKeepsMatch(s: E.Side, told: seq<Told>, a: E.Action, maxRequests: nat)
    requires E.Registered(s) && Matches(s, told) && Distinct(s, a)
    ensures Matches(E.Next(s, a, maxRequests), TellStep(told, s, a))
  {
    match a
    case Acquire => MatchesSame(s, told, E.Next(s, a, maxRequests));
    case Receive(data) => MatchesAfterReceive(s, told, data, maxRequests);
    case Remarks(_, _) => MatchesAfterRemarks(s, told, a, maxRequests);
    case Finish(i, _) => if i < |s.tasks| { MatchesAfterFinish(s, told, a, maxRequests); }
    case Cancel(_) => MatchesAfterCancelStep(s, told, a, maxRequests);
    case Probe(id) => MatchesAfterProbe(s, told, id);
  }

  /** In every run of the concurrent worker in which no two running requests share an id: behind each Claim the wire has,
      up to the request's terminal frame, exactly the frames its own task said, in order, whatever stands between. */
  lemma {:induction false} RunKeepsMatch(granted: nat, maxRequests: nat, actions: seq<E.Action>)
    requires DistinctRun(granted, maxRequests, actions)
    ensures Matches(E.Run(granted, maxRequests, actions), Tell(granted, maxRequests, actions))
    decreases |actions|
  {
    if |actions| > 0 {
      var n := |actions| - 1;
      var before := actions[..n];
      assert forall i | 0 <= i < n :: before[..i] == actions[..i];
      RunKeepsMatch(granted, maxRequests, before);
      E.RunHonoursGrant(granted, maxRequests, before);
      StepKeepsMatch(E.Run(granted, maxRequests, before), Tell(granted, maxRequests, before), actions[n], maxRequests);
    }
  }

  // --- what the tasks mean to the clients ---

  /** What the client is to get of a handler's end: an answer's headers, body and end, a failure, or an end alone. */
  function MeansEnd(o: E.Outcome): seq<Event> {
    match o
    case Answered(body) => [EvHeaders(200, E.ECHO_HEADERS), EvChunk(body), EvEnd, EvEnd]
    case Failed(_) => [EvFailed(WorkerFailed)]
    case SessionOver => [EvEnd, EvEnd]
  }

  /** And of what a WebSocket session says before: the switch of protocols, and messages sent back as they came. */
  function MeansRemark(r: E.Remark): seq<Event> {
    match r
    case Accept => [EvHeaders(101, [])]
    case Mirror(op, message) => [EvWs(op, message)]
  }

  function MeantMore(meant: seq<seq<Event>>, h: nat, evs: seq<Event>): seq<seq<Event>> {
    if h < |meant| then meant[h := meant[h] + evs] else meant
  }

  function MeantStep(meant: seq<seq<Event>>, s: E.Side, a: E.Action): seq<seq<Event>> {
    match a
    case Receive(data) => if s.holding && E.Judge(W.Received(data)).Take? then meant + [[]] else meant
    case Remarks(i, remark) => if i < |s.tasks| then MeantMore(meant, s.tasks[i].handle, MeansRemark(remark)) else meant
    case Finish(i, o) => if i < |s.tasks| then MeantMore(meant, s.tasks[i].handle, MeansEnd(o)) else meant
    case Cancel(id) => if id in s.inflight then MeantMore(meant, s.inflight[id], [EvEnd]) else meant
    case _ => meant
  }

  /** What the client of each task is to get, in the order of the spawns. */
  function MeantBy(granted: nat, maxRequests: nat, actions: seq<E.Action>): seq<seq<Event>>
    decreases |actions|
  {
    if |actions| == 0 then []
    else
      var before := actions[..|actions| - 1];
      MeantStep(MeantBy(granted, maxRequests, before), E.Run(granted, maxRequests, before), actions[|actions| - 1])
  }

  ghost predicate AllMean(told: seq<Told>, meant: seq<seq<Event>>) {
    |meant| == |told| && forall h | 0 <= h < |told| :: Project(told[h].said, told[h].id) == meant[h]
  }

  lemma {:induction false} BatchMeans(id: u32, o: E.Outcome)
    ensures Project(E.Batch(id, o), id) == MeansEnd(o)
  {
    var b := E.Batch(id, o);
    match o
    case Answered(body) =>
      ProjectTwo(b[0], b[1], id);
      ProjectTwo(b[2], b[3], id);
      ProjectAppend([b[0], b[1]], [b[2], b[3]], id);
      assert b == [b[0], b[1]] + [b[2], b[3]];
    case Failed(_) => ProjectOne(b[0], id);
    case SessionOver =>
      ProjectTwo(b[0], b[1], id);
      assert b == [b[0], b[1]];
  }

  lemma {:induction false} AddsMean(told: seq<Told>, meant: seq<seq<Event>>, h: nat, fs: seq<Frame>, evs: seq<Event>,
                                    end: Option<nat>)
    requires AllMean(told, meant) && (h < |told| ==> Project(fs, told[h].id) == evs)
    ensures AllMean(Adds(told, h, fs, end), MeantMore(meant, h, evs))
  {
    if h < |told| {
      ProjectAppend(told[h].said, fs, told[h].id);
    }
  }

  lemma {:induction false} RemarkMeans(told: seq<Told>, meant: seq<seq<Event>>, h: nat, id: u32, r: E.Remark)
    requires AllMean(told, meant) && h < |told| && told[h].id == id
    ensures AllMean(Adds(told, h, [E.RemarkFrame(id, r)], None), MeantMore(meant, h, MeansRemark(r)))
  {
    ProjectOne(E.RemarkFrame(id, r), id);
    AddsMean(told, meant, h, [E.RemarkFrame(id, r)], MeansRemark(r), None);
  }

  lemma {:induction false} DoneMeans(told: seq<Told>, meant: seq<seq<Event>>, h: nat, id: u32, end: nat)
    requires AllMean(told, meant) && h < |told| && told[h].id == id
    ensures AllMean(Adds(told, h, [Bare(Done, id)], Some(end)), MeantMore(meant, h, [EvEnd]))
  {
    ProjectOne(Bare(Done, id), id);
    AddsMean(told, meant, h, [Bare(Done, id)], [EvEnd], Some(end));
  }

  lemma {:induction false} StepMeans(s: E.Side, told: seq<Told>, meant: seq<seq<Event>>, a: E.Action)
    requires AllMean(told, meant) && OpenAreRunning(s.tasks, told) && E.Registered(s)
    ensures AllMean(TellStep(told, s, a), MeantStep(meant, s, a))
  {
    match a
    case Remarks(i, remark) => if i < |s.tasks| { RemarkMeans(told, meant, s.tasks[i].handle, s.tasks[i].id, remark); }
    case Finish(i, o) =>
      if i < |s.tasks| {
        BatchMeans(s.tasks[i].id, o);
        AddsMean(told, meant, s.tasks[i].handle, E.Batch(s.tasks[i].id, o), MeansEnd(o),
                 Some(|s.wire| + |E.Batch(s.tasks[i].id, o)|));
      }
    case Cancel(id) =>
      if id in s.inflight {
        assert E.Task(s.inflight[id], id) in s.tasks;
        DoneMeans(told, meant, s.inflight[id], id, |s.wire| + 1);
      }
    case _ =>
  }

  /** A task's frames stand for what it means to the client, event by event. */
  lemma {:induction false} TasksMean(granted: nat, maxRequests: nat, actions: seq<E.Action>)
    requires DistinctRun(granted, maxRequests, actions)
    ensures AllMean(Tell(granted, maxRequests, actions), MeantBy(granted, maxRequests, actions))
    decreases |actions|
  {
    if |actions| > 0 {
      var n := |actions| - 1;
      var before := actions[..n];
      assert forall i | 0 <= i < n :: before[..i] == actions[..i];
      TasksMean(granted, maxRequests, before);
      RunKeepsMatch(granted, maxRequests, before);
      E.RunHonoursGrant(granted, maxRequests, before);
      StepMeans(E.Run(granted, maxRequests, before), Tell(granted, maxRequests, before), MeantBy(granted, maxRequests, before),
                actions[n]);
    }
  }

  // --- and on to the channels ---

  lemma {:induction false} ProjectOwn(fs: seq<Frame>, id: u32)
    ensures Project(fs, id) == Project(Own(fs, id), id)
    decreases |fs|
  {
    if |fs| > 0 {
      var n := |fs| - 1;
      ProjectOwn(fs[..n], id);
      if fs[n].id == id && !fs[n].kind.Pong? {
        ProjectGrows(Own(fs[..n], id), fs[n], id);
      } else {
        assert Project(fs[..n], id) + [] == Project(fs[..n], id) && Own(fs[..n], id) + [] == Own(fs[..n], id);
      }
    }
  }

  /** What the channel holds of the task's frames. */
  ghost predicate Passed(cl: ClaimRecord, ch: Channel, x: Told) {
    EventsArrived(cl, ch, Project(x.said, x.id)) && (cl.fate.Finished? ==> x.end == Some(cl.fate.end))
  }

  lemma {:induction false} CalmAt(fs: seq<Frame>, a: nat, b: nat, id: u32)
    requires a <= b <= |fs| && Calm(fs[a..b], id)
    ensures forall j | a <= j < b :: !Terminal(fs[j], id)
  {
    assert forall j | a <= j < b :: fs[j] == fs[a..b][j - a];
  }

  /** The part of a task's frames that has been heard when none of it ends the request. */
  lemma {:induction false} CalmIsPrefix(x: Told, wire: seq<Frame>, heard: seq<Frame>)
    requires ToldOk(x, wire) && heard <= wire && x.start < |heard| && Calm(heard[x.start + 1..], x.id)
    ensures Project(heard[x.start + 1..], x.id) <= Project(x.said, x.id)
  {
    var a := x.start + 1;
    var end := if x.end.Some? then x.end.value else |wire|;
    assert heard[a..|heard|] == heard[a..];
    CalmAt(heard, a, |heard|, x.id);
    assert forall j | a <= j < |heard| :: wire[j] == heard[j];
    assert |heard| <= end;
    ProjectStart(heard[a..], wire[a..end], x.id);
    assert wire[a..|wire|] == wire[a..];
    ProjectOwn(wire[a..end], x.id);
  }

  lemma {:induction false} TerminalMeansEnded(x: Told, wire: seq<Frame>, p: nat)
    requires ToldOk(x, wire) && x.start < p < |wire| && Terminal(wire[p], x.id)
    ensures x.end.Some? && x.end.value <= p + 1
  {
    assert wire[x.start + 1..][p - x.start - 1] == wire[p];
    if x.end.Some? {
      CalmAt(wire, x.start + 1, x.end.value - 1, x.id);
      EarlierEnd(x, wire, p);
    }
  }

  lemma {:induction false} EarlierEnd(x: Told, wire: seq<Frame>, p: nat)
    requires ToldOk(x, wire) && x.end.Some? && x.start < p < |wire| && Terminal(wire[p], x.id)
    requires forall j | x.start + 1 <= j < x.end.value - 1 :: !Terminal(wire[j], x.id)
    ensures x.end.value <= p + 1
  {
  }

  /** The first frame that ends the request is the same on both sides. */
  lemma {:induction false} EndIsFound(x: Told, wire: seq<Frame>, heard: seq<Frame>, end: nat)
    requires ToldOk(x, wire) && heard <= wire && x.start + 1 < end <= |heard|
    requires Terminal(heard[end - 1], x.id) && Calm(heard[x.start + 1..end - 1], x.id)
    ensures x.end == Some(end) && Project(heard[x.start + 1..end], x.id) == Project(x.said, x.id)
  {
    SameFrames(heard, wire, x.start + 1, end);
    TerminalMeansEnded(x, wire, end - 1);
    EndsMeet(x, wire, heard, end);
    ProjectOwn(wire[x.start + 1..end], x.id);
  }

  lemma {:induction false} SameFrames(heard: seq<Frame>, wire: seq<Frame>, a: nat, b: nat)
    requires heard <= wire && a < b <= |heard|
    ensures heard[a..b] == wire[a..b] && heard[b - 1] == wire[b - 1]
  {
  }

  lemma {:induction false} EndsMeet(x: Told, wire: seq<Frame>, heard: seq<Frame>, end: nat)
    requires ToldOk(x, wire) && heard <= wire && x.start + 1 < end <= |heard|
    requires Calm(heard[x.start + 1..end - 1], x.id) && x.end.Some? && x.end.value <= end
    ensures x.end.value == end
  {
    CalmAt(heard, x.start + 1, end - 1, x.id);
    assert wire[x.end.value - 1] == heard[x.end.value - 1];
  }

  lemma {:induction false} RecordPasses(cl: ClaimRecord, ch: Channel, streams: seq<seq<Frame>>, x: Told, wire: seq<Frame>)
    requires RecordOk(cl, ch, streams) && ToldOk(x, wire) && streams[cl.stream] <= wire && x.start == cl.start
    ensures cl.id == x.id && Passed(cl, ch, x)
  {
    var heard := streams[cl.stream];
    assert heard[cl.start] == wire[cl.start];
    match cl.fate
    case Live => CalmIsPrefix(x, wire, heard);
    case Finished(end) => EndIsFound(x, wire, heard, end);
    case Gone(end, told) =>
      assert heard[cl.start + 1..end] == heard[cl.start + 1..];
      CalmIsPrefix(x, wire, heard);
      GoneDelivers(cl, ch, Project(heard[cl.start + 1..], x.id), Project(x.said, x.id));
  }

  /** The concurrent worker behind stream k of the pool. */
  ghost predicate Attached(t: Trace, k: nat, wire: seq<Frame>, arrived: seq<byte>) {
    k < |t.streams| && t.streams[k] <= DecodeFrames(arrived) && arrived <= EncodeFrames(wire) && OversizedShows(wire)
  }

  /** In every fair pool run joined to such a run of the concurrent worker: every claim heard of it is that of a task of
      its own, and the request's channel has what that task means to its client, event by event: all of it once finished,
      a prefix before. Nothing of another request reaches it, however the tasks interleave. */
  lemma {:induction false} EchoDelivers(cfg: Config, steps: seq<Action>, granted: nat, maxRequests: nat,
                                        actions: seq<E.Action>, arrived: seq<byte>, c: nat) returns (h: nat)
    requires FairRun(cfg, steps) && SmallRun(cfg, steps) && DistinctRun(granted, maxRequests, actions)
    requires var t := Run(cfg, steps).trace;
      c in t.claims && Attached(t, t.claims[c].stream, E.Run(granted, maxRequests, actions).wire, arrived)
    ensures var t, told, meant := Run(cfg, steps).trace, Tell(granted, maxRequests, actions),
                                  MeantBy(granted, maxRequests, actions);
      && c < |t.channels| && h < |told| == |meant| && told[h].start == t.claims[c].start && told[h].id == t.claims[c].id
      && EventsArrived(t.claims[c], t.channels[c], meant[h])
      && (t.claims[c].fate.Finished? ==> told[h].end == Some(t.claims[c].fate.end))
  {
    TasksMean(granted, maxRequests, actions);
    RunKeepsDemux(cfg, steps);
    RunKeepsMatch(granted, maxRequests, actions);
    h := TaskOfClaim(Run(cfg, steps).trace, c, E.Run(granted, maxRequests, actions), Tell(granted, maxRequests, actions),
                     arrived);
  }

  lemma {:induction false} TaskOfClaim(t: Trace, c: nat, s: E.Side, told: seq<Told>, arrived: seq<byte>) returns (h: nat)
    requires Faithful(t) && c in t.claims && Matches(s, told) && Attached(t, t.claims[c].stream, s.wire, arrived)
    ensures c < |t.channels| && h < |told| && told[h].start == t.claims[c].start && told[h].id == t.claims[c].id
    ensures Passed(t.claims[c], t.channels[c], told[h])
  {
    var cl := t.claims[c];
    RecordIsOk(t, c);
    StreamIsWire(t, cl.stream, s.wire, arrived);
    h := TaskAt(s, told, t.streams[cl.stream], cl.start);
    RecordPasses(cl, t.channels[c], t.streams, told[h], s.wire);
  }

  lemma {:induction false} StreamIsWire(t: Trace, k: nat, wire: seq<Frame>, arrived: seq<byte>)
    requires Attached(t, k, wire, arrived)
    ensures k < |t.streams| && t.streams[k] <= wire
  {
    HeardIsSent(wire, arrived);
  }

  lemma {:induction false} TaskAt(s: E.Side, told: seq<Told>, heard: seq<Frame>, p: nat) returns (h: nat)
    requires Matches(s, told) && heard <= s.wire && p < |heard| && heard[p].kind.Claim?
    ensures h < |told| && told[h].start == p && ToldOk(told[h], s.wire)
  {
    assert s.wire[p] == heard[p];
    h :| StartsAt(told, h, p);
  }
}
