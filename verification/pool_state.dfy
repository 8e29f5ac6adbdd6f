/** The worker pool of one application as a step system: its state, its steps and its runs. */
module PoolState {
  import opened Bytes
  import opened Frame

  datatype DispatchError = QueueFull | QueueTimeout | WorkerFailed

  datatype Event =
    | EvHeaders(status: nat, headers: seq<byte>)
    | EvChunk(data: seq<byte>)
    | EvFlush
    | EvWs(opcode: u32, message: seq<byte>)
    | EvEnd
    | EvFailed(error: DispatchError)

  /** `channel` is the sending half of the request's event channel, named by a number never reused. */
  datatype Pending = Pending(channel: nat, claimedBy: Option<nat>, claimedAt: Option<nat>,
                             abortSent: bool, abortedAt: Option<nat>)

  /** `up` is when the worker came up. */
  datatype Worker = Worker(token: nat, granted: nat, killRequested: bool, up: nat)

  /** The reader task of a live worker: the stream it reads and its private `claimed` set. */
  datatype Reader = Reader(stream: nat, claimed: set<u32>)

  /** Everything ever sent on an event channel, whether or not its receiver was still there to take it; `aborts` counts
      how often the sweep chose the request for an Abort. */
  datatype Channel = Channel(sent: seq<Event>, aborts: nat)

  /** How a claimed request left the pool: after frame `end - 1`, or with its reader (`told`: the channel had room). */
  datatype Fate = Live | Finished(end: nat) | Gone(end: nat, told: bool)

  /** Record of the one successful claim of a channel: frame `start` of `stream`, at time `at`. */
  datatype ClaimRecord = ClaimRecord(stream: nat, start: nat, id: u32, at: nat, fate: Fate)

  /** `healthyUptime`: a worker that leaves sooner counts as crashed, and its slot is filled again under its id. */
  datatype Config = Config(queueMax: nat, taskTimeout: nat, grace: nat, concurrencyCap: nat, healthyUptime: nat)

  const UNBOUNDED := U32_LIMIT - 1
  const DEFAULT_CONCURRENCY_CAP := 1024

  type Pendings = map<u32, Pending>

  /** The shared `pending` map with its id counter and its size counter. */
  datatype Table = Table(pending: Pendings, nextId: u32, inFlight: int)

  /** The queue semaphore. `sending` and `open` are the permit holders past `try_reserve`, by channel:
      submits waiting for their datagram to be sent, and `ResponseStream`s. */
  datatype Permits = Permits(available: int, reserved: nat, sending: map<nat, u32>, open: map<nat, u32>)

  /** `granted` is 0 until the first handshake; `kills` lists the tokens handed to the spawner. `retired` are the ids
      that no worker will have again, `named` the workers and tokens that a sweep has named and nobody has confirmed. */
  datatype Crew = Crew(workers: map<nat, Worker>, readers: map<nat, Reader>, granted: nat, kills: seq<nat>,
                       retired: set<nat>, named: set<(nat, nat)>)

  /** The event channels, and the history of what was heard and claimed. */
  datatype Trace = Trace(channels: seq<Channel>, streams: seq<seq<Frame>>, claims: map<nat, ClaimRecord>)

  datatype State = State(table: Table, permits: Permits, crew: Crew, trace: Trace, now: nat)

  function NoCrew(): Crew { Crew(map[], map[], 0, [], {}, {}) }

  function Init(cfg: Config): State {
    State(Table(map[], 1, 0), Permits(cfg.queueMax, 0, map[], map[]), NoCrew(),
          Trace([], [], map[]), 0)
  }

  datatype Action =
    | Reserve | Release | Submit | Sent(channel: nat) | SendFailed(channel: nat) | DropStream(channel: nat)
    | Join(worker: nat, token: nat, declared: u32) | Hear(worker: nat, frame: Frame, full: set<nat>)
    | ReaderExit(worker: nat, full: set<nat>) | Remove(worker: nat)
    | Tick(elapsed: nat) | Sweep | Confirm(worker: nat, token: nat, idle: bool)

  // --- the table ---

  function Wrap(x: nat): u32 { x % U32_LIMIT }

  /** The candidate after j steps of the wrapping counter. */
  function Candidate32(c: u32, j: nat): u32 { Wrap(c + j) }

  /** The first candidate at or after `c`, wrapping, that is not in `used`. */
  function NextFree(used: set<u32>, c: u32): u32
    decreases |used|
  {
    if c !in used then c else NextFree(used - {c}, Wrap(c + 1))
  }

  function FreshId(t: Table): u32 { NextFree(t.pending.Keys, t.nextId) }

  function Insert(t: Table, channel: nat): Table {
    var id := FreshId(t);
    Table(t.pending[id := Pending(channel, None, None, false, None)], Wrap(id + 1), t.inFlight + 1)
  }

  /** `remove_pending`: whatever stands at the id goes. */
  function RemovePending(t: Table, id: u32): Table {
    if id in t.pending then t.(pending := t.pending - {id}, inFlight := t.inFlight - 1) else t
  }

  predicate Unclaimed(p: Pendings, id: u32) {
    id in p && p[id].claimedBy.None?
  }

  /** `remove_if_unclaimed`. */
  function RemoveIfUnclaimed(t: Table, id: u32): Table {
    if Unclaimed(t.pending, id) then RemovePending(t, id) else t
  }

  function MarkClaimed(t: Table, id: u32, w: nat, now: nat): Table
    requires id in t.pending
  {
    t.(pending := t.pending[id := t.pending[id].(claimedBy := Some(w), claimedAt := Some(now))])
  }

  /** The drain of a reader: all its ids go. */
  function RemoveAll(t: Table, ids: set<u32>): Table {
    t.(pending := t.pending - ids, inFlight := t.inFlight - |t.pending.Keys * ids|)
  }

  // --- the crew ---

  /** The handshake: declared concurrency capped by the configuration, but the first worker's value wins. */
  function Grant(cfg: Config, seeded: nat, declared: u32): nat {
    if seeded != 0 then seeded
    else
      var least := if declared < cfg.concurrencyCap then declared else cfg.concurrencyCap;
      if least == UNBOUNDED then DEFAULT_CONCURRENCY_CAP else least
  }

  function Enlist(crew: Crew, w: nat, token: nat, granted: nat, stream: nat, now: nat): Crew {
    crew.(workers := crew.workers[w := Worker(token, granted, false, now)],
          readers := crew.readers[w := Reader(stream, {})], granted := granted)
  }

  function WithClaimed(crew: Crew, w: nat, claimed: set<u32>): Crew
    requires w in crew.readers
  {
    crew.(readers := crew.readers[w := crew.readers[w].(claimed := claimed)])
  }

  function WithoutReader(crew: Crew, w: nat): Crew {
    crew.(readers := crew.readers - {w})
  }

  /** The slot's task after the reader's exit: after a healthy uptime it returns, and its id with it; otherwise it goes
      on to fill the slot again. */
  function Dismiss(cfg: Config, crew: Crew, w: nat, now: nat): Crew {
    if w in crew.readers || w !in crew.workers then crew
    else
      crew.(workers := crew.workers - {w},
            retired := if Since(now, crew.workers[w].up) < cfg.healthyUptime then crew.retired else crew.retired + {w})
  }

  /** `kill_requested.swap(true)` and, the first time, the kill. */
  function Kill(crew: Crew, w: nat, token: nat): Crew {
    if w in crew.workers && !crew.workers[w].killRequested then
      crew.(workers := crew.workers[w := crew.workers[w].(killRequested := true)], kills := crew.kills + [token])
    else crew
  }

  // --- channels and history ---

  function Clamp(x: nat): nat {
    if x < 100 then 100 else if x > 599 then 599 else x
  }

  /** The event a frame becomes, if any. */
  function Translate(f: Frame): seq<Event> {
    match f.kind
    case ResponseHeaders => [EvHeaders(Clamp(f.aux), f.payload)]
    case ResponseBody => [EvChunk(f.payload)]
    case Flush => [EvFlush]
    case WsMessage => [EvWs(f.aux, f.payload)]
    case End => [EvEnd]
    case Done => [EvEnd]
    case Error => [EvFailed(WorkerFailed)]
    case _ => []
  }

  /** What the channel of a claimed request gets of a frame for it, kind by kind. A status outside 100..599 becomes the
      nearer end. */
  predicate Carried(f: Frame, evs: seq<Event>) {
    match f.kind
    case ResponseHeaders =>
      && |evs| == 1 && evs[0].EvHeaders? && evs[0].headers == f.payload
      && (100 <= f.aux <= 599 ==> evs[0].status == f.aux)
      && (f.aux < 100 ==> evs[0].status == 100) && (f.aux > 599 ==> evs[0].status == 599)
    case ResponseBody => evs == [EvChunk(f.payload)]
    case WsMessage => evs == [EvWs(f.aux, f.payload)]
    case Flush => evs == [EvFlush]
    case End => evs == [EvEnd]
    case Done => evs == [EvEnd]
    case Error => evs == [EvFailed(WorkerFailed)]
    case _ => evs == []
  }

  lemma {:induction false} TranslationIsCarried(f: Frame)
    ensures Carried(f, Translate(f))
  {
  }

  predicate RequestScoped(k: FrameKind) {
    !k.Claim? && !k.Log? && !k.Pong?
  }

  predicate Terminal(f: Frame, id: u32) {
    f.id == id && (f.kind.Done? || f.kind.Error?)
  }

  function Heard(trace: Trace, stream: nat, f: Frame): Trace {
    if stream < |trace.streams| then trace.(streams := trace.streams[stream := trace.streams[stream] + [f]]) else trace
  }

  /** How many frames of the stream have been heard. */
  function Length(trace: Trace, stream: nat): nat {
    if stream < |trace.streams| then |trace.streams[stream]| else 0
  }

  function Send(trace: Trace, c: nat, evs: seq<Event>): Trace {
    if c < |trace.channels| then trace.(channels := trace.channels[c := trace.channels[c].(sent := trace.channels[c].sent + evs)])
    else trace
  }

  /** The claim whose frame is the last one heard. */
  function Record(trace: Trace, c: nat, stream: nat, id: u32, now: nat): Trace {
    var n := Length(trace, stream);
    trace.(claims := trace.claims[c := ClaimRecord(stream, if n > 0 then n - 1 else 0, id, now, Live)])
  }

  function Finish(trace: Trace, c: nat, stream: nat): Trace {
    if c in trace.claims then trace.(claims := trace.claims[c := trace.claims[c].(fate := Finished(Length(trace, stream)))])
    else trace
  }

  function Told(ch: Channel, tell: bool): Channel {
    if tell then ch.(sent := ch.sent + [EvFailed(WorkerFailed)]) else ch
  }

  function Closed(cl: ClaimRecord, gone: bool, end: nat, told: bool): ClaimRecord {
    if gone then cl.(fate := Gone(end, told)) else cl
  }

  /** The reader of `stream` is gone: its requests fail, except that a full channel is not told. */
  function TellGone(trace: Trace, gone: set<nat>, full: set<nat>, stream: nat): Trace {
    trace.(channels := seq(|trace.channels|, c requires 0 <= c < |trace.channels| =>
           Told(trace.channels[c], c in gone - full)),
         claims := map c | c in trace.claims :: Closed(trace.claims[c], c in gone, Length(trace, stream), c !in full))
  }

  function Bumped(ch: Channel, hit: bool): Channel {
    if hit then ch.(aborts := ch.aborts + 1) else ch
  }

  function CountAborts(trace: Trace, hit: set<nat>): Trace {
    trace.(channels := seq(|trace.channels|, c requires 0 <= c < |trace.channels| => Bumped(trace.channels[c], c in hit)))
  }

  /** The requests of a set of ids, by channel. */
  function ChannelsOf(pending: Pendings, ids: set<u32>): set<nat> {
    set id | id in ids && id in pending :: pending[id].channel
  }

  // --- submit and its ends ---

  function SubmitStep(s: State): State {
    var c := |s.trace.channels|;
    s.(table := Insert(s.table, c),
       permits := s.permits.(reserved := if s.permits.reserved > 0 then s.permits.reserved - 1 else 0,
                             sending := s.permits.sending[c := FreshId(s.table)]),
       trace := s.trace.(channels := s.trace.channels + [Channel([], 0)]))
  }

  function SentStep(s: State, c: nat): State
    requires c in s.permits.sending
  {
    s.(permits := s.permits.(sending := s.permits.sending - {c}, open := s.permits.open[c := s.permits.sending[c]]))
  }

  function SendFailedStep(s: State, c: nat): State
    requires c in s.permits.sending
  {
    s.(table := RemovePending(s.table, s.permits.sending[c]),
       permits := s.permits.(sending := s.permits.sending - {c}, available := s.permits.available + 1))
  }

  function DropStreamStep(s: State, c: nat): State
    requires c in s.permits.open
  {
    s.(table := RemoveIfUnclaimed(s.table, s.permits.open[c]),
       permits := s.permits.(open := s.permits.open - {c}, available := s.permits.available + 1))
  }

  // --- readers ---

  function JoinStep(cfg: Config, s: State, w: nat, token: nat, declared: u32): State {
    s.(crew := Enlist(s.crew, w, token, Grant(cfg, s.crew.granted, declared), |s.trace.streams|, s.now),
       trace := s.trace.(streams := s.trace.streams + [[]]))
  }

  function ClaimStep(s: State, w: nat, id: u32): State
    requires w in s.crew.readers
  {
    if Unclaimed(s.table.pending, id) then
      s.(table := MarkClaimed(s.table, id, w, s.now),
         crew := WithClaimed(s.crew, w, s.crew.readers[w].claimed + {id}),
         trace := Record(s.trace, s.table.pending[id].channel, s.crew.readers[w].stream, id, s.now))
    else s
  }

  /** A frame that leaves the slot in place: the event goes to the request's channel. */
  function ForwardStep(s: State, f: Frame): State {
    if f.id in s.table.pending then s.(trace := Send(s.trace, s.table.pending[f.id].channel, Translate(f))) else s
  }

  /** `Done` and `Error`: the slot is freed and the channel gets its last event. */
  function FinishStep(s: State, w: nat, f: Frame): State
    requires w in s.crew.readers
  {
    s.(table := RemovePending(s.table, f.id),
       crew := WithClaimed(s.crew, w, s.crew.readers[w].claimed - {f.id}),
       trace := if f.id in s.table.pending then
                var c := s.table.pending[f.id].channel;
                Finish(Send(s.trace, c, Translate(f)), c, s.crew.readers[w].stream)
              else s.trace)
  }

  /** The drain after a reader's loop; `full` are the channels whose `try_send` found no room. */
  function ExitStep(s: State, w: nat, full: set<nat>): State
    requires w in s.crew.readers
  {
    var r := s.crew.readers[w];
    s.(table := RemoveAll(s.table, r.claimed), crew := WithoutReader(s.crew, w),
       trace := TellGone(s.trace, ChannelsOf(s.table.pending, r.claimed), full, r.stream))
  }

  /** What one turn of `reader_task` does with a frame. */
  datatype Turn = Drop | OverClaim | TakeClaim | Free | Forward

  function TurnFor(crew: Crew, w: nat, f: Frame): Turn
    requires w in crew.readers
  {
    if RequestScoped(f.kind) && f.id !in crew.readers[w].claimed then Drop
    else if f.kind.Claim? then
      if w in crew.workers && |crew.readers[w].claimed| >= crew.workers[w].granted then OverClaim else TakeClaim
    else if f.kind.Done? || f.kind.Error? then Free
    else if RequestScoped(f.kind) then Forward
    else Drop
  }

  function TookStep(s: State, w: nat, f: Frame): State
    requires w in s.crew.readers
  {
    s.(trace := Heard(s.trace, s.crew.readers[w].stream, f))
  }

  function OverClaimStep(s: State, w: nat, full: set<nat>): State
    requires w in s.crew.readers
  {
    ExitStep(s.(crew := if w in s.crew.workers then Kill(s.crew, w, s.crew.workers[w].token) else s.crew), w, full)
  }

  function HearStep(s: State, w: nat, f: Frame, full: set<nat>): State
    requires w in s.crew.readers
  {
    var t := TookStep(s, w, f);
    match TurnFor(s.crew, w, f)
    case Drop => t
    case OverClaim => OverClaimStep(t, w, full)
    case TakeClaim => ClaimStep(t, w, f.id)
    case Free => FinishStep(t, w, f)
    case Forward => ForwardStep(t, f)
  }

  // --- the sweep ---

  /** `Instant::duration_since` saturates at zero. */
  function Since(now: nat, then_: nat): nat {
    if now >= then_ then now - then_ else 0
  }

  predicate OverBudget(cfg: Config, p: Pending, now: nat) {
    p.claimedAt.Some? && !p.abortSent && Since(now, p.claimedAt.value) >= cfg.taskTimeout
  }

  predicate IsDefiant(cfg: Config, p: Pending, now: nat) {
    p.claimedAt.Some? && p.abortSent && p.abortedAt.Some? && Since(now, p.abortedAt.value) >= cfg.grace
  }

  function ToAbort(cfg: Config, pending: Pendings, now: nat): set<u32> {
    set id | id in pending && OverBudget(cfg, pending[id], now)
  }

  /** The defiant tasks of worker w. */
  function DefiantOf(cfg: Config, pending: Pendings, now: nat, w: nat): set<u32> {
    set id | id in pending && IsDefiant(cfg, pending[id], now) && pending[id].claimedBy == Some(w)
  }

  /** Task id is worker w's, its Abort has gone out, and at least `grace` ago by the clock. */
  predicate StuckWith(cfg: Config, pending: Pendings, now: nat, w: nat, id: u32) {
    && id in pending && pending[id].claimedBy == Some(w) && pending[id].claimedAt.Some?
    && pending[id].abortSent && pending[id].abortedAt.Some?
    && (pending[id].abortedAt.value + cfg.grace <= now || cfg.grace == 0)
  }

  function StuckOf(cfg: Config, pending: Pendings, now: nat, w: nat): set<u32> {
    set id | id in pending && StuckWith(cfg, pending, now, w, id)
  }

  /** Whom a sweep names, by number: a live worker not flagged yet that is stuck with at least one task and with so many
      that twice their number and one reach its grant. */
  predicate Overdue(cfg: Config, s: State, w: nat) {
    && w in s.crew.workers && !s.crew.workers[w].killRequested
    && var d := |StuckOf(cfg, s.table.pending, s.now, w)|; d >= 1 && s.crew.workers[w].granted <= 2 * d + 1
  }

  function Threshold(granted: nat): nat {
    if granted / 2 > 1 then granted / 2 else 1
  }

  predicate KillCandidate(cfg: Config, s: State, w: nat) {
    w in s.crew.workers && !s.crew.workers[w].killRequested
    && |DefiantOf(cfg, s.table.pending, s.now, w)| >= Threshold(s.crew.workers[w].granted)
  }

  lemma {:induction false} CandidatesByNumber(cfg: Config, s: State, w: nat)
    ensures KillCandidate(cfg, s, w) <==> Overdue(cfg, s, w)
  {
    assert DefiantOf(cfg, s.table.pending, s.now, w) == StuckOf(cfg, s.table.pending, s.now, w);
  }

  /** Whom a sweep aborts: a claimed task, not aborted yet, whose claim is at least `taskTimeout` ago by the clock. */
  predicate RanOver(cfg: Config, pending: Pendings, now: nat, id: u32) {
    && id in pending && pending[id].claimedAt.Some? && !pending[id].abortSent
    && (pending[id].claimedAt.value + cfg.taskTimeout <= now || cfg.taskTimeout == 0)
  }

  function Marked(p: Pending, mark: bool, now: nat): Pending {
    if mark then p.(abortSent := true, abortedAt := Some(now)) else p
  }

  function MarkAborted(pending: Pendings, ids: set<u32>, now: nat): Pendings {
    map id | id in pending :: Marked(pending[id], id in ids, now)
  }

  /** The candidates of one pass, each with the token it has now. */
  function Candidates(cfg: Config, s: State): set<(nat, nat)> {
    set w | w in s.crew.workers && KillCandidate(cfg, s, w) :: (w, s.crew.workers[w].token)
  }

  function SweepStep(cfg: Config, s: State): State {
    var ids := ToAbort(cfg, s.table.pending, s.now);
    s.(table := s.table.(pending := MarkAborted(s.table.pending, ids, s.now)),
       crew := s.crew.(named := s.crew.named + Candidates(cfg, s)),
       trace := CountAborts(s.trace, ChannelsOf(s.table.pending, ids)))
  }

  /** After the probe of a candidate: spared when idle or gone, otherwise flagged and killed by the token
      the sweep saw. */
  function ConfirmStep(s: State, w: nat, token: nat, idle: bool): State {
    var crew := s.crew.(named := s.crew.named - {(w, token)});
    s.(crew := if idle then crew else Kill(crew, w, token))
  }

  // --- runs ---

  function ReserveStep(s: State): State {
    if s.permits.available > 0
    then s.(permits := s.permits.(available := s.permits.available - 1, reserved := s.permits.reserved + 1)) else s
  }

  function ReleaseStep(s: State): State {
    if s.permits.reserved > 0
    then s.(permits := s.permits.(available := s.permits.available + 1, reserved := s.permits.reserved - 1)) else s
  }

  /** An action that is not enabled changes nothing. */
  function Next(cfg: Config, s: State, a: Action): State {
    match a
    case Reserve => ReserveStep(s)
    case Release => ReleaseStep(s)
    case Submit => if s.permits.reserved > 0 then SubmitStep(s) else s
    case Sent(c) => if c in s.permits.sending then SentStep(s, c) else s
    case SendFailed(c) => if c in s.permits.sending then SendFailedStep(s, c) else s
    case DropStream(c) => if c in s.permits.open then DropStreamStep(s, c) else s
    case Join(w, token, declared) => if w in s.crew.workers || w in s.crew.retired then s else JoinStep(cfg, s, w, token, declared)
    case Hear(w, f, full) => if w in s.crew.readers then HearStep(s, w, f, full) else s
    case ReaderExit(w, full) => if w in s.crew.readers then ExitStep(s, w, full) else s
    case Remove(w) => s.(crew := Dismiss(cfg, s.crew, w, s.now))
    case Tick(d) => s.(now := s.now + d)
    case Sweep => SweepStep(cfg, s)
    case Confirm(w, token, idle) => if (w, token) in s.crew.named then ConfirmStep(s, w, token, idle) else s
  }

  /** What the environment owes the pool: a worker claims only ids whose datagram has been sent, and the
      id counter has not come round to an id some live submit or response stream still names. */
  predicate Fair(s: State, a: Action) {
    match a
    case Submit => FreshId(s.table) !in s.permits.sending.Values && FreshId(s.table) !in s.permits.open.Values
    case Hear(_, f, _) => f.kind.Claim? ==> f.id !in s.permits.sending.Values
    case _ => true
  }

  function Run(cfg: Config, actions: seq<Action>): State {
    if actions == [] then Init(cfg)
    else Next(cfg, Run(cfg, actions[..|actions| - 1]), actions[|actions| - 1])
  }

  ghost predicate FairRun(cfg: Config, actions: seq<Action>) {
    forall i | 0 <= i < |actions| :: Fair(Run(cfg, actions[..i]), actions[i])
  }
}
