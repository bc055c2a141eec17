/** The whole job service as a transition system: dispatch through the replay cache, the registry's
    lock-held blocks run by any number of executor threads, the disk, crashes inside any block, and
    restarts. Steps interleave freely; the environment chooses ids, clocks and process results. */
module JobSystem {
  import opened Wrappers
  import opened JobModels
  import opened JobStore
  import opened JobRegistry
  import Idempotency

  /** Where a submitted `_run` stands; between two of these its thread holds no lock. */
  datatype Pc =
    | Pending                          // submitted, first block not run
    | Creating                         // calling the process factory
    | CreationFailed                   // the factory raised OSError
    | Created(process: Process)
    | Waiting(handle: nat)             // in process.wait()
    | Exited(handle: nat, result: Result)
    | Done
    | Lost                             // JobNotFoundError ended the thread
    | Raised                           // an error that `_run` does not catch ended it, record and disk as they were

  predicate Finished(pc: Pc) { pc.Done? || pc.Lost? || pc.Raised? }

  datatype Payload = StartPayload(raw: nat, request: StartRequest) | OtherPayload(raw: nat)
  datatype Call = Call(operationId: OperationId, payload: Payload, requestedAt: Time)
  datatype Answer = StartAnswer(snapshot: Snapshot) | OtherAnswer(raw: nat)
  type Cache = map<OperationId, Idempotency.Entry<Payload, Answer>>

  /** The call that holds the replay cache's lock. */
  datatype Flight = Operating(call: Call) | Answered(call: Call, answer: Answer)

  datatype Closing = Open | Cancelling(left: set<JobId>) | CloseRaised | CloseReturned

  datatype Node =
    | Down
    | Up(mem: Memory, tasks: map<JobId, Pc>, cache: Cache, flight: Option<Flight>, closing: Closing)

  /** A request and the job it was given. */
  datatype Pair = Pair(op: OperationId, digest: Digest, id: JobId)

  /** `submissions`, `replies`, `dropped`, `born` and `usedIds` record the past and decide no step but the
      freshness of ids. `born` has every job whose metadata was ever on disk. */
  datatype World = World(
    disk: Disk,
    node: Node,
    clock: Time,
    usedIds: set<JobId>,
    handles: nat,
    submissions: seq<Pair>,
    replies: seq<Pair>,
    dropped: set<OperationId>,
    born: set<Pair>)

  datatype Config = Config(retention: Time, ttl: Time)

  datatype Step =
    | Restart(files: seq<JobId>, now: Time, loadNow: Time)
    | BeginCall(call: Call)
    | StartJob(newId: JobId, now: Time)
    | OtherOperation(raw: nat)
    | OperationRaises
    | EndCall
    | StartDirect(request: StartRequest, newId: JobId, now: Time)
    | Cancel(id: JobId, now: Time)
    | RunCheck(id: JobId)
    | CreateProcess(id: JobId, pid: int)
    | CreateFails(id: JobId)                       // OSError
    | RunRaises(id: JobId)                         // the factory or `wait` raises any other error
    | RunFactoryFailed(id: JobId, now: Time)
    | RunAttach(id: JobId, now: Time)
    | ProcessExits(id: JobId, result: Result)
    | RunFinish(id: JobId, now: Time)
    | CloseBegins
    | CloseCancels(id: JobId, now: Time)
    | CloseReturns
    | Cleanup(files: seq<JobId>, now: Time)

  /** A step completes, or the node dies after the first k disk writes of it. */
  datatype Event = Complete(step: Step) | CrashIn(step: Step, k: nat) | Crash

  function StepTime(w: World, s: Step): Time {
    match s
    case Restart(_, now, loadNow) => loadNow
    case StartJob(_, now) => now
    case StartDirect(_, _, now) => now
    case Cancel(_, now) => now
    case RunFactoryFailed(_, now) => now
    case RunAttach(_, now) => now
    case RunFinish(_, now) => now
    case CloseCancels(_, now) => now
    case Cleanup(_, now) => now
    case _ => w.clock
  }

  ghost predicate FreshId(w: World, newId: JobId) { newId !in w.usedIds || newId in w.disk.meta }

  predicate AtPc(w: World, id: JobId) { w.node.Up? && id in w.node.tasks }

  /** When a step may happen. The clock never goes back, a listing names each metadata file once, and
      a proposed job id was never the id of a job that retention has since removed. */
  ghost predicate Enabled(w: World, s: Step) {
    && w.clock <= StepTime(w, s)
    && (s.Restart? <==> w.node.Down?)
    && match s
       case Restart(files, now, loadNow) => Listing(files, w.disk.meta) && w.clock <= now <= loadNow
       case BeginCall(call) =>
         w.node.flight.None?
         && (call.payload.StartPayload? ==> call.payload.request.operationId == call.operationId)
       case StartJob(newId, _) =>
         FreshId(w, newId) && w.node.flight.Some? && w.node.flight.value.Operating?
         && w.node.flight.value.call.payload.StartPayload?
       case OtherOperation(_) =>
         w.node.flight.Some? && w.node.flight.value.Operating? && w.node.flight.value.call.payload.OtherPayload?
       case OperationRaises =>
         w.node.flight.Some? && w.node.flight.value.Operating? && w.node.flight.value.call.payload.OtherPayload?
       case EndCall => w.node.flight.Some? && w.node.flight.value.Answered?
       case StartDirect(_, newId, _) => FreshId(w, newId)
       case Cancel(_, _) => true
       case RunCheck(id) => AtPc(w, id) && w.node.tasks[id].Pending?
       case CreateProcess(id, pid) => AtPc(w, id) && w.node.tasks[id].Creating? && pid > 0
       case CreateFails(id) => AtPc(w, id) && w.node.tasks[id].Creating?
       case RunRaises(id) => AtPc(w, id) && (w.node.tasks[id].Creating? || w.node.tasks[id].Waiting?)
       case RunFactoryFailed(id, _) => AtPc(w, id) && w.node.tasks[id].CreationFailed?
       case RunAttach(id, _) => AtPc(w, id) && w.node.tasks[id].Created?
       case ProcessExits(id, _) => AtPc(w, id) && w.node.tasks[id].Waiting?
       case RunFinish(id, _) => AtPc(w, id) && w.node.tasks[id].Exited?
       case CloseBegins => true
       case CloseCancels(id, _) => w.node.closing.Cancelling? && id in w.node.closing.left
       case CloseReturns =>
         w.node.closing == Cancelling({}) && forall id | id in w.node.tasks :: Finished(w.node.tasks[id])
       case Cleanup(files, _) => Listing(files, w.disk.meta)
  }

  /** What a step makes of the node, its disk writes in order, and what it lets out. */
  datatype Outcome = Outcome(
    node: Node, ops: seq<DiskOp>, ids: set<JobId>, handles: nat, submits: seq<Pair>, replies: seq<Pair>)

  function Quiet(w: World, node: Node): Outcome { Outcome(node, [], {}, w.handles, [], []) }

  function Writing(w: World, node: Node, ops: seq<DiskOp>): Outcome { Outcome(node, ops, {}, w.handles, [], []) }

  /** One `registry.start`, and the answer `answered` makes of it. */
  function Starting(w: World, r: StartRequest, newId: JobId, now: Time, viaCache: bool): Outcome
    requires w.node.Up?
    requires viaCache ==> w.node.flight.Some?
  {
    var (block, reply) := StartBlock(w.node.mem, r, newId, now);
    var node := w.node.(mem := block.mem);
    match reply
    case Accepted(s, submitted) =>
      var node := if submitted then node.(tasks := node.tasks[newId := Pending]) else node;
      var node := if viaCache then node.(flight := Some(Answered(w.node.flight.value.call, StartAnswer(s)))) else node;
      Outcome(node, block.ops, if submitted then {newId} else {}, w.handles,
              if submitted then [Pair(r.operationId, r.digest, newId)] else [],
              if viaCache then [] else [Pair(r.operationId, r.digest, s.jobId)])
    case _ => Quiet(w, if viaCache then w.node.(flight := None) else w.node)
  }

  function SetPc(node: Node, id: JobId, pc: Pc): Node
    requires node.Up?
  {
    node.(tasks := node.tasks[id := pc])
  }

  function ReplyOf(call: Call, answer: Answer): seq<Pair> {
    if call.payload.StartPayload? && answer.StartAnswer? 
    then [Pair(call.operationId, call.payload.request.digest, answer.snapshot.jobId)] else []
  }

  function Begun(w: World, call: Call): Outcome
    requires w.node.Up?
  {
    match Idempotency.Look(w.node.cache, call.operationId, call.payload, call.requestedAt)
    case Hit(answer) => Quiet(w, w.node).(replies := ReplyOf(call, answer))
    case Conflict => Quiet(w, w.node)
    case Miss => Quiet(w, w.node.(cache := Idempotency.Purge(w.node.cache, call.operationId, call.requestedAt),
                                  flight := Some(Operating(call))))
  }

  function Ended(w: World, ttl: Time): Outcome
    requires w.node.Up? && w.node.flight.Some? && w.node.flight.value.Answered?
  {
    var Answered(call, answer) := w.node.flight.value;
    var entry := Idempotency.Entry(call.payload, answer, call.requestedAt + ttl);
    Quiet(w, w.node.(cache := w.node.cache[call.operationId := entry], flight := None))
      .(replies := ReplyOf(call, answer))
  }

  function Perform(c: Config, w: World, s: Step): Outcome
    requires Enabled(w, s)
  {
    var n := w.node;
    match s
    case Restart(files, now, loadNow) =>
      var (mem, ops) := RecoverBlock(w.disk.meta, files, now, loadNow - c.retention);
      Writing(w, if mem.Some? then Up(mem.value, map[], map[], None, Open) else Down, ops)
    case BeginCall(call) => Begun(w, call)
    case StartJob(newId, now) => Starting(w, n.flight.value.call.payload.request, newId, now, true)
    case OtherOperation(raw) => Quiet(w, n.(flight := Some(Answered(n.flight.value.call, OtherAnswer(raw)))))
    case OperationRaises => Quiet(w, n.(flight := None))
    case EndCall => Ended(w, c.ttl)
    case StartDirect(r, newId, now) => Starting(w, r, newId, now, false)
    case Cancel(id, now) =>
      if id !in n.mem.records then Quiet(w, n)
      else var b := CancelBlock(n.mem, id, now); Writing(w, n.(mem := b.mem), b.ops)
    case RunCheck(id) =>
      Quiet(w, SetPc(n, id, if id !in n.mem.records then Lost
                            else if n.mem.records[id].snapshot.state.CANCELLED? then Done else Creating))
    case CreateProcess(id, pid) =>
      Quiet(w, SetPc(n, id, Created(Process(w.handles, pid)))).(handles := w.handles + 1)
    case CreateFails(id) => Quiet(w, SetPc(n, id, CreationFailed))
    case RunRaises(id) => Quiet(w, SetPc(n, id, Raised))
    case RunFactoryFailed(id, now) =>
      if id !in n.mem.records then Quiet(w, SetPc(n, id, Lost))
      else var b := FactoryFailedBlock(n.mem, id, now);
           Writing(w, SetPc(n, id, Done).(mem := b.mem), b.ops)
    case RunAttach(id, now) =>
      var p := n.tasks[id].process;
      if id !in n.mem.records then Quiet(w, SetPc(n, id, Lost))
      else var b := AttachBlock(n.mem, id, p, now);
           Writing(w, SetPc(n, id, Waiting(p.handle)).(mem := b.mem), b.ops)
    case ProcessExits(id, result) => Quiet(w, SetPc(n, id, Exited(n.tasks[id].handle, result)))
    case RunFinish(id, now) =>
      if id !in n.mem.records then Quiet(w, SetPc(n, id, Lost))
      else var b := FinishBlock(n.mem, id, n.tasks[id].result, now);
           Writing(w, SetPc(n, id, Done).(mem := b.mem), b.ops)
    case CloseBegins =>
      Quiet(w, if n.mem.closed then n
               else n.(mem := n.mem.(closed := true), closing := Cancelling(ActiveJobs(n.mem))))
    case CloseCancels(id, now) =>
      if id !in n.mem.records then Quiet(w, n.(closing := CloseRaised))
      else var b := CancelBlock(n.mem, id, now);
           Writing(w, n.(mem := b.mem, closing := Cancelling(n.closing.left - {id})), b.ops)
    case CloseReturns => Quiet(w, n.(closing := CloseReturned))
    case Cleanup(files, now) =>
      var (mem, ops) := CleanupBlock(n.mem, w.disk.meta, files, now - c.retention);
      Writing(w, if mem.Some? then n.(mem := mem.value) else n, ops)
  }

  /** Operations whose job's metadata is gone after the writes. */
  function DroppedBy(before: map<JobId, Snapshot>, after: map<JobId, Snapshot>): set<OperationId> {
    set id | id in before && id !in after :: before[id].operationId
  }

  function Births(meta: map<JobId, Snapshot>): set<Pair> {
    set id | id in meta :: Pair(meta[id].operationId, meta[id].requestDigest, id)
  }

  function Commit(w: World, o: Outcome, now: Time): World {
    var disk := ApplyOps(w.disk, o.ops);
    World(disk, o.node, now, w.usedIds + o.ids, o.handles, w.submissions + o.submits, w.replies + o.replies,
          w.dropped + DroppedBy(w.disk.meta, disk.meta), w.born + Births(disk.meta))
  }

  function Torn(w: World, o: Outcome, now: Time, k: nat): World {
    var disk := ApplyOps(w.disk, if k <= |o.ops| then o.ops[..k] else o.ops);
    World(disk, Down, now, w.usedIds + o.ids, o.handles, w.submissions, w.replies,
          w.dropped + DroppedBy(w.disk.meta, disk.meta), w.born + Births(disk.meta))
  }

  // ---- The invariant ----

  ghost predicate UniqueOperations(meta: map<JobId, Snapshot>) {
    forall a, b | a in meta && b in meta && meta[a].operationId == meta[b].operationId :: a == b
  }

  ghost predicate DiskInv(meta: map<JobId, Snapshot>, clock: Time, used: set<JobId>) {
    && Named(meta) && AllValid(meta) && UniqueOperations(meta)
    && (forall id | id in meta :: meta[id].updatedAt <= clock && id in used)
  }

  /** In-memory snapshots are the disk metadata. */
  ghost predicate Synced(m: Memory, meta: map<JobId, Snapshot>) {
    m.records.Keys == meta.Keys && forall id | id in meta :: m.records[id].snapshot == meta[id]
  }

  /** The operation index is a bijection with the records. */
  ghost predicate IndexExact(m: Memory, meta: map<JobId, Snapshot>) {
    && (forall op | op in m.operationJobs ::
          var (id, digest) := m.operationJobs[op];
          id in m.records && id in meta && meta[id].operationId == op && meta[id].requestDigest == digest)
    && (forall id | id in meta ::
          meta[id].operationId in m.operationJobs && m.operationJobs[meta[id].operationId].0 == id)
  }

  function Count(audits: seq<Audit>, id: JobId): nat {
    if audits == [] then 0
    else Count(audits[..|audits| - 1], id) + (if audits[|audits| - 1].jobId == id then 1 else 0)
  }

  /** What the audit recorder holds about a job: how many entries, and whether one says CANCELLED. */
  datatype Trail = Trail(entries: nat, cancelled: bool)

  function TrailOf(audits: seq<Audit>, id: JobId): Trail { Trail(Count(audits, id), Audit(id, CANCELLED) in audits) }

  /** Before its last block a job is audited exactly when it was cancelled. */
  predicate TrailOpen(state: JobState, a: Trail) {
    a.cancelled == state.CANCELLED? && a.entries == if state.CANCELLED? then 1 else 0
  }

  /** What a record may look like while its thread stands at `pc`, and what was audited about it. */
  ghost predicate Fits(pc: Pc, r: Record, a: Trail) {
    var state := r.snapshot.state;
    match pc
    case Pending => state in {QUEUED, CANCELLED} && r.process == None && r.snapshot.exitCode == None && TrailOpen(state, a)
    case Creating => state in {QUEUED, CANCELLED} && r.process == None && r.snapshot.exitCode == None && TrailOpen(state, a)
    case CreationFailed =>
      state in {QUEUED, CANCELLED} && r.process == None && r.snapshot.exitCode == None && TrailOpen(state, a)
    case Created(p) => state in {QUEUED, CANCELLED} && r.process == None && r.snapshot.exitCode == None
                    && p.pid > 0 && TrailOpen(state, a)
    case Waiting(h) => state in {RUNNING, CANCELLED} && r.process.Some? && r.process.value.handle == h
                    && r.snapshot.exitCode == None && TrailOpen(state, a)
    case Exited(h, _) => state in {RUNNING, CANCELLED} && r.process.Some? && r.process.value.handle == h
                    && r.snapshot.exitCode == None && TrailOpen(state, a)
    case Done => state in {SUCCEEDED, FAILED, CANCELLED} && r.process == None
                 && (state.CANCELLED? ==> a.cancelled)
                 && (state.SUCCEEDED? || (state.FAILED? && r.snapshot.exitCode.Some?) ==> !a.cancelled)
                 && a.entries == 1 + if a.cancelled && !StoppedBeforeStart(r.snapshot) then 1 else 0
    case Lost => false
    case Raised => state in {QUEUED, RUNNING, CANCELLED} && (state.QUEUED? ==> r.process == None) && (state.RUNNING? ==> r.process.Some?)
                   && r.snapshot.exitCode == None && TrailOpen(state, a)
  }

  /** Cancelled, and ended by the first block of its thread: nothing was ever started for it. */
  predicate StoppedBeforeStart(s: Snapshot) { s.state.CANCELLED? && s.exitCode.None? }

  ghost predicate TaskFits(n: Node, id: JobId)
    requires n.Up? && id in n.mem.records
  {
    if id in n.tasks then Fits(n.tasks[id], n.mem.records[id], TrailOf(n.mem.audits, id))
    else n.mem.records[id].snapshot.state.Terminal() && n.mem.records[id].process == None
  }

  ghost predicate TasksFit(n: Node)
    requires n.Up?
  {
    forall id | id in n.mem.records :: TaskFits(n, id)
  }

  /** Every process attached to a CANCELLED record has been told to cancel. */
  ghost predicate CancelledTold(m: Memory) {
    forall id | id in m.records && m.records[id].snapshot.state.CANCELLED? && m.records[id].process.Some? ::
      m.records[id].process.value.handle in m.told
  }

  ghost predicate AuditsTerminal(m: Memory) {
    && (forall i | 0 <= i < |m.audits| :: m.audits[i].state.Terminal())
    && (forall id :: Count(m.audits, id) <= 2)
  }

  ghost predicate ClosingInv(n: Node)
    requires n.Up?
  {
    && (n.mem.closed <==> !n.closing.Open?)
    && (n.closing.Cancelling? ==> ActiveJobs(n.mem) <= n.closing.left)
    && (n.closing.CloseReturned? ==>
          ActiveJobs(n.mem) == {} && forall id | id in n.tasks :: Finished(n.tasks[id]))
  }

  /** The job on disk for `op` is `id`, unless retention has removed it. */
  ghost predicate Holds(meta: map<JobId, Snapshot>, dropped: set<OperationId>, op: OperationId, id: JobId) {
    op in dropped || (id in meta && meta[id].operationId == op)
  }

  ghost predicate AnswerHolds(meta: map<JobId, Snapshot>, dropped: set<OperationId>, op: OperationId, p: Payload, a: Answer) {
    p.StartPayload? && a.StartAnswer? ==> Holds(meta, dropped, op, a.snapshot.jobId)
  }

  ghost predicate CacheInv(n: Node, meta: map<JobId, Snapshot>, dropped: set<OperationId>)
    requires n.Up?
  {
    && (forall op | op in n.cache :: AnswerHolds(meta, dropped, op, n.cache[op].request, n.cache[op].result))
    && (n.flight.Some? ==>
          var f := n.flight.value;
          && (f.call.payload.StartPayload? ==> f.call.payload.request.operationId == f.call.operationId)
          && (f.Answered? ==> AnswerHolds(meta, dropped, f.call.operationId, f.call.payload, f.answer)))
  }

  ghost predicate NodeInv(w: World) {
    w.node.Up? ==>
      && Synced(w.node.mem, w.disk.meta)
      && IndexExact(w.node.mem, w.disk.meta)
      && w.node.tasks.Keys <= w.usedIds
      && (forall a | a in w.node.mem.audits :: a.jobId in w.usedIds)
      && TasksFit(w.node) && CancelledTold(w.node.mem) && AuditsTerminal(w.node.mem) && ClosingInv(w.node)
      && CacheInv(w.node, w.disk.meta, w.dropped)
  }

  ghost predicate PastInv(meta: map<JobId, Snapshot>, dropped: set<OperationId>, submissions: seq<Pair>, replies: seq<Pair>) {
    && (forall i | 0 <= i < |submissions| :: Holds(meta, dropped, submissions[i].op, submissions[i].id))
    && (forall i | 0 <= i < |replies| :: Holds(meta, dropped, replies[i].op, replies[i].id))
    && (forall i, k | 0 <= i < k < |submissions| && submissions[i].op == submissions[k].op ::
          submissions[i].op in dropped)
  }

  ghost predicate Inv(w: World) {
    && DiskInv(w.disk.meta, w.clock, w.usedIds)
    && NodeInv(w)
    && PastInv(w.disk.meta, w.dropped, w.submissions, w.replies)
  }

  const START: World := World(Disk(map[], map[]), Down, 0, {}, 0, [], [], {}, {})

  // ---- Runs ----

  /** One event; a step that cannot happen leaves the world alone. */
  ghost function Next(c: Config, w: World, e: Event): World {
    if e.Crash? then w.(node := Down)
    else if !Enabled(w, e.step) then w
    else
      var o := Perform(c, w, e.step);
      if e.Complete? then Commit(w, o, StepTime(w, e.step)) else Torn(w, o, StepTime(w, e.step), e.k)
  }

  ghost function Run(c: Config, w: World, es: seq<Event>): World
    decreases es
  {
    if es == [] then w else Run(c, Next(c, w, es[0]), es[1..])
  }
}
