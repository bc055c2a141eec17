/** What each step of the job service does, read off the disk, the threads and what was replied, and who is
    told of which job. */
module JobEffects {
  import opened Wrappers
  import opened Utf8
  import opened JobModels
  import opened JobStore
  import opened JobRegistry
  import opened JobSystem
  import opened JobInvariant
  import opened JobTheorems
  import Idempotency
  import OutputPaging

  // ---- start ----

  predicate Asks(s: Snapshot, r: StartRequest) { s.operationId == r.operationId }

  /** The metadata of a job just accepted. */
  predicate JustAccepted(s: Snapshot, r: StartRequest, id: JobId, now: Time) {
    && s.jobId == id && s.operationId == r.operationId && s.requestDigest == r.digest && s.kind == r.kind
    && s.state == QUEUED && s.createdAt == now && s.updatedAt == now && s.exitCode == None && s.pid == None
    && s.stdoutBytes == 0 && s.stderrBytes == 0 && s.retainedBytes == 0 && !s.truncated
  }

  /** What `start` replies, by what is on disk: a closed registry refuses; a known operation gets its job if it
      asks for the same and a conflict if it asks for anything else; an unknown one becomes a new job. */
  lemma StartExact(w: World, r: StartRequest, newId: JobId, now: Time)
    requires Inv(w) && w.node.Up?
    ensures var meta := w.disk.meta;
            var (block, reply) := StartBlock(w.node.mem, r, newId, now);
            && (reply.RegistryClosed? <==> w.node.mem.closed)
            && (!w.node.mem.closed ==>
                  && (forall id | id in meta && Asks(meta[id], r) ::
                        reply == if meta[id].requestDigest == r.digest then Accepted(meta[id], false) else ReplayConflict)
                  && ((forall id | id in meta :: !Asks(meta[id], r)) ==>
                        if newId in meta then reply.ReplayConflict?
                        else reply.Accepted? && reply.submitted && JustAccepted(reply.snapshot, r, newId, now)))
            && (reply.Accepted? ==> reply.snapshot.operationId == r.operationId && reply.snapshot.requestDigest == r.digest)
            && (if reply.Accepted? && reply.submitted
                then newId !in meta && ApplyOps(w.disk, block.ops) == w.disk.(meta := meta[newId := reply.snapshot])
                else block.mem == w.node.mem && block.ops == [])
  {
    var mem, meta := w.node.mem, w.disk.meta;
    assert Synced(mem, meta) && IndexExact(mem, meta) && UniqueOperations(meta);
    hide Inv, ApplyOps;
    var (block, reply) := StartBlock(mem, r, newId, now);
    if reply.Accepted? && reply.submitted { OneOp(w.disk, WriteMeta(reply.snapshot)); }
    forall id | id in meta && Asks(meta[id], r) ensures mem.operationJobs[r.operationId] == (id, meta[id].requestDigest) {
      assert meta[id].operationId in mem.operationJobs;
    }
    if r.operationId in mem.operationJobs {
      var id := mem.operationJobs[r.operationId].0;
      assert id in meta && Asks(meta[id], r);
    }
  }

  /** Replay conflict detection is exact: with a fresh id, an open registry refuses a request if and only if some
      job has its operation id under another digest, and then nothing at all changes. */
  lemma ConflictIffOtherDigest(c: Config, w: World, r: StartRequest, newId: JobId, now: Time)
    requires Inv(w) && Enabled(w, StartDirect(r, newId, now)) && !w.node.mem.closed && newId !in w.disk.meta
    ensures var reply := StartBlock(w.node.mem, r, newId, now).1;
            var w' := Next(c, w, Complete(StartDirect(r, newId, now)));
            && (reply.ReplayConflict? <==>
                  exists id :: id in w.disk.meta && Asks(w.disk.meta[id], r) && w.disk.meta[id].requestDigest != r.digest)
            && (!reply.ReplayConflict? ==> reply.Accepted?)
            && (reply.ReplayConflict? ==>
                  w'.disk == w.disk && w'.node == w.node && w'.submissions == w.submissions && w'.replies == w.replies)
  {
    StartExact(w, r, newId, now);
    var reply := StartBlock(w.node.mem, r, newId, now).1;
    hide Inv, StartBlock;
    NoOps(w.disk);
    if reply.ReplayConflict? { Refused(c, w, r, newId, now); }
  }

  lemma Refused(c: Config, w: World, r: StartRequest, newId: JobId, now: Time)
    requires Enabled(w, StartDirect(r, newId, now)) && StartBlock(w.node.mem, r, newId, now).1.ReplayConflict?
    ensures var w' := Next(c, w, Complete(StartDirect(r, newId, now)));
            w'.disk == w.disk && w'.node == w.node && w'.submissions == w.submissions && w'.replies == w.replies
  {
    NoOps(w.disk);
  }

  // ---- Replies over whole runs ----

  function PairOf(s: Snapshot): Pair { Pair(s.operationId, s.requestDigest, s.jobId) }

  ghost predicate AnswerBorn(born: set<Pair>, op: OperationId, p: Payload, a: Answer) {
    p.StartPayload? && a.StartAnswer? ==> Pair(op, p.request.digest, a.snapshot.jobId) in born
  }

  ghost predicate CacheBorn(n: Node, born: set<Pair>)
    requires n.Up?
  {
    && (forall op | op in n.cache :: AnswerBorn(born, op, n.cache[op].request, n.cache[op].result))
    && (n.flight.Some? && n.flight.value.Answered? ==>
          AnswerBorn(born, n.flight.value.call.operationId, n.flight.value.call.payload, n.flight.value.answer))
  }

  ghost predicate BornOnce(born: set<Pair>) {
    forall p, q | p in born && q in born && p.id == q.id :: p == q
  }

  ghost predicate BornInv(w: World) {
    && Births(w.disk.meta) <= w.born && BornOnce(w.born)
    && (forall p | p in w.born :: p.id in w.usedIds)
    && (forall p | p in w.replies :: p in w.born)
    && (w.node.Up? ==> CacheBorn(w.node, w.born))
  }

  lemma BirthsEvolve(m: Meta, m': Meta, now: Time, ids: set<JobId>, used: set<JobId>, born: set<Pair>)
    requires Evolves(m, m', now, ids, used) && Births(m) <= born && BornOnce(born) && forall p | p in born :: p.id in used
    ensures BornOnce(born + Births(m')) && forall p | p in born + Births(m') :: p.id in used + ids
  {
    forall id | id in m' ensures id in used ==> PairOf(m'[id]) in born {
      if id in m { assert Follows(m[id], m'[id]) && PairOf(m'[id]) == Pair(m[id].operationId, m[id].requestDigest, id); }
    }
  }

  /** What a completed step lets out or keeps for later was on disk when it ended. */
  ghost predicate RepliesBorn(w: World, o: Outcome, now: Time) {
    var born := Commit(w, o, now).born;
    && (forall p | p in o.replies :: p in born)
    && (o.node.Up? ==> CacheBorn(o.node, born))
  }

  lemma StartRepliesBorn(w: World, r: StartRequest, newId: JobId, now: Time, viaCache: bool)
    requires Inv(w) && BornInv(w) && w.node.Up?
    requires viaCache ==> w.node.flight.Some? && w.node.flight.value.call.payload.StartPayload?
                          && w.node.flight.value.call.payload.request == r && w.node.flight.value.call.operationId == r.operationId
    ensures RepliesBorn(w, Starting(w, r, newId, now, viaCache), now)
  {
    hide Inv, StartBlock, ApplyOps, Births;
    var reply := StartBlock(w.node.mem, r, newId, now).1;
    if reply.Accepted? { AcceptedBorn(w, r, newId, now, viaCache); }
    AcceptedReplies(w, r, newId, now, viaCache);
  }

  lemma AcceptedBorn(w: World, r: StartRequest, newId: JobId, now: Time, viaCache: bool)
    requires Inv(w) && w.node.Up? && StartBlock(w.node.mem, r, newId, now).1.Accepted?
    requires viaCache ==> w.node.flight.Some?
    ensures var reply := StartBlock(w.node.mem, r, newId, now).1;
            Pair(r.operationId, r.digest, reply.snapshot.jobId) in Commit(w, Starting(w, r, newId, now, viaCache), now).born
  {
    StartExact(w, r, newId, now);
    AcceptedOnDisk(w, r, newId, now);
    var (block, reply) := StartBlock(w.node.mem, r, newId, now);
    assert Pair(r.operationId, r.digest, reply.snapshot.jobId) in Births(ApplyOps(w.disk, block.ops).meta);
    hide Inv, StartBlock, ApplyOps, Births;
  }

  /** An accepted call's pair is all it adds. */
  lemma AcceptedReplies(w: World, r: StartRequest, newId: JobId, now: Time, viaCache: bool)
    requires BornInv(w) && w.node.Up?
    requires viaCache ==> w.node.flight.Some? && w.node.flight.value.call.payload.StartPayload?
                          && w.node.flight.value.call.payload.request == r && w.node.flight.value.call.operationId == r.operationId
    requires var reply := StartBlock(w.node.mem, r, newId, now).1;
             reply.Accepted? ==>
               Pair(r.operationId, r.digest, reply.snapshot.jobId) in Commit(w, Starting(w, r, newId, now, viaCache), now).born
    ensures RepliesBorn(w, Starting(w, r, newId, now, viaCache), now)
  {
    hide StartBlock, ApplyOps, Births;
  }

  lemma AcceptedOnDisk(w: World, r: StartRequest, newId: JobId, now: Time)
    requires Inv(w) && w.node.Up? && StartBlock(w.node.mem, r, newId, now).1.Accepted?
    ensures var (block, reply) := StartBlock(w.node.mem, r, newId, now);
            var meta := ApplyOps(w.disk, block.ops).meta;
            reply.snapshot.jobId in meta && meta[reply.snapshot.jobId] == reply.snapshot
  {
    StartExact(w, r, newId, now);
    NoOps(w.disk);
    assert Synced(w.node.mem, w.disk.meta) && Named(w.disk.meta) && IndexExact(w.node.mem, w.disk.meta);
    hide Inv, ApplyOps, JustAccepted;
    var (block, reply) := StartBlock(w.node.mem, r, newId, now);
    if reply.submitted { assert reply.snapshot.jobId == newId; }
  }

  lemma StepRepliesBorn(c: Config, w: World, s: Step)
    requires Inv(w) && BornInv(w) && Enabled(w, s)
    ensures RepliesBorn(w, Perform(c, w, s), StepTime(w, s))
  {
    match s
    case StartJob(newId, now) => FlightAsks(w); StartRepliesBorn(w, w.node.flight.value.call.payload.request, newId, now, true);
    case StartDirect(r, newId, now) => StartRepliesBorn(w, r, newId, now, false);
    case Restart(_, _, _) => RestartBorn(c, w, s);
    case BeginCall(call) => BeginBorn(w, call, StepTime(w, s));
    case EndCall => EndBorn(w, c.ttl, StepTime(w, s));
    case _ => QuietBorn(c, w, s);
  }

  lemma FlightAsks(w: World)
    requires Inv(w) && w.node.Up? && w.node.flight.Some? && w.node.flight.value.call.payload.StartPayload?
    ensures w.node.flight.value.call.payload.request.operationId == w.node.flight.value.call.operationId
  {}

  lemma RestartBorn(c: Config, w: World, s: Step)
    requires Enabled(w, s) && s.Restart?
    ensures RepliesBorn(w, Perform(c, w, s), StepTime(w, s))
  {
    hide RecoverBlock, ApplyOps, Births;
  }

  lemma BeginBorn(w: World, call: Call, now: Time)
    requires BornInv(w) && w.node.Up?
    ensures RepliesBorn(w, Begun(w, call), now)
  {
    hide ApplyOps, Births;
  }

  lemma EndBorn(w: World, ttl: Time, now: Time)
    requires BornInv(w) && w.node.Up? && w.node.flight.Some? && w.node.flight.value.Answered?
    ensures RepliesBorn(w, Ended(w, ttl), now)
  {
    hide ApplyOps, Births;
  }

  lemma QuietBorn(c: Config, w: World, s: Step)
    requires BornInv(w) && Enabled(w, s)
    requires !s.StartJob? && !s.StartDirect? && !s.Restart? && !s.BeginCall? && !s.EndCall?
    ensures RepliesBorn(w, Perform(c, w, s), StepTime(w, s))
  {
    assert w.node.Up?;
    QuietNode(c, w, s);
    SameRepliesBorn(w, Perform(c, w, s), StepTime(w, s));
    hide Perform, Enabled, BornInv, RepliesBorn;
  }

  /** The other steps reply nothing and leave the cache alone. */
  lemma QuietNode(c: Config, w: World, s: Step)
    requires Enabled(w, s) && w.node.Up?
    requires !s.StartJob? && !s.StartDirect? && !s.Restart? && !s.BeginCall? && !s.EndCall?
    ensures var o := Perform(c, w, s);
            && o.replies == [] && o.node.Up? && o.node.cache == w.node.cache
            && (o.node.flight == w.node.flight || o.node.flight == None
                || (o.node.flight.value.Answered? && o.node.flight.value.answer.OtherAnswer?))
  {
    hide CleanupBlock, CancelBlock, AttachBlock, FinishBlock, FactoryFailedBlock, ActiveJobs;
  }

  lemma SameRepliesBorn(w: World, o: Outcome, now: Time)
    requires BornInv(w) && w.node.Up? && o.replies == [] && o.node.Up? && o.node.cache == w.node.cache
    requires o.node.flight == w.node.flight || o.node.flight == None
             || (o.node.flight.value.Answered? && o.node.flight.value.answer.OtherAnswer?)
    ensures RepliesBorn(w, o, now)
  {
    hide ApplyOps, Births;
  }

  lemma NextKeepsBorn(c: Config, w: World, e: Event)
    requires Inv(w) && BornInv(w)
    ensures BornInv(Next(c, w, e))
  {
    if e.Crash? || !Enabled(w, e.step) { return; }
    StepKeepsInv(c, w, e.step);
    StepRepliesBorn(c, w, e.step);
    var o, now := Perform(c, w, e.step), StepTime(w, e.step);
    hide Perform, Enabled, Inv, CacheBorn, Births, Evolves, ApplyOps;
    var ops := if e.CrashIn? && e.k <= |o.ops| then o.ops[..e.k] else o.ops;
    assert o.ops[..|o.ops|] == o.ops;
    var m' := ApplyOps(w.disk, ops).meta;
    assert Evolves(w.disk.meta, m', now, o.ids, w.usedIds);
    BirthsEvolve(w.disk.meta, m', now, o.ids, w.usedIds, w.born);
  }

  lemma {:induction false} RunKeepsBorn(c: Config, w: World, es: seq<Event>)
    requires Inv(w) && BornInv(w)
    ensures BornInv(Run(c, w, es))
    decreases es
  {
    if es != [] {
      NextKeepsBorn(c, w, es[0]);
      NextKeepsInv(c, w, es[0]);
      hide Inv, BornInv, Next;
      RunKeepsBorn(c, Next(c, w, es[0]), es[1..]);
    }
  }

  /** Over every run, whatever retention removed and whichever way a call was answered: each successful
      `job_start` reply names a job that was on disk under the operation id and the digest of that very request,
      and a job id never stands for another request. */
  lemma RepliesNameTheirRequest(c: Config, es: seq<Event>, p: Pair)
    ensures var w := Run(c, START, es);
            && (p in w.replies ==> p in w.born)
            && (forall q | p in w.born && q in w.born && p.id == q.id :: p == q)
            && (forall id | id in w.disk.meta :: Pair(w.disk.meta[id].operationId, w.disk.meta[id].requestDigest, id) in w.born)
  {
    RunKeepsBorn(c, START, es);
  }

  // ---- The blocks of `_run` ----

  lemma Completed(c: Config, w: World, s: Step)
    requires Enabled(w, s)
    ensures var w', o := Next(c, w, Complete(s)), Perform(c, w, s);
            w'.disk == ApplyOps(w.disk, o.ops) && w'.node == o.node
  {
    hide Perform, Enabled, ApplyOps, Births;
  }

  /** The state follows the exit code unless the job was cancelled, and the figures are those of the result. */
  ghost function Concluded(was: Snapshot, res: Result, now: Time): Snapshot {
    was.(state := if was.state.CANCELLED? then CANCELLED else if res.exitCode == 0 then SUCCEEDED else FAILED,
         exitCode := Some(res.exitCode), updatedAt := now,
         stdoutBytes := res.stdoutBytes, stderrBytes := res.stderrBytes,
         retainedBytes := |Encode(res.stdout)| + |Encode(res.stderr)|, truncated := res.truncated)
  }

  /** The last block: the snapshot is closed with the result, and each stream is stored under its own name. */
  lemma FinishExact(c: Config, w: World, id: JobId, now: Time)
    requires Inv(w) && Enabled(w, RunFinish(id, now)) && id in w.disk.meta
    ensures var res := w.node.tasks[id].result;
            var s := Concluded(w.disk.meta[id], res, now);
            var w' := Next(c, w, Complete(RunFinish(id, now)));
            && w'.disk.meta == w.disk.meta[id := s]
            && w'.disk.output == w.disk.output[(id, STDOUT) := Encode(res.stdout)][(id, STDERR) := Encode(res.stderr)]
            && w'.node.Up? && w'.node.tasks == w.node.tasks[id := Done]
            && id in w'.node.mem.records && w'.node.mem.records[id].process == None
            && w'.node.mem.audits == w.node.mem.audits + [Audit(id, s.state)] && w'.node.mem.told == w.node.mem.told
  {
    Known(w, id);
    var res := w.node.tasks[id].result;
    FinishApplied(w.node.mem, w.disk, id, res, now);
    FinishNext(c, w, id, now);
    hide Inv, TaskFits, ApplyOps, Encode, Fits, Next, FinishBlock, Concluded, Perform, Enabled;
  }

  lemma FinishNext(c: Config, w: World, id: JobId, now: Time)
    requires Enabled(w, RunFinish(id, now)) && id in w.node.mem.records
    ensures var w', b := Next(c, w, Complete(RunFinish(id, now))), FinishBlock(w.node.mem, id, w.node.tasks[id].result, now);
            w'.disk == ApplyOps(w.disk, b.ops) && w'.node == w.node.(tasks := w.node.tasks[id := Done], mem := b.mem)
  {
    Completed(c, w, RunFinish(id, now));
    hide Next, ApplyOps, FinishBlock;
  }

  lemma FinishApplied(m: Memory, d: Disk, id: JobId, res: Result, now: Time)
    requires id in m.records && m.records[id].snapshot.jobId == id
    ensures var s, b := Concluded(m.records[id].snapshot, res, now), FinishBlock(m, id, res, now);
            && ApplyOps(d, b.ops)
               == Disk(d.meta[id := s], d.output[(id, STDOUT) := Encode(res.stdout)][(id, STDERR) := Encode(res.stderr)])
            && b.mem == m.(records := m.records[id := Record(s, None)], audits := m.audits + [Audit(id, s.state)])
  {
    var s := FinishBlock(m, id, res, now).mem.records[id].snapshot;
    ThreeOps(d, WriteOutput(id, STDOUT, res.stdout), WriteOutput(id, STDERR, res.stderr), WriteMeta(s));
    hide ApplyOps, Encode;
  }

  lemma Known(w: World, id: JobId)
    requires Inv(w) && w.node.Up? && id in w.disk.meta
    ensures id in w.node.mem.records && w.node.mem.records[id].snapshot == w.disk.meta[id] && w.disk.meta[id].jobId == id
    ensures TaskFits(w.node, id)
  {}

  /** So `output` answers for either stream with the window of that stream's own text and the total counted for it. */
  lemma FinishedOutput(c: Config, w: World, id: JobId, now: Time, stream: Stream, offset: int, limit: int)
    requires Inv(w) && Enabled(w, RunFinish(id, now)) && id in w.disk.meta
    ensures var res := w.node.tasks[id].result;
            var (text, total) := if stream.STDOUT? then (res.stdout, res.stdoutBytes) else (res.stderr, res.stderrBytes);
            var w' := Next(c, w, Complete(RunFinish(id, now)));
            var window := OutputPaging.ReadWindow(Encode(text), offset, limit);
            && w'.node.Up?
            && OutputReply(w'.node.mem, w'.disk, id, stream, offset, limit)
               == Some(if window.InvalidWindow? then InvalidOutput else JobOutput(window, total, res.truncated))
  {
    FinishedStored(c, w, id, now, stream);
    var w' := Next(c, w, Complete(RunFinish(id, now)));
    ReplyIs(w'.node.mem, w'.disk, id, stream, offset, limit);
    hide Inv, Next, Enabled, Encode, OutputPaging.ReadWindow, OutputReply;
  }

  /** And what the process wrote can be read back: paging either stream from 0 gives all of its text. */
  lemma FinishedOutputPages(c: Config, w: World, id: JobId, now: Time, stream: Stream, limits: seq<int>)
    requires Inv(w) && Enabled(w, RunFinish(id, now)) && id in w.disk.meta && OutputPaging.ValidLimits(limits, 4)
    ensures var res := w.node.tasks[id].result;
            var text := if stream.STDOUT? then res.stdout else res.stderr;
            var w' := Next(c, w, Complete(RunFinish(id, now)));
            && (id, stream) in w'.disk.output
            && (|limits| >= |text| ==>
                  OutputPaging.Page(w'.disk.output[(id, stream)], 0, limits) == (text, |Encode(text)|))
  {
    FinishedStored(c, w, id, now, stream);
    var res := w.node.tasks[id].result;
    var text := if stream.STDOUT? then res.stdout else res.stderr;
    hide Inv, Next, Enabled, Encode, StrictDecode, LenientDecode, OutputPaging.Page, OutputPaging.ReadWindow;
    if |limits| >= |text| { OutputPaging.PagingReadsAll(text, limits); }
  }

  lemma ReplyIs(m: Memory, d: Disk, id: JobId, stream: Stream, offset: int, limit: int)
    requires id in m.records && (id, stream) in d.output
    ensures var window := OutputPaging.ReadWindow(d.output[(id, stream)], offset, limit);
            var s := m.records[id].snapshot;
            OutputReply(m, d, id, stream, offset, limit)
            == Some(if window.InvalidWindow? then InvalidOutput
                    else JobOutput(window, if stream.STDOUT? then s.stdoutBytes else s.stderrBytes, s.truncated))
  {}

  lemma FinishedStored(c: Config, w: World, id: JobId, now: Time, stream: Stream)
    requires Inv(w) && Enabled(w, RunFinish(id, now)) && id in w.disk.meta
    ensures var res := w.node.tasks[id].result;
            var w' := Next(c, w, Complete(RunFinish(id, now)));
            && w'.node.Up? && id in w'.node.mem.records && (id, stream) in w'.disk.output
            && w'.disk.output[(id, stream)] == Encode(if stream.STDOUT? then res.stdout else res.stderr)
            && w'.node.mem.records[id].snapshot.stdoutBytes == res.stdoutBytes
            && w'.node.mem.records[id].snapshot.stderrBytes == res.stderrBytes
            && w'.node.mem.records[id].snapshot.truncated == res.truncated
  {
    FinishExact(c, w, id, now);
    FinishedRecord(c, w, id, now);
    hide Inv, Next, Enabled, Encode;
  }

  lemma FinishedRecord(c: Config, w: World, id: JobId, now: Time)
    requires Inv(w) && Enabled(w, RunFinish(id, now)) && id in w.disk.meta
    ensures var w' := Next(c, w, Complete(RunFinish(id, now)));
            Inv(w') && (w'.node.Up? && id in w'.disk.meta ==>
              id in w'.node.mem.records && w'.node.mem.records[id].snapshot == w'.disk.meta[id])
  {
    NextKeepsInv(c, w, Complete(RunFinish(id, now)));
    var w' := Next(c, w, Complete(RunFinish(id, now)));
    hide Next, Enabled;
    if w'.node.Up? && id in w'.disk.meta { Known(w', id); }
  }

  /** The first block: the factory is called exactly for a job that was not cancelled. */
  lemma CheckExact(c: Config, w: World, id: JobId)
    requires Inv(w) && Enabled(w, RunCheck(id)) && id in w.disk.meta
    ensures var w' := Next(c, w, Complete(RunCheck(id)));
            && w'.disk == w.disk && w'.node.Up? && w'.node.mem == w.node.mem
            && w'.node.tasks == w.node.tasks[id := if w.disk.meta[id].state.CANCELLED? then Done else Creating]
  {
    Known(w, id);
    NoOps(w.disk);
    hide Inv, ApplyOps;
  }

  /** The block that attaches the process: RUNNING with its pid, or told to cancel. */
  lemma AttachExact(c: Config, w: World, id: JobId, now: Time)
    requires Inv(w) && Enabled(w, RunAttach(id, now)) && id in w.disk.meta
    ensures var p, was := w.node.tasks[id].process, w.disk.meta[id];
            var w' := Next(c, w, Complete(RunAttach(id, now)));
            && w'.node.Up? && w'.node.tasks == w.node.tasks[id := Waiting(p.handle)]
            && id in w'.node.mem.records && w'.node.mem.records[id].process == Some(p)
            && w'.disk.output == w.disk.output && w'.node.mem.audits == w.node.mem.audits
            && (if was.state.CANCELLED?
                then w'.disk.meta == w.disk.meta && w'.node.mem.told == w.node.mem.told + {p.handle}
                else w'.disk.meta == w.disk.meta[id := was.(state := RUNNING, pid := Some(p.pid), updatedAt := now)]
                     && w'.node.mem.told == w.node.mem.told)
  {
    Known(w, id);
    NoOps(w.disk);
    var s := w.disk.meta[id].(state := RUNNING, pid := Some(w.node.tasks[id].process.pid), updatedAt := now);
    OneOp(w.disk, WriteMeta(s));
    hide Inv, ApplyOps, Fits;
  }

  /** The factory-failure block: FAILED, audited, nothing stored. */
  lemma FactoryFailedExact(c: Config, w: World, id: JobId, now: Time)
    requires Inv(w) && Enabled(w, RunFactoryFailed(id, now)) && id in w.disk.meta
    ensures var w' := Next(c, w, Complete(RunFactoryFailed(id, now)));
            && w'.disk.meta == w.disk.meta[id := w.disk.meta[id].(state := FAILED, updatedAt := now)]
            && w'.disk.output == w.disk.output && w'.node.Up? && w'.node.tasks == w.node.tasks[id := Done]
            && w'.node.mem.audits == w.node.mem.audits + [Audit(id, FAILED)] && w'.node.mem.told == w.node.mem.told
  {
    Known(w, id);
    OneOp(w.disk, WriteMeta(w.disk.meta[id].(state := FAILED, updatedAt := now)));
    hide Inv, ApplyOps, Fits;
  }

  // ---- cancel and close ----

  /** `cancel`, called directly or by `close`: an active job becomes CANCELLED on disk, its process is told if it
      has one, and it is audited; a terminal or unknown one is left alone. */
  lemma CancelExact(c: Config, w: World, s: Step)
    requires Inv(w) && Enabled(w, s) && (s.Cancel? || s.CloseCancels?)
    ensures var w', id := Next(c, w, Complete(s)), s.id;
            && w'.node.Up? && w'.disk.output == w.disk.output && w'.node.tasks == w.node.tasks
            && (if id in w.disk.meta && !w.disk.meta[id].state.Terminal()
                then && w'.disk.meta == w.disk.meta[id := w.disk.meta[id].(state := CANCELLED, updatedAt := s.now)]
                     && w'.node.mem.audits == w.node.mem.audits + [Audit(id, CANCELLED)]
                     && id in w.node.mem.records
                     && w'.node.mem.told == w.node.mem.told
                          + (if w.node.mem.records[id].process.Some? then {w.node.mem.records[id].process.value.handle} else {})
                else w'.disk.meta == w.disk.meta && w'.node.mem == w.node.mem)
  {
    SyncedKeys(w);
    NoOps(w.disk);
    Completed(c, w, s);
    if s.id in w.disk.meta {
      Known(w, s.id);
      CancelApplied(w.node.mem, w.disk, s.id, s.now);
    }
    hide Inv, ApplyOps, TaskFits, Next, CancelBlock;
  }

  lemma CancelApplied(m: Memory, d: Disk, id: JobId, now: Time)
    requires id in m.records && m.records[id].snapshot.jobId == id
    ensures var r, b := m.records[id], CancelBlock(m, id, now);
            if r.snapshot.state.Terminal() then ApplyOps(d, b.ops) == d && b.mem == m
            else
              var s := r.snapshot.(state := CANCELLED, updatedAt := now);
              && ApplyOps(d, b.ops) == Disk(d.meta[id := s], d.output)
              && b.mem == m.(records := m.records[id := r.(snapshot := s)], audits := m.audits + [Audit(id, CANCELLED)],
                             told := m.told + (if r.process.Some? then {r.process.value.handle} else {}))
  {
    NoOps(d);
    OneOp(d, WriteMeta(m.records[id].snapshot.(state := CANCELLED, updatedAt := now)));
    hide ApplyOps;
  }

  lemma SyncedKeys(w: World)
    requires Inv(w) && w.node.Up?
    ensures w.node.mem.records.Keys == w.disk.meta.Keys
    ensures forall id | id in w.disk.meta :: w.node.mem.records[id].snapshot == w.disk.meta[id]
  {}

  /** The first `close` shuts the registry and takes down exactly the jobs that are still active; a second one
      does nothing. */
  lemma CloseExact(c: Config, w: World)
    requires Inv(w) && Enabled(w, CloseBegins)
    ensures var w' := Next(c, w, Complete(CloseBegins));
            && w'.disk == w.disk && w'.node.Up? && w'.node.mem == w.node.mem.(closed := true)
            && w'.node.closing == if w.node.mem.closed then w.node.closing
                                  else Cancelling(set id | id in w.disk.meta && !w.disk.meta[id].state.Terminal())
  {
    SyncedKeys(w);
    NoOps(w.disk);
    hide Inv, ApplyOps;
    assert ActiveJobs(w.node.mem) == set id | id in w.disk.meta && !w.disk.meta[id].state.Terminal();
  }
}
