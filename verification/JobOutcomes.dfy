/** What may still change after a job has ended: exactly when a terminal state is overwritten, and exactly
    when retention lets a command be submitted again. */
module JobOutcomes {
  import opened Wrappers
  import opened Utf8
  import opened JobModels
  import opened JobStore
  import opened JobRegistry
  import opened JobSystem
  import Idempotency
  import opened JobInvariant
  import opened JobRecovery
  import opened JobTheorems

  // ---- Terminal states ----

  /** The factory-failure block of `id` runs and its write reaches the disk, a crash right after included. */
  ghost predicate FactoryFails(w: World, e: Event, id: JobId) {
    && !e.Crash? && Enabled(w, e.step) && e.step.RunFactoryFailed? && e.step.id == id
    && (e.CrashIn? ==> e.k >= 1)
  }

  /** All that `ops` write about `id` keeps `state`. */
  ghost predicate KeepState(ops: seq<DiskOp>, id: JobId, state: JobState) {
    forall op | op in ops && op.WriteMeta? && op.snapshot.jobId == id :: op.snapshot.state == state
  }

  lemma {:induction false} StateKept(d: Disk, ops: seq<DiskOp>, id: JobId, state: JobState)
    requires KeepState(ops, id, state) && (id in d.meta ==> d.meta[id].state == state)
    ensures id in ApplyOps(d, ops).meta ==> ApplyOps(d, ops).meta[id].state == state
    decreases ops
  {
    if ops != [] {
      assert ops[0] in ops;
      StateKept(ApplyOp(d, ops[0]), ops[1..], id, state);
    }
  }

  lemma {:induction false} InterruptOpsActive(kept: seq<Snapshot>, now: Time, op: DiskOp)
    requires op in InterruptOps(kept, now)
    ensures op.WriteMeta? && exists s :: s in kept && !s.state.Terminal() && s.jobId == op.snapshot.jobId
  {
    if op in InterruptOps(kept[1..], now) {
      InterruptOpsActive(kept[1..], now, op);
    } else {
      assert op == WriteMeta(Interrupted(kept[0], now)) && kept[0] in kept;
    }
  }

  lemma LoadOpsKept(meta: Meta, files: seq<JobId>, now: Time, expiry: Time, id: JobId)
    requires Named(meta) && AllValid(meta) && Listing(files, meta) && id in meta && meta[id].state.Terminal()
    ensures var l := Load(meta, files, expiry);
            KeepState(l.ops, id, meta[id].state) && KeepState(l.ops + InterruptOps(l.kept, now), id, meta[id].state)
  {
    LoadExact(meta, files, expiry);
    var l := Load(meta, files, expiry);
    hide Load, AllValid, Named;
    forall op | op in InterruptOps(l.kept, now) ensures op.WriteMeta? && op.snapshot.jobId != id {
      InterruptOpsActive(l.kept, now, op);
    }
  }

  lemma StartKept(m: Memory, r: StartRequest, newId: JobId, now: Time, id: JobId, state: JobState)
    requires id in m.records
    ensures KeepState(StartBlock(m, r, newId, now).0.ops, id, state)
  {}

  lemma CancelKept(m: Memory, other: JobId, now: Time, id: JobId)
    requires id in m.records && m.records[id].snapshot.state.Terminal()
    requires other in m.records && m.records[other].snapshot.jobId == other
    ensures KeepState(CancelBlock(m, other, now).ops, id, m.records[id].snapshot.state)
  {}

  /** The blocks of `_run` that write metadata, but for a factory failure of the job itself. */
  lemma RunKept(c: Config, w: World, s: Step, id: JobId)
    requires w.node.Up? && Enabled(w, s) && id in w.node.mem.records && w.node.mem.records[id].snapshot.state.Terminal()
    requires s.RunFactoryFailed? || s.RunAttach? || s.RunFinish?
    requires s.id in w.node.mem.records && w.node.mem.records[s.id].snapshot.jobId == s.id
    requires if s.id == id then !s.RunFactoryFailed? && TaskFits(w.node, id) else true
    ensures KeepState(Perform(c, w, s).ops, id, w.node.mem.records[id].snapshot.state)
  {
    hide Encode;
  }

  lemma LoadStepKept(c: Config, w: World, s: Step, id: JobId)
    requires DiskInv(w.disk.meta, w.clock, w.usedIds) && Enabled(w, s) && id in w.disk.meta && w.disk.meta[id].state.Terminal()
    requires s.Restart? || s.Cleanup?
    ensures KeepState(Perform(c, w, s).ops, id, w.disk.meta[id].state)
  {
    hide Load, InterruptOps, KeepState, RecordsOf, IndexFrom, Recovered, UniqueOperations;
    LoadOpsKept(w.disk.meta, s.files, s.now, StepTime(w, s) - c.retention, id);
    NothingKept(id, w.disk.meta[id].state);
  }

  lemma StartStepKept(c: Config, w: World, s: Step, id: JobId, state: JobState)
    requires w.node.Up? && Enabled(w, s) && id in w.node.mem.records
    requires s.StartJob? || s.StartDirect?
    ensures KeepState(Perform(c, w, s).ops, id, state)
  {
    hide StartBlock, KeepState;
    StartKept(w.node.mem, if s.StartJob? then w.node.flight.value.call.payload.request else s.request, s.newId, s.now, id, state);
    NothingKept(id, state);
  }

  lemma CancelStepKept(c: Config, w: World, s: Step, id: JobId)
    requires w.node.Up? && Enabled(w, s) && id in w.node.mem.records && w.node.mem.records[id].snapshot.state.Terminal()
    requires s.Cancel? || s.CloseCancels?
    requires s.id in w.node.mem.records ==> w.node.mem.records[s.id].snapshot.jobId == s.id
    ensures KeepState(Perform(c, w, s).ops, id, w.node.mem.records[id].snapshot.state)
  {
    hide CancelBlock, KeepState;
    if s.id in w.node.mem.records { CancelKept(w.node.mem, s.id, s.now, id); }
    NothingKept(id, w.node.mem.records[id].snapshot.state);
  }

  /** Every other step writes nothing. */
  lemma OtherStepKept(c: Config, w: World, s: Step, id: JobId, state: JobState)
    requires Enabled(w, s) && !s.Restart? && !s.Cleanup? && !s.StartJob? && !s.StartDirect? && !s.Cancel? && !s.CloseCancels?
    requires s.RunFactoryFailed? || s.RunAttach? || s.RunFinish? ==> s.id !in w.node.mem.records
    ensures KeepState(Perform(c, w, s).ops, id, state)
  {}

  /** No step but the job's own factory failure writes a terminal job another state. */
  lemma TerminalKept(c: Config, w: World, s: Step, id: JobId)
    requires Inv(w) && Enabled(w, s) && id in w.disk.meta && w.disk.meta[id].state.Terminal()
    requires !(s.RunFactoryFailed? && s.id == id)
    ensures KeepState(Perform(c, w, s).ops, id, w.disk.meta[id].state)
  {
    hide Perform, Enabled, KeepState;
    var state := w.disk.meta[id].state;
    if s.Restart? || s.Cleanup? {
      LoadStepKept(c, w, s, id);
    } else {
      assert w.node.Up? by { EnabledUp(w, s); }
      MemoryKnows(w, id);
      hide Inv;
      if s.StartJob? || s.StartDirect? { StartStepKept(c, w, s, id, state); }
      else if s.Cancel? || s.CloseCancels? { CancelStepKept(c, w, s, id); }
      else if (s.RunFactoryFailed? || s.RunAttach? || s.RunFinish?) && s.id in w.node.mem.records { RunStepKept(c, w, s, id); }
      else { OtherStepKept(c, w, s, id, state); }
    }
  }

  lemma EnabledUp(w: World, s: Step)
    requires Enabled(w, s) && !s.Restart?
    ensures w.node.Up?
  {}

  lemma MemoryKnows(w: World, id: JobId)
    requires Inv(w) && w.node.Up? && id in w.disk.meta
    ensures id in w.node.mem.records && w.node.mem.records[id].snapshot == w.disk.meta[id]
    ensures forall x | x in w.node.mem.records :: w.node.mem.records[x].snapshot.jobId == x
  {
    hide IndexExact, TasksFit, CancelledTold, AuditsTerminal, ClosingInv, CacheInv, PastInv;
  }

  lemma NothingKept(id: JobId, state: JobState)
    ensures KeepState([], id, state)
  {}

  lemma RunStepKept(c: Config, w: World, s: Step, id: JobId)
    requires Inv(w) && Enabled(w, s) && id in w.disk.meta && w.disk.meta[id].state.Terminal()
    requires s.RunFactoryFailed? || s.RunAttach? || s.RunFinish?
    requires s.id in w.node.mem.records && !(s.RunFactoryFailed? && s.id == id)
    ensures KeepState(Perform(c, w, s).ops, id, w.disk.meta[id].state)
  {
    hide Perform, KeepState, Fits;
    assert TaskFits(w.node, id);
    RunKept(c, w, s, id);
  }

  /** A job that is still on disk after an event has the state it had, unless that was CANCELLED and the
      event is its own factory-failure block, which makes it FAILED. */
  lemma TerminalStateExact(c: Config, w: World, e: Event, id: JobId)
    requires Inv(w) && id in w.disk.meta && w.disk.meta[id].state.Terminal()
    ensures var w' := Next(c, w, e);
            && (FactoryFails(w, e, id) ==> w.disk.meta[id].state.CANCELLED? && id in w'.disk.meta)
            && (id in w'.disk.meta ==>
                  w'.disk.meta[id].state == if FactoryFails(w, e, id) then FAILED else w.disk.meta[id].state)
  {
    if e.Crash? || !Enabled(w, e.step) { return; }
    var s := e.step;
    if s.RunFactoryFailed? && s.id == id {
      FactoryFailureExact(c, w, e, id);
    } else {
      TerminalKept(c, w, s, id);
      var o := Perform(c, w, s);
      hide Perform, Enabled, Inv, ApplyOps;
      var ops := if e.CrashIn? && e.k <= |o.ops| then o.ops[..e.k] else o.ops;
      assert KeepState(ops, id, w.disk.meta[id].state);
      StateKept(w.disk, ops, id, w.disk.meta[id].state);
    }
  }

  lemma FactoryFailureExact(c: Config, w: World, e: Event, id: JobId)
    requires Inv(w) && id in w.disk.meta && w.disk.meta[id].state.Terminal()
    requires !e.Crash? && Enabled(w, e.step) && e.step.RunFactoryFailed? && e.step.id == id
    ensures w.disk.meta[id].state.CANCELLED? && id in Next(c, w, e).disk.meta
    ensures Next(c, w, e).disk.meta[id].state == if FactoryFails(w, e, id) then FAILED else CANCELLED
  {
    assert TaskFits(w.node, id);
    var failed := w.disk.meta[id].(state := FAILED, updatedAt := e.step.now);
    var o := Perform(c, w, e.step);
    assert o.ops == [WriteMeta(failed)];
    hide Perform, Enabled, Inv, ApplyOps;
    OneOp(w.disk, WriteMeta(failed));
    NoOps(w.disk);
    if e.CrashIn? && e.k <= 1 { assert o.ops[..e.k] == if e.k == 0 then [] else o.ops; }
  }

  /** Somewhere in the run the factory-failure block of `id` takes effect. */
  ghost predicate FactoryFailsIn(c: Config, w: World, es: seq<Event>, id: JobId)
    decreases es
  {
    es != [] && (FactoryFails(w, es[0], id) || FactoryFailsIn(c, Next(c, w, es[0]), es[1..], id))
  }

  /** Over any run: a terminal job that is still there has the state it had, and FAILED exactly if its own
      factory-failure block ran meanwhile, which happens only to a CANCELLED one. */
  lemma {:induction false} TerminalStatesExact(c: Config, w: World, es: seq<Event>, id: JobId)
    requires Inv(w) && id in w.disk.meta && w.disk.meta[id].state.Terminal()
    ensures var w' := Run(c, w, es);
            id in w'.disk.meta ==>
              && (FactoryFailsIn(c, w, es, id) ==> w.disk.meta[id].state.CANCELLED?)
              && w'.disk.meta[id].state == if FactoryFailsIn(c, w, es, id) then FAILED else w.disk.meta[id].state
    decreases es
  {
    if es != [] {
      var w1 := Next(c, w, es[0]);
      DiskKnown(w, id);
      NextKeepsInv(c, w, es[0]);
      NextMovesForward(c, w, es[0], id);
      JobsMoveForward(c, w1, es[1..], id);
      TerminalStateExact(c, w, es[0], id);
      hide Inv, Next, FactoryFails;
      if id in w1.disk.meta { TerminalStatesExact(c, w1, es[1..], id); }
    }
  }

  lemma DiskKnown(w: World, id: JobId)
    requires Inv(w) && id in w.disk.meta
    ensures id in w.usedIds
  {}

  // ---- Retention ----

  predicate AppliesRetention(w: World, s: Step) { s.Restart? || (s.Cleanup? && w.node.Up? && !w.node.mem.closed) }

  ghost predicate LeftUnexpired(w: World, w1: World, expiry: Time) {
    && w1.node.Up? && !w1.node.mem.closed
    && w1.disk.meta.Keys == Unexpired(w.disk.meta, expiry).Keys
    && (forall id | id in w1.disk.meta :: SameJob(w.disk.meta[id], w1.disk.meta[id]))
    && w1.submissions == w.submissions && w1.replies == w.replies
  }

  lemma RestartDisk(d: Disk, files: seq<JobId>, now: Time, expiry: Time)
    requires Named(d.meta) && AllValid(d.meta) && UniqueOperations(d.meta) && Listing(files, d.meta)
    requires forall id | id in d.meta :: d.meta[id].updatedAt <= now
    ensures var (mem, ops) := RecoverBlock(d.meta, files, now, expiry);
            var meta := ApplyOps(d, ops).meta;
            && mem.Some? && !mem.value.closed && meta.Keys == Unexpired(d.meta, expiry).Keys
            && (forall id | id in meta :: SameJob(d.meta[id], meta[id]))
  {
    RecoverLeaves(d, files, now, expiry);
    hide RecoverBlock, ApplyOps, IndexExact, Synced, Listing, UniqueOperations, AllValid, Named;
    LeftAfterRestart(d.meta, expiry, now);
  }

  lemma RestartLeaves(c: Config, w: World, s: Step)
    requires DiskInv(w.disk.meta, w.clock, w.usedIds) && Enabled(w, s) && s.Restart?
    ensures LeftUnexpired(w, Commit(w, Perform(c, w, s), StepTime(w, s)), StepTime(w, s) - c.retention)
  {
    hide RecoverBlock, ApplyOps, SameJob, Unexpired, Listing, UniqueOperations, AllValid, Named;
    RestartDisk(w.disk, s.files, s.now, StepTime(w, s) - c.retention);
  }

  lemma CleanupLeaves(c: Config, w: World, s: Step)
    requires DiskInv(w.disk.meta, w.clock, w.usedIds) && Enabled(w, s) && s.Cleanup? && w.node.Up? && !w.node.mem.closed
    ensures LeftUnexpired(w, Commit(w, Perform(c, w, s), StepTime(w, s)), StepTime(w, s) - c.retention)
  {
    hide Load, Listing, UniqueOperations, ApplyOps, AllValid, Named, KeptIds;
    CleanupDisk(w.disk, s.files, StepTime(w, s) - c.retention);
  }

  lemma CleanupDisk(d: Disk, files: seq<JobId>, expiry: Time)
    requires Named(d.meta) && AllValid(d.meta) && Listing(files, d.meta)
    ensures var l := Load(d.meta, files, expiry);
            var meta := ApplyOps(d, l.ops).meta;
            && l.valid && meta.Keys == Unexpired(d.meta, expiry).Keys
            && (forall id | id in meta :: id in d.meta && meta[id] == d.meta[id])
  {
    LoadLeaves(d, files, expiry);
    hide Load, ApplyOps, Listing, AllValid, Named;
  }

  /** After a cleanup or a restart exactly the unexpired jobs are left, and the registry is open. */
  lemma AfterRetention(c: Config, w: World, s: Step)
    requires Inv(w) && Enabled(w, s) && AppliesRetention(w, s)
    ensures Inv(Next(c, w, Complete(s))) && LeftUnexpired(w, Next(c, w, Complete(s)), StepTime(w, s) - c.retention)
  {
    assert DiskInv(w.disk.meta, w.clock, w.usedIds);
    hide Inv, TearsWell, Commit, Perform, Enabled, LeftUnexpired;
    StepKeepsInv(c, w, s);
    if s.Restart? { RestartLeaves(c, w, s); } else { CleanupLeaves(c, w, s); }
  }

  /** Retention decides: when the command of job `id` is asked for again after a cleanup or a restart, it is
      submitted a second time if and only if that step found the job expired, whatever its state was and
      whether or not its thread still runs; otherwise the caller is told of job `id`. */
  lemma ResubmittedIffExpired(c: Config, w: World, s: Step, id: JobId, newId: JobId, now: Time)
    requires Inv(w) && Enabled(w, s) && AppliesRetention(w, s) && id in w.disk.meta
    requires var job := w.disk.meta[id];
             var w1 := Next(c, w, Complete(s));
             newId !in w1.disk.meta && Enabled(w1, StartDirect(StartRequest(job.operationId, job.kind, job.requestDigest), newId, now))
    ensures var job := w.disk.meta[id];
            var again := StartDirect(StartRequest(job.operationId, job.kind, job.requestDigest), newId, now);
            var w2 := Next(c, Next(c, w, Complete(s)), Complete(again));
            var expired := job.updatedAt < StepTime(w, s) - c.retention;
            && w2.submissions == w.submissions + (if expired then [Pair(job.operationId, job.requestDigest, newId)] else [])
            && w2.replies == w.replies + [Pair(job.operationId, job.requestDigest, if expired then newId else id)]
  {
    AfterRetention(c, w, s);
    var job := w.disk.meta[id];
    var w1 := Next(c, w, Complete(s));
    IndexAnswers(w, w1, id);
    hide Inv, SameJob, IndexExact, Synced;
    assert w1.submissions + [] == w1.submissions;
    StartReplies(c, w1, StartRequest(job.operationId, job.kind, job.requestDigest), newId, now);
  }

  lemma IndexAnswers(w: World, w1: World, id: JobId)
    requires Inv(w) && Inv(w1) && w1.node.Up? && id in w.disk.meta
    requires forall x | x in w1.disk.meta :: x in w.disk.meta && SameJob(w.disk.meta[x], w1.disk.meta[x])
    ensures var job := w.disk.meta[id];
            && w1.node.mem.records.Keys == w1.disk.meta.Keys
            && (job.operationId in w1.node.mem.operationJobs <==> id in w1.disk.meta)
            && (id in w1.disk.meta ==>
                  && w1.node.mem.operationJobs[job.operationId] == (id, job.requestDigest)
                  && w1.node.mem.records[id].snapshot.jobId == id)
  {
    assert IndexExact(w1.node.mem, w1.disk.meta) && Synced(w1.node.mem, w1.disk.meta);
    assert UniqueOperations(w.disk.meta) && Named(w.disk.meta);
    hide Inv;
    var job := w.disk.meta[id];
    if job.operationId in w1.node.mem.operationJobs {
      var other := w1.node.mem.operationJobs[job.operationId].0;
      assert w.disk.meta[other].operationId == job.operationId;
    }
  }

  lemma StartReplies(c: Config, w: World, r: StartRequest, newId: JobId, now: Time)
    requires w.node.Up? && !w.node.mem.closed && Enabled(w, StartDirect(r, newId, now)) && newId !in w.node.mem.records
    requires r.operationId in w.node.mem.operationJobs ==>
               var (id, digest) := w.node.mem.operationJobs[r.operationId];
               digest == r.digest && id in w.node.mem.records && w.node.mem.records[id].snapshot.jobId == id
    ensures var w' := Next(c, w, Complete(StartDirect(r, newId, now)));
            var known := r.operationId in w.node.mem.operationJobs;
            && w'.submissions == w.submissions + (if known then [] else [Pair(r.operationId, r.digest, newId)])
            && w'.replies == w.replies + [Pair(r.operationId, r.digest, if known then w.node.mem.operationJobs[r.operationId].0 else newId)]
  {}

  /** A whole `job_start` call through the replay cache, alone: answered from the cache, refused by it, or run
      by the registry and cached. */
  ghost function AskThroughCache(c: Config, w: World, call: Call, newId: JobId, now: Time): World {
    var begun := Next(c, w, Complete(BeginCall(call)));
    if w.node.Up? && Idempotency.Look(w.node.cache, call.operationId, call.payload, call.requestedAt).Miss?
    then Next(c, Next(c, begun, Complete(StartJob(newId, now))), Complete(EndCall))
    else begun
  }

  /** The same question through the replay cache: an entry that still holds answers as before, whether or not
      the job was dropped meanwhile, and nothing is submitted; a restart has emptied the cache. Only a call
      that the cache does not know reaches the registry, and is then submitted exactly if the job had expired. */
  lemma ResubmittedThroughCache(c: Config, w: World, s: Step, id: JobId, call: Call, newId: JobId, now: Time)
    requires Inv(w) && Enabled(w, s) && AppliesRetention(w, s) && id in w.disk.meta
    requires var w1 := Next(c, w, Complete(s));
             newId !in w1.disk.meta && newId !in w1.usedIds && w1.node.Up? && w1.node.flight.None? && w1.clock <= now
    requires var job := w.disk.meta[id];
             call.operationId == job.operationId && call.payload.StartPayload?
             && call.payload.request == StartRequest(job.operationId, job.kind, job.requestDigest)
    ensures var w1 := Next(c, w, Complete(s));
            var w2 := AskThroughCache(c, w1, call, newId, now);
            var expired := w.disk.meta[id].updatedAt < StepTime(w, s) - c.retention;
            && w1.node.cache == (if s.Restart? then map[] else w.node.cache)
            && match Idempotency.Look(w1.node.cache, call.operationId, call.payload, call.requestedAt)
               case Hit(answer) => w2.submissions == w.submissions && w2.replies == w.replies + ReplyOf(call, answer)
               case Conflict => w2.submissions == w.submissions && w2.replies == w.replies
               case Miss =>
                 && w2.submissions == w.submissions + (if expired then [Pair(call.operationId, call.payload.request.digest, newId)] else [])
                 && w2.replies == w.replies + [Pair(call.operationId, call.payload.request.digest, if expired then newId else id)]
  {
    AfterRetention(c, w, s);
    CacheAfter(c, w, s);
    var w1 := Next(c, w, Complete(s));
    IndexAnswers(w, w1, id);
    hide Inv, SameJob, IndexExact, Synced, Enabled, AppliesRetention;
    CallReplies(c, w1, call, newId, now);
  }

  lemma CacheAfter(c: Config, w: World, s: Step)
    requires Inv(w) && Enabled(w, s) && AppliesRetention(w, s)
    ensures var w1 := Next(c, w, Complete(s));
            w1.node.Up? ==> w1.node.cache == if s.Restart? then map[] else w.node.cache
  {
    hide RecoverBlock, CleanupBlock, ApplyOps, Inv;
  }

  lemma CallReplies(c: Config, w: World, call: Call, newId: JobId, now: Time)
    requires w.node.Up? && !w.node.mem.closed && w.node.flight.None? && w.clock <= now
    requires newId !in w.node.mem.records && newId !in w.usedIds
    requires call.payload.StartPayload? && call.payload.request.operationId == call.operationId
    requires call.operationId in w.node.mem.operationJobs ==>
               var (id, digest) := w.node.mem.operationJobs[call.operationId];
               digest == call.payload.request.digest && id in w.node.mem.records && w.node.mem.records[id].snapshot.jobId == id
    ensures var w2 := AskThroughCache(c, w, call, newId, now);
            var known := call.operationId in w.node.mem.operationJobs;
            match Idempotency.Look(w.node.cache, call.operationId, call.payload, call.requestedAt)
            case Hit(answer) => w2.submissions == w.submissions && w2.replies == w.replies + ReplyOf(call, answer)
            case Conflict => w2.submissions == w.submissions && w2.replies == w.replies
            case Miss =>
              && w2.submissions == w.submissions + (if known then [] else [Pair(call.operationId, call.payload.request.digest, newId)])
              && w2.replies == w.replies
                            + [Pair(call.operationId, call.payload.request.digest, if known then w.node.mem.operationJobs[call.operationId].0 else newId)]
  {
    CallBegins(c, w, call);
    var w1 := Next(c, w, Complete(BeginCall(call)));
    if Idempotency.Look(w.node.cache, call.operationId, call.payload, call.requestedAt).Miss? {
      CallStarts(c, w1, newId, now);
      var w2 := Next(c, w1, Complete(StartJob(newId, now)));
      CallEnds(c, w2);
    }
    hide Next;
  }

  lemma CallBegins(c: Config, w: World, call: Call)
    requires w.node.Up? && w.node.flight.None? && call.payload.StartPayload? && call.payload.request.operationId == call.operationId
    ensures var w1 := Next(c, w, Complete(BeginCall(call)));
            && w1.node.Up? && w1.node.mem == w.node.mem && w1.usedIds == w.usedIds && w1.submissions == w.submissions
            && w1.clock == w.clock && w1.disk == w.disk
            && match Idempotency.Look(w.node.cache, call.operationId, call.payload, call.requestedAt)
               case Hit(answer) => w1.replies == w.replies + ReplyOf(call, answer)
               case Conflict => w1.replies == w.replies
               case Miss => w1.replies == w.replies && w1.node.flight == Some(Operating(call))
  {
    NoOps(w.disk);
    assert w.usedIds + {} == w.usedIds;
  }

  lemma CallStarts(c: Config, w: World, newId: JobId, now: Time)
    requires w.node.Up? && !w.node.mem.closed && w.node.flight.Some? && w.node.flight.value.Operating? && w.clock <= now
    requires newId !in w.node.mem.records && newId !in w.usedIds && w.node.flight.value.call.payload.StartPayload?
    requires var r := w.node.flight.value.call.payload.request;
             r.operationId in w.node.mem.operationJobs ==>
               var (id, digest) := w.node.mem.operationJobs[r.operationId];
               digest == r.digest && id in w.node.mem.records && w.node.mem.records[id].snapshot.jobId == id
    ensures var call := w.node.flight.value.call;
            var op := call.payload.request.operationId;
            var known := op in w.node.mem.operationJobs;
            var w1 := Next(c, w, Complete(StartJob(newId, now)));
            && w1.node.Up? && w1.node.flight.Some? && w1.node.flight.value.Answered? && w1.node.flight.value.call == call
            && w1.node.flight.value.answer.StartAnswer?
            && w1.node.flight.value.answer.snapshot.jobId == (if known then w.node.mem.operationJobs[op].0 else newId)
            && w1.submissions == w.submissions + (if known then [] else [Pair(op, call.payload.request.digest, newId)]) && w1.replies == w.replies
  {
    hide ApplyOps;
  }

  lemma CallEnds(c: Config, w: World)
    requires w.node.Up? && w.node.flight.Some? && w.node.flight.value.Answered?
    ensures var w1 := Next(c, w, Complete(EndCall));
            w1.submissions == w.submissions && w1.replies == w.replies + ReplyOf(w.node.flight.value.call, w.node.flight.value.answer)
  {}

  // ---- Runs that show it ----

  lemma RunPush(c: Config, w: World, es: seq<Event>, e: Event)
    ensures Run(c, w, es + [e]) == Next(c, Run(c, w, es), e)
    decreases es
  {
    if es == [] {
      assert [e][1..] == [];
    } else {
      assert (es + [e])[1..] == es[1..] + [e];
      hide Next;
      RunPush(c, Next(c, w, es[0]), es[1..], e);
    }
  }

  lemma Then(c: Config, es: seq<Event>, s: Step) returns (all: seq<Event>)
    ensures Run(c, START, all) == Next(c, Run(c, START, es), Complete(s))
  {
    RunPush(c, START, es, Complete(s));
    all := es + [Complete(s)];
  }

  const BOOTED: World := START.(node := Up(EMPTY_MEMORY, map[], map[], None, Open))

  lemma Boots(c: Config)
    ensures Next(c, START, Complete(Restart([], 0, 0))) == BOOTED
  {
    assert Listing([], START.disk.meta);
    assert Recovered([], 0) == [];
    NoOps(START.disk);
    assert Load(START.disk.meta, [], 0 - c.retention) == Loading([], [], true);
    assert InterruptOps([], 0) == [] && [] + InterruptOps([], 0) == [];
    assert RecoverBlock(START.disk.meta, [], 0, 0 - c.retention) == (Some(EMPTY_MEMORY), []);
    assert DroppedBy(START.disk.meta, START.disk.meta) == {};
  }

  /** A service with the one job 1 and its thread. */
  function OneJob(r: StartRequest, s: Snapshot, p: Option<Process>, pc: Pc, told: set<nat>, audits: seq<Audit>, handles: nat): World {
    var pair := Pair(r.operationId, r.digest, 1);
    World(Disk(map[1 := s], map[]),
          Up(Memory(map[1 := Record(s, p)], map[r.operationId := (1, r.digest)], false, told, audits),
             map[1 := pc], map[], None, Open),
          0, {1}, handles, [pair], [pair], {}, {pair})
  }

  function New(r: StartRequest): Snapshot { NewSnapshot(1, r.operationId, r.digest, r.kind, 0) }

  lemma Submitted(c: Config, r: StartRequest)
    ensures Next(c, BOOTED, Complete(StartDirect(r, 1, 0))) == OneJob(r, New(r), None, Pending, {}, [], 0)
  {
    OneOp(BOOTED.disk, WriteMeta(New(r)));
    hide ApplyOps;
    assert BOOTED.disk.meta[1 := New(r)] == map[1 := New(r)];
  }

  lemma SameWorld(a: World, b: World)
    requires a.node.Up? && b.node.Up? && a.disk.meta == b.disk.meta && a.disk.output == b.disk.output
    requires a.node.mem.records == b.node.mem.records && a.node.mem.operationJobs == b.node.mem.operationJobs
    requires a.node.mem.closed == b.node.mem.closed && a.node.mem.told == b.node.mem.told && a.node.mem.audits == b.node.mem.audits
    requires a.node.tasks == b.node.tasks && a.node.cache == b.node.cache && a.node.flight == b.node.flight
    requires a.node.closing == b.node.closing && a.clock == b.clock && a.usedIds == b.usedIds && a.handles == b.handles
    requires a.submissions == b.submissions && a.replies == b.replies && a.dropped == b.dropped && a.born == b.born
    ensures a == b
  {}

  /** A step of the thread that writes nothing. */
  lemma PcGoes(c: Config, r: StartRequest, s: Snapshot, pc: Pc, audits: seq<Audit>, step: Step)
    requires s.operationId == r.operationId && s.requestDigest == r.digest
    requires (step == RunCheck(1) && pc.Pending? && !s.state.CANCELLED?) || (step == CreateFails(1) && pc.Creating?)
          || (step == CreateProcess(1, 7) && pc.Creating?) || (step == RunRaises(1) && pc.Creating?)
    ensures var w := OneJob(r, s, None, pc, {}, audits, 0);
            Next(c, w, Complete(step))
            == match step
               case RunCheck(_) => OneJob(r, s, None, Creating, {}, audits, 0)
               case CreateFails(_) => OneJob(r, s, None, CreationFailed, {}, audits, 0)
               case RunRaises(_) => OneJob(r, s, None, Raised, {}, audits, 0)
               case _ => OneJob(r, s, None, Created(Process(0, 7)), {}, audits, 1)
  {
    var w := OneJob(r, s, None, pc, {}, audits, 0);
    NoOps(w.disk);
    hide ApplyOps, Idempotency.Look;
    assert DroppedBy(w.disk.meta, w.disk.meta) == {};
    assert w.born + Births(w.disk.meta) == w.born;
    assert Enabled(w, step);
    hide Enabled;
    var next := if step.RunCheck? then Creating else if step.CreateFails? then CreationFailed
                else if step.RunRaises? then Raised else Created(Process(0, 7));
    SameWorld(Next(c, w, Complete(step)), OneJob(r, s, None, next, {}, audits, if step.CreateProcess? then 1 else 0));
  }

  lemma CancelGoes(c: Config, r: StartRequest)
    ensures var s := New(r);
            Next(c, OneJob(r, s, None, CreationFailed, {}, [], 0), Complete(Cancel(1, 0)))
            == OneJob(r, s.(state := CANCELLED), None, CreationFailed, {}, [Audit(1, CANCELLED)], 0)
  {
    var s := New(r);
    var w := OneJob(r, s, None, CreationFailed, {}, [], 0);
    OneOp(w.disk, WriteMeta(s.(state := CANCELLED)));
    hide ApplyOps;
    SameWorld(Next(c, w, Complete(Cancel(1, 0))),
              OneJob(r, s.(state := CANCELLED), None, CreationFailed, {}, [Audit(1, CANCELLED)], 0));
  }

  lemma FailureGoes(c: Config, r: StartRequest)
    ensures var s := New(r).(state := CANCELLED);
            Next(c, OneJob(r, s, None, CreationFailed, {}, [Audit(1, CANCELLED)], 0), Complete(RunFactoryFailed(1, 0)))
            == OneJob(r, s.(state := FAILED), None, Done, {}, [Audit(1, CANCELLED), Audit(1, FAILED)], 0)
  {
    var s := New(r).(state := CANCELLED);
    var w := OneJob(r, s, None, CreationFailed, {}, [Audit(1, CANCELLED)], 0);
    OneOp(w.disk, WriteMeta(s.(state := FAILED)));
    hide ApplyOps;
    SameWorld(Next(c, w, Complete(RunFactoryFailed(1, 0))),
              OneJob(r, s.(state := FAILED), None, Done, {}, [Audit(1, CANCELLED), Audit(1, FAILED)], 0));
  }

  /** A run from the empty disk: the job is cancelled while its factory call fails, `cancel` has made it
      CANCELLED on disk and in memory, and its thread then overwrites that and is audited again. */
  lemma CancelledThenFailed(c: Config, r: StartRequest) returns (es: seq<Event>, last: Event)
    ensures var w, w' := Run(c, START, es), Run(c, START, es + [last]);
            && 1 in w.disk.meta && w.disk.meta[1].state == CANCELLED && FactoryFails(w, last, 1)
            && 1 in w'.disk.meta && w'.disk.meta[1].state == FAILED
            && w'.node.Up? && w'.node.mem.audits == [Audit(1, CANCELLED), Audit(1, FAILED)]
  {
    hide Next, Run;
    assert Run(c, START, []) == START by { RunNothing(c); }
    Boots(c);
    es := Then(c, [], Restart([], 0, 0));
    Submitted(c, r);
    es := Then(c, es, StartDirect(r, 1, 0));
    PcGoes(c, r, New(r), Pending, [], RunCheck(1));
    es := Then(c, es, RunCheck(1));
    PcGoes(c, r, New(r), Creating, [], CreateFails(1));
    es := Then(c, es, CreateFails(1));
    CancelGoes(c, r);
    es := Then(c, es, Cancel(1, 0));
    FailureGoes(c, r);
    last := Complete(RunFactoryFailed(1, 0));
    RunPush(c, START, es, last);
  }

  /** A run from the empty disk: the factory raises an error that is no OSError. The thread is over, the job
      is QUEUED in memory and on disk, and nothing was audited. */
  lemma RaisedJobStaysQueued(c: Config, r: StartRequest) returns (es: seq<Event>)
    ensures Run(c, START, es) == OneJob(r, New(r), None, Raised, {}, [], 0)
    ensures New(r).state == QUEUED && Finished(Raised)
  {
    hide Next, Run;
    assert Run(c, START, []) == START by { RunNothing(c); }
    Boots(c);
    es := Then(c, [], Restart([], 0, 0));
    Submitted(c, r);
    es := Then(c, es, StartDirect(r, 1, 0));
    PcGoes(c, r, New(r), Pending, [], RunCheck(1));
    es := Then(c, es, RunCheck(1));
    PcGoes(c, r, New(r), Creating, [], RunRaises(1));
    es := Then(c, es, RunRaises(1));
  }

  lemma RunNothing(c: Config)
    ensures Run(c, START, []) == START
  {}

  lemma AttachGoes(c: Config, r: StartRequest)
    ensures Next(c, OneJob(r, New(r), None, Created(Process(0, 7)), {}, [], 1), Complete(RunAttach(1, 0)))
         == OneJob(r, Running(r), Some(Process(0, 7)), Waiting(0), {}, [], 1)
  {
    var w := OneJob(r, New(r), None, Created(Process(0, 7)), {}, [], 1);
    OneOp(w.disk, WriteMeta(Running(r)));
    hide ApplyOps;
    SameWorld(Next(c, w, Complete(RunAttach(1, 0))), OneJob(r, Running(r), Some(Process(0, 7)), Waiting(0), {}, [], 1));
  }

  function Running(r: StartRequest): Snapshot { New(r).(state := RUNNING, pid := Some(7)) }

  /** A run from the empty disk: job 1 is RUNNING when a cleanup drops it. Its process still runs, untold,
      and unknown to the registry, when the same request submits the command again as job 2. */
  lemma RunningJobDropped(c: Config, r: StartRequest) returns (es: seq<Event>)
    requires c.retention >= 0
    ensures var w := Run(c, START, es);
            && w.submissions == [Pair(r.operationId, r.digest, 1), Pair(r.operationId, r.digest, 2)]
            && w.node.Up? && 1 in w.node.tasks && w.node.tasks[1] == Waiting(0) && w.node.mem.told == {}
            && 1 !in w.node.mem.records && 2 in w.node.tasks && w.node.tasks[2] == Pending
  {
    hide Next, Run;
    assert Run(c, START, []) == START by { RunNothing(c); }
    Boots(c);
    es := Then(c, [], Restart([], 0, 0));
    Submitted(c, r);
    es := Then(c, es, StartDirect(r, 1, 0));
    PcGoes(c, r, New(r), Pending, [], RunCheck(1));
    es := Then(c, es, RunCheck(1));
    PcGoes(c, r, New(r), Creating, [], CreateProcess(1, 7));
    es := Then(c, es, CreateProcess(1, 7));
    AttachGoes(c, r);
    es := Then(c, es, RunAttach(1, 0));
    var w := Run(c, START, es);
    CleanupGoes(c, r);
    es := Then(c, es, Cleanup([1], c.retention + 1));
    AgainGoes(c, r);
    es := Then(c, es, StartDirect(r, 2, c.retention + 1));
  }

  /** What is left of it after the cleanup: the thread. */
  function Dropped(c: Config, r: StartRequest): World {
    OneJob(r, Running(r), Some(Process(0, 7)), Waiting(0), {}, [], 1)
      .(disk := Disk(map[], map[]), node := Up(EMPTY_MEMORY, map[1 := Waiting(0)], map[], None, Open),
        clock := c.retention + 1, dropped := {r.operationId})
  }

  lemma CleanupGoes(c: Config, r: StartRequest)
    requires c.retention >= 0
    ensures Next(c, OneJob(r, Running(r), Some(Process(0, 7)), Waiting(0), {}, [], 1), Complete(Cleanup([1], c.retention + 1)))
         == Dropped(c, r)
  {
    var w := OneJob(r, Running(r), Some(Process(0, 7)), Waiting(0), {}, [], 1);
    var s := Running(r);
    assert Load(w.disk.meta, [], 1) == Loading([], [], true);
    assert Load(w.disk.meta, [1], 1) == Loading([], DeleteOps(1), true) by {
      assert [1][1..] == [];
      assert w.disk.meta[1] == s && ValidSnapshot(s) && DeleteOps(1) + [] == DeleteOps(1);
    }
    DeleteApplied(w.disk, 1);
    hide ApplyOps, Load, DeleteOps;
    assert DroppedBy(w.disk.meta, map[]) == {r.operationId} by {
      assert 1 in w.disk.meta && w.disk.meta[1].operationId == r.operationId;
    }
    assert Listing([1], w.disk.meta);
    SameWorld(Next(c, w, Complete(Cleanup([1], c.retention + 1))), Dropped(c, r));
  }

  lemma AgainGoes(c: Config, r: StartRequest)
    requires c.retention >= 0
    ensures var w := Next(c, Dropped(c, r), Complete(StartDirect(r, 2, c.retention + 1)));
            && w.submissions == [Pair(r.operationId, r.digest, 1), Pair(r.operationId, r.digest, 2)]
            && w.node.Up? && w.node.tasks == map[1 := Waiting(0), 2 := Pending] && w.node.mem.told == {}
            && 1 !in w.node.mem.records
  {
    var w := Dropped(c, r);
    assert [Pair(r.operationId, r.digest, 1)] + [Pair(r.operationId, r.digest, 2)] == [Pair(r.operationId, r.digest, 1), Pair(r.operationId, r.digest, 2)];
  }
}
