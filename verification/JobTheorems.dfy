/** What holds in every run of the job system, whatever interleaves and wherever it crashes. */
module JobTheorems {
  import opened Wrappers
  import opened JobModels
  import opened JobStore
  import opened JobRegistry
  import opened JobSystem
  import opened JobInvariant
  import opened JobRecovery

  // ---- Every step ----

  /** Between its blocks a thread moves to a place its record already fits. */
  lemma PcMoveFits(pc: Pc, next: Pc, r: Record, a: Trail)
    requires Fits(pc, r, a)
    requires || (pc.Pending? && next == if r.snapshot.state.CANCELLED? then Done else Creating)
             || (pc.Creating? && next.CreationFailed?)
             || (pc.Creating? && next.Created? && next.process.pid > 0)
             || (pc.Waiting? && next.Exited? && next.handle == pc.handle)
             || ((pc.Creating? || pc.Waiting?) && next.Raised?)
    ensures Fits(next, r, a)
  {}

  lemma PcStepShape(c: Config, w: World, s: Step)
    requires Enabled(w, s)
    requires s.RunCheck? || s.CreateProcess? || s.CreateFails? || s.RunRaises? || s.ProcessExits?
    ensures var o := Perform(c, w, s);
            && o.node.Up? && s.id in o.node.tasks && s.id in w.node.tasks && w.clock <= StepTime(w, s)
            && o == Quiet(w, SetPc(w.node, s.id, o.node.tasks[s.id])).(handles := o.handles)
            && !Finished(w.node.tasks[s.id])
            && (s.id in w.node.mem.records ==>
                  var pc, next, r := w.node.tasks[s.id], o.node.tasks[s.id], w.node.mem.records[s.id];
                  || (pc.Pending? && next == if r.snapshot.state.CANCELLED? then Done else Creating)
                  || (pc.Creating? && next.CreationFailed?)
                  || (pc.Creating? && next.Created? && next.process.pid > 0)
                  || (pc.Waiting? && next.Exited? && next.handle == pc.handle)
                  || ((pc.Creating? || pc.Waiting?) && next.Raised?))
  {}

  lemma PcStepKeepsInv(c: Config, w: World, s: Step)
    requires Inv(w) && Enabled(w, s)
    requires s.RunCheck? || s.CreateProcess? || s.CreateFails? || s.RunRaises? || s.ProcessExits?
    ensures TearsWell(w, Perform(c, w, s), StepTime(w, s)) && Inv(Commit(w, Perform(c, w, s), StepTime(w, s)))
  {
    PcStepShape(c, w, s);
    var id, o := s.id, Perform(c, w, s);
    hide Inv, Perform, Enabled, Fits, TearsWell, Commit;
    if id in w.node.mem.records && Fits(w.node.tasks[id], w.node.mem.records[id], TrailOf(w.node.mem.audits, id)) {
      PcMoveFits(w.node.tasks[id], o.node.tasks[id], w.node.mem.records[id], TrailOf(w.node.mem.audits, id));
    }
    PcMoveKeepsInv(w, o, StepTime(w, s), id, o.node.tasks[id]);
  }

  lemma LostKeepsInv(c: Config, w: World, s: Step)
    requires Inv(w) && Enabled(w, s)
    requires s.RunFactoryFailed? || s.RunAttach? || s.RunFinish?
    requires s.id !in w.node.mem.records
    ensures TearsWell(w, Perform(c, w, s), StepTime(w, s)) && Inv(Commit(w, Perform(c, w, s), StepTime(w, s)))
  {
    hide Inv;
    PcMoveKeepsInv(w, Perform(c, w, s), StepTime(w, s), s.id, Lost);
  }

  lemma CloseStepKeepsInv(c: Config, w: World, s: Step)
    requires Inv(w) && Enabled(w, s)
    requires s.CloseBegins? || s.CloseReturns? || ((s.CloseCancels? || s.Cancel?) && s.id !in w.node.mem.records)
    ensures TearsWell(w, Perform(c, w, s), StepTime(w, s)) && Inv(Commit(w, Perform(c, w, s), StepTime(w, s)))
  {
    hide Fits;
    var o := Perform(c, w, s);
    assert ActiveJobs(o.node.mem) == ActiveJobs(w.node.mem);
    forall x | x in o.node.mem.records ensures TaskFits(o.node, x) { assert TaskFits(w.node, x); }
    CacheDependsOn(w.node, o.node, w.disk.meta, w.dropped);
    QuietKeepsInv(w, o, StepTime(w, s));
  }

  lemma OtherStepKeepsInv(c: Config, w: World, s: Step)
    requires Inv(w) && Enabled(w, s)
    requires s.OtherOperation? || s.OperationRaises?
    ensures TearsWell(w, Perform(c, w, s), StepTime(w, s)) && Inv(Commit(w, Perform(c, w, s), StepTime(w, s)))
  {
    assert CacheInv(Perform(c, w, s).node, w.disk.meta, w.dropped);
    hide Inv, CacheInv;
    CacheStepKeepsInv(w, Perform(c, w, s), StepTime(w, s));
  }

  /** Every step keeps the invariant, and so does every crash inside it. */
  lemma StepKeepsInv(c: Config, w: World, s: Step)
    requires Inv(w) && Enabled(w, s)
    ensures TearsWell(w, Perform(c, w, s), StepTime(w, s)) && Inv(Commit(w, Perform(c, w, s), StepTime(w, s)))
  {
    if s.Cancel? || s.CloseCancels? || s.RunFactoryFailed? || s.RunAttach? || s.RunFinish? {
      RecordStepKeepsInv(c, w, s);
    } else {
      hide TearsWell, Commit, Fits, ApplyOps, RecoverBlock, CleanupBlock;
      var now := StepTime(w, s);
      match s
      case Restart(files, t, loadNow) => RestartKeepsInv(w, Perform(c, w, s), files, t, loadNow, c.retention);
      case BeginCall(call) => BeginKeepsInv(w, call, now);
      case StartJob(newId, _) => StartKeepsInv(w, Perform(c, w, s), now, w.node.flight.value.call.payload.request, newId, true);
      case EndCall => EndKeepsInv(w, c.ttl, now);
      case StartDirect(r, newId, _) => StartKeepsInv(w, Perform(c, w, s), now, r, newId, false);
      case Cleanup(files, _) => CleanupKeepsInv(w, Perform(c, w, s), now, files, now - c.retention);
      case OtherOperation(_) => OtherStepKeepsInv(c, w, s);
      case OperationRaises => OtherStepKeepsInv(c, w, s);
      case CloseBegins => CloseStepKeepsInv(c, w, s);
      case CloseReturns => CloseStepKeepsInv(c, w, s);
      case _ => PcStepKeepsInv(c, w, s);
    }
  }

  lemma RecordStepKeepsInv(c: Config, w: World, s: Step)
    requires Inv(w) && Enabled(w, s)
    requires s.Cancel? || s.CloseCancels? || s.RunFactoryFailed? || s.RunAttach? || s.RunFinish?
    ensures TearsWell(w, Perform(c, w, s), StepTime(w, s)) && Inv(Commit(w, Perform(c, w, s), StepTime(w, s)))
  {
    hide TearsWell, Commit, Fits, ApplyOps, Inv;
    var now, o := StepTime(w, s), Perform(c, w, s);
    if s.id !in w.node.mem.records {
      if s.Cancel? || s.CloseCancels? { CloseStepKeepsInv(c, w, s); } else { LostKeepsInv(c, w, s); }
    } else {
      match s
      case Cancel(id, _) => CancelKeepsInv(w, o, now, id, w.node.closing);
      case CloseCancels(id, _) => CancelKeepsInv(w, o, now, id, Cancelling(w.node.closing.left - {id}));
      case RunFactoryFailed(id, _) => FactoryFailedKeepsInv(w, o, now, id);
      case RunAttach(id, _) => AttachKeepsInv(w, o, now, id, w.node.tasks[id].process);
      case RunFinish(id, _) => FinishKeepsInv(w, o, now, id, w.node.tasks[id].handle, w.node.tasks[id].result);
    }
  }

  lemma NextKeepsInv(c: Config, w: World, e: Event)
    requires Inv(w)
    ensures Inv(Next(c, w, e))
  {
    if !e.Crash? && Enabled(w, e.step) {
      StepKeepsInv(c, w, e.step);
      hide Inv, Perform, TearsWell, Commit, Torn;
      if e.CrashIn? { TornKeepsInv(w, Perform(c, w, e.step), StepTime(w, e.step), e.k); }
    }
  }

  lemma {:induction false} RunKeepsInv(c: Config, w: World, es: seq<Event>)
    requires Inv(w)
    ensures Inv(Run(c, w, es))
    decreases es
  {
    if es != [] {
      NextKeepsInv(c, w, es[0]);
      RunKeepsInv(c, Next(c, w, es[0]), es[1..]);
    }
  }

  /** The invariant of every run from an empty disk. */
  lemma EveryRunKeepsInv(c: Config, es: seq<Event>)
    ensures Inv(Run(c, START, es))
  {
    RunKeepsInv(c, START, es);
  }

  // ---- One job per operation ----

  /** Whatever the calls, cache expiries, crashes and restarts: unless retention removed its job, an
      operation's command is submitted at most once, every successful `job_start` reply names the
      same job, and that job is the submitted one. */
  lemma OneJobPerOperation(c: Config, es: seq<Event>, op: OperationId)
    ensures var w := Run(c, START, es);
            op !in w.dropped ==>
              && (forall i, k | 0 <= i < |w.submissions| && 0 <= k < |w.submissions|
                                && w.submissions[i].op == op && w.submissions[k].op == op :: i == k)
              && (forall i, k | 0 <= i < |w.replies| && 0 <= k < |w.replies|
                                && w.replies[i].op == op && w.replies[k].op == op :: w.replies[i].id == w.replies[k].id)
              && (forall i, k | 0 <= i < |w.replies| && 0 <= k < |w.submissions|
                                && w.replies[i].op == op && w.submissions[k].op == op :: w.replies[i].id == w.submissions[k].id)
  {
    EveryRunKeepsInv(c, es);
    var w := Run(c, START, es);
    assert DiskInv(w.disk.meta, w.clock, w.usedIds) && PastInv(w.disk.meta, w.dropped, w.submissions, w.replies);
    hide Inv, Run;
    if op !in w.dropped {
      forall i, k | 0 <= i < |w.replies| && 0 <= k < |w.replies| && w.replies[i].op == op && w.replies[k].op == op
        ensures w.replies[i].id == w.replies[k].id
      {
        assert Holds(w.disk.meta, w.dropped, op, w.replies[i].id) && Holds(w.disk.meta, w.dropped, op, w.replies[k].id);
      }
      forall i, k | 0 <= i < |w.replies| && 0 <= k < |w.submissions| && w.replies[i].op == op && w.submissions[k].op == op
        ensures w.replies[i].id == w.submissions[k].id
      {
        assert Holds(w.disk.meta, w.dropped, op, w.replies[i].id) && Holds(w.disk.meta, w.dropped, op, w.submissions[k].id);
      }
    }
  }

  // ---- Memory, disk and index ----

  /** At every lock release memory, disk and operation index describe the same jobs. */
  lemma MemoryMatchesDisk(c: Config, es: seq<Event>)
    ensures var w := Run(c, START, es);
            w.node.Up? ==>
              && w.node.mem.records.Keys == w.disk.meta.Keys
              && (forall id | id in w.disk.meta :: w.node.mem.records[id].snapshot == w.disk.meta[id])
              && w.node.mem.operationJobs.Keys == (set id | id in w.disk.meta :: w.disk.meta[id].operationId)
              && (forall op | op in w.node.mem.operationJobs ::
                    var (id, digest) := w.node.mem.operationJobs[op];
                    id in w.disk.meta && w.disk.meta[id].operationId == op && w.disk.meta[id].requestDigest == digest)
              && (forall a, b | a in w.node.mem.operationJobs && b in w.node.mem.operationJobs
                                && w.node.mem.operationJobs[a].0 == w.node.mem.operationJobs[b].0 :: a == b)
  {
    EveryRunKeepsInv(c, es);
    var w := Run(c, START, es);
    if w.node.Up? {
      assert Synced(w.node.mem, w.disk.meta) && IndexExact(w.node.mem, w.disk.meta);
      hide Inv, Run;
      forall op ensures op in w.node.mem.operationJobs <==> op in (set id | id in w.disk.meta :: w.disk.meta[id].operationId) {
        if op in w.node.mem.operationJobs { assert w.node.mem.operationJobs[op].0 in w.disk.meta; }
      }
    }
  }

  lemma NextMovesForward(c: Config, w: World, e: Event, id: JobId)
    requires Inv(w) && id in w.usedIds
    ensures var w' := Next(c, w, e);
            && w.usedIds <= w'.usedIds
            && (id in w'.disk.meta ==> id in w.disk.meta && Follows(w.disk.meta[id], w'.disk.meta[id]))
  {
    if !e.Crash? && Enabled(w, e.step) {
      StepKeepsInv(c, w, e.step);
      var o, now := Perform(c, w, e.step), StepTime(w, e.step);
      hide Inv, Perform;
      EvolvesFromTears(w, o, now);
      if e.CrashIn? && e.k <= |o.ops| {
        assert Evolves(w.disk.meta, ApplyOps(w.disk, o.ops[..e.k]).meta, now, o.ids, w.usedIds);
      }
    }
  }

  /** In every run a job keeps its identity and a terminal state stays, but for CANCELLED becoming FAILED
      (JobOutcomes says exactly when); and once its metadata is gone no thread ever writes it back. */
  lemma {:induction false} JobsMoveForward(c: Config, w: World, es: seq<Event>, id: JobId)
    requires Inv(w) && id in w.usedIds
    ensures var w' := Run(c, w, es);
            id in w'.disk.meta ==> id in w.disk.meta && Follows(w.disk.meta[id], w'.disk.meta[id])
    decreases es
  {
    if es != [] {
      NextKeepsInv(c, w, es[0]);
      NextMovesForward(c, w, es[0], id);
      JobsMoveForward(c, Next(c, w, es[0]), es[1..], id);
    }
  }

  // ---- Cancellation, audit, close ----

  /** Cancelled processes were told to stop, and the audit mapping never sees an active state. */
  lemma CancelAndAuditDiscipline(c: Config, es: seq<Event>)
    ensures var w := Run(c, START, es);
            w.node.Up? ==>
              && (forall id | id in w.node.mem.records && w.node.mem.records[id].snapshot.state.CANCELLED?
                              && w.node.mem.records[id].process.Some? ::
                    w.node.mem.records[id].process.value.handle in w.node.mem.told)
              && (forall i | 0 <= i < |w.node.mem.audits| :: w.node.mem.audits[i].state.Terminal())
              && (forall id :: Count(w.node.mem.audits, id) <= 2)
  {
    EveryRunKeepsInv(c, es);
  }

  /** A job whose thread is over is terminal and audited unless the thread was ended by an error that `_run`
      does not catch and nobody has cancelled the job: then it is still QUEUED or RUNNING, and not audited.
      Otherwise it was audited once, and a second time exactly when it had been audited as cancelled while its
      thread still had a block to run: its process was started or its factory failed. */
  lemma FinishedJobsAuditedExactly(c: Config, es: seq<Event>, id: JobId)
    ensures var w := Run(c, START, es);
            w.node.Up? && id in w.node.mem.records && id in w.node.tasks && Finished(w.node.tasks[id]) ==>
              var s, audits, raised := w.node.mem.records[id].snapshot, w.node.mem.audits, w.node.tasks[id].Raised?;
              && (s.state.Terminal() <==> !(raised && !s.state.CANCELLED?))
              && Count(audits, id) == (if raised then (if s.state.CANCELLED? then 1 else 0)
                                       else 1 + if Audit(id, CANCELLED) in audits && !(s.state.CANCELLED? && s.exitCode.None?) then 1 else 0)
              && (s.state.CANCELLED? ==> Audit(id, CANCELLED) in audits)
              && (!s.state.CANCELLED? && (raised || s.exitCode.Some?) ==> Audit(id, CANCELLED) !in audits)
  {
    EveryRunKeepsInv(c, es);
    var w := Run(c, START, es);
    hide Inv, Run;
    if w.node.Up? && id in w.node.mem.records && id in w.node.tasks { ThreadFits(w, id); }
  }

  lemma ThreadFits(w: World, id: JobId)
    requires w.node.Up? && id in w.node.mem.records
    ensures Inv(w) ==> TaskFits(w.node, id)
  {}

  /** Once the first `close` has returned, every record is terminal and every thread is over. */
  lemma ClosedMeansTerminal(c: Config, es: seq<Event>)
    ensures var w := Run(c, START, es);
            w.node.Up? && w.node.closing.CloseReturned? ==>
              && (forall id | id in w.node.mem.records :: w.node.mem.records[id].snapshot.state.Terminal())
              && (forall id | id in w.node.tasks :: Finished(w.node.tasks[id]))
  {
    EveryRunKeepsInv(c, es);
    var w := Run(c, START, es);
    if w.node.Up? && w.node.closing.CloseReturned? {
      assert ClosingInv(w.node);
      forall id | id in w.node.mem.records ensures w.node.mem.records[id].snapshot.state.Terminal() {
        assert id !in ActiveJobs(w.node.mem);
      }
    }
  }

  // ---- Restart ----

  lemma LeftAfterRestart(m0: Meta, expiry: Time, now: Time)
    ensures var meta := AllInterrupted(Unexpired(m0, expiry), now);
            && meta.Keys == m0.Keys - Expired(m0, expiry)
            && (forall id | id in meta :: meta[id].state.Terminal() && SameJob(m0[id], meta[id]))
            && (forall id | id in meta && m0[id].state.Terminal() :: meta[id] == m0[id])
            && (forall id | id in meta && !m0[id].state.Terminal() ::
                  meta[id] == m0[id].(state := INTERRUPTED, pid := None, updatedAt := now))
  {}

  /** After a crash anywhere in any run, a restart succeeds; it leaves no active job, drops exactly
      the expired ones and changes no terminal snapshot. */
  lemma RestartAlwaysSucceeds(c: Config, es: seq<Event>, files: seq<JobId>, now: Time, expiry: Time)
    ensures var w := Run(c, START, es);
            Listing(files, w.disk.meta) ==>
              var (mem, ops) := RecoverBlock(w.disk.meta, files, now, expiry);
              var meta := ApplyOps(w.disk, ops).meta;
              && mem.Some?
              && meta.Keys == w.disk.meta.Keys - Expired(w.disk.meta, expiry)
              && (forall id | id in meta :: meta[id].state.Terminal() && SameJob(w.disk.meta[id], meta[id]))
              && (forall id | id in meta && w.disk.meta[id].state.Terminal() :: meta[id] == w.disk.meta[id])
              && (forall id | id in meta && !w.disk.meta[id].state.Terminal() ::
                    meta[id] == w.disk.meta[id].(state := INTERRUPTED, pid := None, updatedAt := now))
  {
    EveryRunKeepsInv(c, es);
    var w := Run(c, START, es);
    assert DiskInv(w.disk.meta, w.clock, w.usedIds);
    hide Inv, Run, RecoverBlock, ApplyOps, AllInterrupted, Unexpired, Expired, Listing, Synced, IndexExact, UniqueOperations, AllValid;
    LeftAfterRestart(w.disk.meta, expiry, now);
    if Listing(files, w.disk.meta) { RecoverLeaves(w.disk, files, now, expiry); }
  }

  /** Restarting again before anything expires changes neither the disk nor the rebuilt registry. */
  lemma RestartIdempotent(d: Disk, files: seq<JobId>, now: Time, expiry: Time, files': seq<JobId>, now': Time, expiry': Time)
    requires Named(d.meta) && AllValid(d.meta) && UniqueOperations(d.meta) && Listing(files, d.meta)
    requires forall id | id in d.meta :: d.meta[id].updatedAt <= now
    requires var d1 := ApplyOps(d, RecoverBlock(d.meta, files, now, expiry).1);
             Listing(files', d1.meta) && forall id | id in d1.meta :: d1.meta[id].updatedAt >= expiry'
    ensures var (mem1, ops1) := RecoverBlock(d.meta, files, now, expiry);
            var d1 := ApplyOps(d, ops1);
            var (mem2, ops2) := RecoverBlock(d1.meta, files', now', expiry');
            && mem1.Some? && mem2.Some? && ApplyOps(d1, ops2).meta == d1.meta
            && mem2.value.records == mem1.value.records && mem2.value.operationJobs == mem1.value.operationJobs
  {
    RecoverLeaves(d, files, now, expiry);
    RestartedDiskReady(d.meta, expiry, now);
    hide RecoverBlock, ApplyOps, UniqueOperations, AllValid, Listing, Synced, IndexExact, Named, AllInterrupted, Unexpired;
    var d1 := ApplyOps(d, RecoverBlock(d.meta, files, now, expiry).1);
    RecoverLeaves(d1, files', now', expiry');
    RestartedStays(d1.meta, now', expiry');
    SameMemory(RecoverBlock(d.meta, files, now, expiry).0.value, RecoverBlock(d1.meta, files', now', expiry').0.value, d1.meta);
  }

  lemma RestartedDiskReady(m0: Meta, expiry: Time, now: Time)
    requires Named(m0) && AllValid(m0) && UniqueOperations(m0)
    requires forall id | id in m0 :: m0[id].updatedAt <= now
    ensures var meta := AllInterrupted(Unexpired(m0, expiry), now);
            Named(meta) && AllValid(meta) && UniqueOperations(meta) && forall id | id in meta :: meta[id].state.Terminal()
  {
    InterruptKeepsUnique(Unexpired(m0, expiry), now);
    hide UniqueOperations;
  }

  lemma RestartedStays(meta: Meta, now: Time, expiry: Time)
    requires forall id | id in meta :: meta[id].state.Terminal() && meta[id].updatedAt >= expiry
    ensures AllInterrupted(Unexpired(meta, expiry), now) == meta
  {}

  lemma SameMemory(a: Memory, b: Memory, meta: Meta)
    requires Synced(a, meta) && Synced(b, meta) && IndexExact(a, meta) && IndexExact(b, meta)
    requires forall id | id in a.records :: a.records[id].process == None
    requires forall id | id in b.records :: b.records[id].process == None
    ensures a.records == b.records && a.operationJobs == b.operationJobs
  {
    forall op ensures op in a.operationJobs <==> op in b.operationJobs {
      if op in a.operationJobs { assert a.operationJobs[op].0 in meta; }
      if op in b.operationJobs { assert b.operationJobs[op].0 in meta; }
    }
    forall op | op in a.operationJobs ensures a.operationJobs[op] == b.operationJobs[op] {
      assert a.operationJobs[op].0 in meta;
    }
  }

  lemma {:induction false} LoadValidIff(meta: Meta, files: seq<JobId>, expiry: Time)
    requires forall id | id in files :: id in meta
    ensures Load(meta, files, expiry).valid <==> forall i | 0 <= i < |files| :: ValidSnapshot(meta[files[i]])
  {
    if files != [] {
      LoadValidIff(meta, files[1..], expiry);
      assert forall i | 0 < i < |files| :: files[i] == files[1..][i - 1];
    }
  }

  /** One invalid metadata file is enough to stop the whole service from starting. */
  lemma RestartSucceedsIffAllValid(meta: Meta, files: seq<JobId>, now: Time, expiry: Time)
    requires Listing(files, meta)
    ensures RecoverBlock(meta, files, now, expiry).0.Some? <==> AllValid(meta)
  {
    LoadValidIff(meta, files, expiry);
    if Load(meta, files, expiry).valid {
      forall id | id in meta ensures ValidSnapshot(meta[id]) {
        assert id in files;
      }
    } else {
      var i :| 0 <= i < |files| && !ValidSnapshot(meta[files[i]]);
      assert files[i] in files;
    }
  }

  /** Why the clock must not go back: `cancel` writes metadata that the next start can read exactly
      when its clock is not before the job's creation. */
  lemma CancelWritesValidIff(m: Memory, id: JobId, now: Time)
    requires id in m.records && ValidSnapshot(m.records[id].snapshot) && !m.records[id].snapshot.state.Terminal()
    ensures ValidSnapshot(CancelBlock(m, id, now).mem.records[id].snapshot)
            <==> m.records[id].snapshot.createdAt <= now
  {}
}
