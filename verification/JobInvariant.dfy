/** The job system's invariant: every step keeps it, and so does a crash after any of its writes. */
module JobInvariant {
  import opened Wrappers
  import opened Utf8
  import opened JobModels
  import opened JobStore
  import opened JobRegistry
  import opened JobSystem

  type Meta = map<JobId, Snapshot>

  // ---- What the writes of a step may do to the metadata ----

  /** From `m0` to `m`: known jobs move forward, and only a fresh job with a new operation appears. */
  ghost predicate Evolves(m0: Meta, m: Meta, now: Time, ids: set<JobId>, used: set<JobId>) {
    forall id | id in m ::
      && m[id].jobId == id && ValidSnapshot(m[id]) && m[id].updatedAt <= now
      && (if id in m0 then Follows(m0[id], m[id])
          else id in ids && id !in used && forall x | x in m && m[x].operationId == m[id].operationId :: x == id)
  }

  lemma EvolvesKeepsDisk(m0: Meta, m: Meta, was: Time, now: Time, ids: set<JobId>, used: set<JobId>)
    requires DiskInv(m0, was, used) && Evolves(m0, m, now, ids, used)
    ensures DiskInv(m, now, used + ids)
  {}

  lemma EvolvesKeepsHolds(m0: Meta, m: Meta, now: Time, ids: set<JobId>, used: set<JobId>,
                          dropped: set<OperationId>, op: OperationId, id: JobId)
    requires Evolves(m0, m, now, ids, used) && Holds(m0, dropped, op, id)
    ensures Holds(m, dropped + DroppedBy(m0, m), op, id)
  {
    if op !in dropped && id !in m {
      assert id in m0 && m0[id].operationId in DroppedBy(m0, m);
    }
  }

  lemma EvolvesKeepsPast(m0: Meta, m: Meta, now: Time, ids: set<JobId>, used: set<JobId>,
                         dropped: set<OperationId>, submissions: seq<Pair>, replies: seq<Pair>)
    requires Evolves(m0, m, now, ids, used) && PastInv(m0, dropped, submissions, replies)
    ensures PastInv(m, dropped + DroppedBy(m0, m), submissions, replies)
  {
    var dropped' := dropped + DroppedBy(m0, m);
    forall i | 0 <= i < |submissions| ensures Holds(m, dropped', submissions[i].op, submissions[i].id) {
      EvolvesKeepsHolds(m0, m, now, ids, used, dropped, submissions[i].op, submissions[i].id);
    }
    forall i | 0 <= i < |replies| ensures Holds(m, dropped', replies[i].op, replies[i].id) {
      EvolvesKeepsHolds(m0, m, now, ids, used, dropped, replies[i].op, replies[i].id);
    }
  }

  lemma EvolvesKeepsCache(n: Node, m0: Meta, m: Meta, now: Time, ids: set<JobId>, used: set<JobId>, dropped: set<OperationId>)
    requires n.Up? && Evolves(m0, m, now, ids, used) && CacheInv(n, m0, dropped)
    ensures CacheInv(n, m, dropped + DroppedBy(m0, m))
  {
    forall op, id | Holds(m0, dropped, op, id)
      ensures Holds(m, dropped + DroppedBy(m0, m), op, id)
    {
      EvolvesKeepsHolds(m0, m, now, ids, used, dropped, op, id);
    }
  }

  lemma StillEvolves(m: Meta, was: Time, now: Time, known: set<JobId>)
    requires DiskInv(m, was, known) && was <= now
    ensures Evolves(m, m, now, {}, {})
  {}

  /** A write that, compared with the metadata a step started from, only moves a job forward. */
  ghost predicate Gentle(m0: Meta, op: DiskOp, now: Time) {
    op.WriteMeta? ==>
      && op.snapshot.jobId in m0 && Follows(m0[op.snapshot.jobId], op.snapshot)
      && ValidSnapshot(op.snapshot) && op.snapshot.updatedAt <= now
  }

  lemma {:induction false} GentleOpsEvolve(m0: Meta, d: Disk, ops: seq<DiskOp>, now: Time)
    requires Evolves(m0, d.meta, now, {}, {})
    requires forall op | op in ops :: Gentle(m0, op, now)
    ensures Evolves(m0, ApplyOps(d, ops).meta, now, {}, {})
    decreases ops
  {
    hide Follows, ValidSnapshot;
    if ops != [] {
      assert Gentle(m0, ops[0], now);
      GentleOpsEvolve(m0, ApplyOp(d, ops[0]), ops[1..], now);
    }
  }

  lemma EvolvesWiden(m0: Meta, m: Meta, now: Time, ids: set<JobId>, used: set<JobId>)
    requires Evolves(m0, m, now, {}, {})
    ensures Evolves(m0, m, now, ids, used)
  {}

  /** Every prefix of the writes is a legal evolution, so a crash inside the step is harmless. */
  ghost predicate TearsWell(w: World, o: Outcome, now: Time) {
    forall k | 0 <= k <= |o.ops| ::
      Evolves(w.disk.meta, ApplyOps(w.disk, o.ops[..k]).meta, now, o.ids, w.usedIds)
  }

  lemma GentleTearsWell(w: World, o: Outcome, now: Time)
    requires DiskInv(w.disk.meta, w.clock, w.usedIds) && w.clock <= now
    requires forall op | op in o.ops :: Gentle(w.disk.meta, op, now)
    ensures TearsWell(w, o, now)
  {
    StillEvolves(w.disk.meta, w.clock, now, w.usedIds);
    forall k | 0 <= k <= |o.ops|
      ensures Evolves(w.disk.meta, ApplyOps(w.disk, o.ops[..k]).meta, now, o.ids, w.usedIds)
    {
      GentleOpsEvolve(w.disk.meta, w.disk, o.ops[..k], now);
      EvolvesWiden(w.disk.meta, ApplyOps(w.disk, o.ops[..k]).meta, now, o.ids, w.usedIds);
    }
  }

  lemma TornKeepsInv(w: World, o: Outcome, now: Time, k: nat)
    requires Inv(w) && TearsWell(w, o, now)
    ensures Inv(Torn(w, o, now, k))
  {
    hide Evolves, PastInv, DiskInv, ApplyOps;
    var j := if k <= |o.ops| then k else |o.ops|;
    var m := ApplyOps(w.disk, o.ops[..j]).meta;
    assert o.ops[..|o.ops|] == o.ops;
    EvolvesKeepsDisk(w.disk.meta, m, w.clock, now, o.ids, w.usedIds);
    EvolvesKeepsPast(w.disk.meta, m, now, o.ids, w.usedIds, w.dropped, w.submissions, w.replies);
  }

  /** What a completed step owes beyond its writes. */
  lemma CommitKeepsInv(w: World, o: Outcome, now: Time)
    requires Inv(w) && TearsWell(w, o, now)
    requires var w' := Commit(w, o, now);
             && NodeInv(w')
             && |o.submits| <= 1
             && (forall p | p in o.submits ::
                   Holds(w'.disk.meta, w'.dropped, p.op, p.id)
                   && forall id | id in w.disk.meta :: w.disk.meta[id].operationId != p.op)
             && (forall p | p in o.replies :: Holds(w'.disk.meta, w'.dropped, p.op, p.id))
    ensures Inv(Commit(w, o, now))
  {
    hide Evolves, DiskInv, ApplyOps, NodeInv;
    var w' := Commit(w, o, now);
    assert o.ops[..|o.ops|] == o.ops;
    EvolvesKeepsDisk(w.disk.meta, w'.disk.meta, w.clock, now, o.ids, w.usedIds);
    EvolvesKeepsPast(w.disk.meta, w'.disk.meta, now, o.ids, w.usedIds, w.dropped, w.submissions, w.replies);
    forall i, k | 0 <= i < k < |w'.submissions| && w'.submissions[i].op == w'.submissions[k].op
      ensures w'.submissions[i].op in w'.dropped
    {
      if k >= |w.submissions| {
        assert w'.submissions[k] in o.submits;
        assert i < |w.submissions|;
        assert Holds(w.disk.meta, w.dropped, w.submissions[i].op, w.submissions[i].id);
      }
    }
    forall i | 0 <= i < |w'.submissions|
      ensures Holds(w'.disk.meta, w'.dropped, w'.submissions[i].op, w'.submissions[i].id)
    {
      if i >= |w.submissions| { assert w'.submissions[i] in o.submits; }
    }
    forall i | 0 <= i < |w'.replies|
      ensures Holds(w'.disk.meta, w'.dropped, w'.replies[i].op, w'.replies[i].id)
    {
      if i >= |w.replies| { assert w'.replies[i] in o.replies; }
    }
  }

  // ---- Audit counting ----

  lemma CountPush(audits: seq<Audit>, a: Audit, id: JobId)
    ensures Count(audits + [a], id) == Count(audits, id) + (if a.jobId == id then 1 else 0)
  {
    assert (audits + [a])[..|audits|] == audits;
  }

  lemma {:induction false} CountZero(audits: seq<Audit>, id: JobId)
    requires forall a | a in audits :: a.jobId != id
    ensures Count(audits, id) == 0
  {
    if audits != [] {
      assert audits[|audits| - 1] in audits;
      CountZero(audits[..|audits| - 1], id);
    }
  }

  // ---- Steps that replace one record ----

  /** `n'` is `n` after rewriting record `id` to `r`, with thread pcs and closing as given. */
  ghost predicate Rewritten(n: Node, n': Node, id: JobId, r: Record, audit: bool)
    requires n.Up? && n'.Up?
  {
    && n'.mem.records == n.mem.records[id := r]
    && n'.mem.operationJobs == n.mem.operationJobs
    && n'.mem.audits == (if audit then n.mem.audits + [Audit(id, r.snapshot.state)] else n.mem.audits)
    && n.mem.told <= n'.mem.told
    && n'.cache == n.cache && n'.flight == n.flight
    && n'.tasks.Keys == n.tasks.Keys
    && (forall x | x in n.tasks && x != id :: n'.tasks[x] == n.tasks[x])
  }

  lemma RewriteSyncs(n: Node, n': Node, meta: Meta, id: JobId, r: Record, audit: bool)
    requires n.Up? && n'.Up? && Rewritten(n, n', id, r, audit)
    requires Synced(n.mem, meta) && IndexExact(n.mem, meta)
    requires id in meta && SameJob(meta[id], r.snapshot)
    ensures Synced(n'.mem, meta[id := r.snapshot]) && IndexExact(n'.mem, meta[id := r.snapshot])
  {}

  lemma RewriteAudits(n: Node, n': Node, id: JobId, r: Record, audit: bool)
    requires n.Up? && n'.Up? && Rewritten(n, n', id, r, audit)
    requires AuditsTerminal(n.mem)
    requires audit ==> r.snapshot.state.Terminal() && Count(n.mem.audits, id) <= 1
    ensures AuditsTerminal(n'.mem)
    ensures forall x :: Count(n'.mem.audits, x) == Count(n.mem.audits, x) + (if audit && x == id then 1 else 0)
    ensures forall x | x != id :: TrailOf(n'.mem.audits, x) == TrailOf(n.mem.audits, x)
  {
    forall x ensures Count(n'.mem.audits, x) == Count(n.mem.audits, x) + (if audit && x == id then 1 else 0) {
      if audit { CountPush(n.mem.audits, Audit(id, r.snapshot.state), x); }
    }
  }

  lemma RewriteTasks(n: Node, n': Node, id: JobId, r: Record, audit: bool)
    requires n.Up? && n'.Up? && Rewritten(n, n', id, r, audit)
    requires TasksFit(n)
    requires forall x | x != id :: TrailOf(n'.mem.audits, x) == TrailOf(n.mem.audits, x)
    requires TaskFits(n', id)
    ensures TasksFit(n')
  {
    hide Fits, Count;
    forall x | x in n'.mem.records ensures TaskFits(n', x) {
      if x != id { assert TaskFits(n, x); }
    }
  }

  lemma RewriteTold(n: Node, n': Node, id: JobId, r: Record, audit: bool)
    requires n.Up? && n'.Up? && Rewritten(n, n', id, r, audit)
    requires CancelledTold(n.mem)
    requires r.snapshot.state.CANCELLED? && r.process.Some? ==> r.process.value.handle in n'.mem.told
    ensures CancelledTold(n'.mem)
  {}

  lemma RewriteKeepsInv(w: World, o: Outcome, now: Time, id: JobId, r: Record, audit: bool)
    requires Inv(w) && w.node.Up? && o.node.Up? && w.clock <= now
    requires id in w.node.mem.records && Rewritten(w.node, o.node, id, r, audit)
    requires TearsWell(w, o, now)
    requires o.ids == {} && o.submits == [] && o.replies == []
    requires ApplyOps(w.disk, o.ops).meta == w.disk.meta[id := r.snapshot]
    requires audit ==> r.snapshot.state.Terminal() && Count(w.node.mem.audits, id) <= 1
    requires TaskFits(o.node, id)
    requires r.snapshot.state.CANCELLED? && r.process.Some? ==> r.process.value.handle in o.node.mem.told
    requires ClosingInv(o.node)
    ensures Inv(Commit(w, o, now))
  {
    var n, n' := w.node, o.node;
    var m, m' := w.disk.meta, w.disk.meta[id := r.snapshot];
    EvolvesFromTears(w, o, now);
    hide ApplyOps, PastInv, TearsWell, ClosingInv, TaskFits, AuditsTerminal, TasksFit, CancelledTold, IndexExact, CacheInv;
    assert id in m && Follows(m[id], r.snapshot) by { assert m'[id] == r.snapshot; }
    RewriteSyncs(n, n', m, id, r, audit);
    RewriteAudits(n, n', id, r, audit);
    RewriteTasks(n, n', id, r, audit);
    RewriteTold(n, n', id, r, audit);
    EvolvesKeepsCache(n, m, m', now, {}, w.usedIds, w.dropped);
    CacheDependsOn(n, n', m', w.dropped + DroppedBy(m, m'));
    CommitKeepsInv(w, o, now);
  }

  lemma CacheDependsOn(n: Node, n': Node, m: Meta, dropped: set<OperationId>)
    requires n.Up? && n'.Up? && n.cache == n'.cache && n.flight == n'.flight && CacheInv(n, m, dropped)
    ensures CacheInv(n', m, dropped)
  {}

  lemma EvolvesFromTears(w: World, o: Outcome, now: Time)
    requires TearsWell(w, o, now)
    ensures Evolves(w.disk.meta, ApplyOps(w.disk, o.ops).meta, now, o.ids, w.usedIds)
  {
    assert o.ops[..|o.ops|] == o.ops;
  }

  // ---- Steps that write nothing ----

  lemma QuietKeepsInv(w: World, o: Outcome, now: Time)
    requires Inv(w) && w.node.Up? && o.node.Up? && w.clock <= now
    requires o.ops == [] && o.submits == [] && o.ids == {}
    requires o.node.mem == w.node.mem.(closed := o.node.mem.closed)
    requires o.node.tasks.Keys == w.node.tasks.Keys
    requires TasksFit(o.node) && ClosingInv(o.node) && CacheInv(o.node, w.disk.meta, w.dropped)
    requires forall p | p in o.replies :: Holds(w.disk.meta, w.dropped, p.op, p.id)
    ensures TearsWell(w, o, now) && Inv(Commit(w, o, now))
  {
    hide PastInv, ClosingInv, TaskFits;
    GentleTearsWell(w, o, now);
    NoOps(w.disk);
    assert DroppedBy(w.disk.meta, w.disk.meta) == {};
    assert w.dropped + {} == w.dropped;
    assert CancelledTold(o.node.mem) && AuditsTerminal(o.node.mem);
    CommitKeepsInv(w, o, now);
  }

  /** A thread moves between its blocks; nothing else changes. */
  lemma PcMoveKeepsInv(w: World, o: Outcome, now: Time, id: JobId, pc: Pc)
    requires Inv(w) && w.node.Up? && id in w.node.tasks && w.clock <= now
    requires o == Quiet(w, SetPc(w.node, id, pc)).(handles := o.handles)
    requires id in w.node.mem.records ==>
               Fits(w.node.tasks[id], w.node.mem.records[id], TrailOf(w.node.mem.audits, id))
               ==> Fits(pc, w.node.mem.records[id], TrailOf(w.node.mem.audits, id))
    requires Finished(w.node.tasks[id]) ==> Finished(pc)
    ensures TearsWell(w, o, now) && Inv(Commit(w, o, now))
  {
    hide Fits;
    forall x | x in o.node.mem.records ensures TaskFits(o.node, x) { assert TaskFits(w.node, x); }
    CacheDependsOn(w.node, o.node, w.disk.meta, w.dropped);
    QuietKeepsInv(w, o, now);
  }

  // ---- The blocks of `_run`, `cancel` and `close` ----

  lemma OneWriteTearsWell(w: World, o: Outcome, now: Time, s: Snapshot)
    requires DiskInv(w.disk.meta, w.clock, w.usedIds) && w.clock <= now
    requires o.ops == [WriteMeta(s)] && Gentle(w.disk.meta, WriteMeta(s), now)
    ensures TearsWell(w, o, now)
    ensures ApplyOps(w.disk, o.ops).meta == w.disk.meta[s.jobId := s]
  {
    GentleTearsWell(w, o, now);
    OneOp(w.disk, WriteMeta(s));
  }

  /** Rewriting a record cannot wake a finished job, so closing makes progress only. */
  lemma ClosingAfterRewrite(n: Node, n': Node, id: JobId, r: Record, audit: bool)
    requires n.Up? && n'.Up? && ClosingInv(n) && id in n.mem.records && Rewritten(n, n', id, r, audit)
    requires n.mem.records[id].snapshot.state.Terminal() ==> r.snapshot.state.Terminal()
    requires n'.mem.closed == n.mem.closed
    requires id in n.tasks && Finished(n.tasks[id]) ==> Finished(n'.tasks[id])
    requires n'.closing == n.closing
             || (r.snapshot.state.Terminal() && n.closing.Cancelling? && n'.closing == Cancelling(n.closing.left - {id}))
    ensures ClosingInv(n')
  {
    assert ActiveJobs(n'.mem) <= ActiveJobs(n.mem);
    assert r.snapshot.state.Terminal() ==> id !in ActiveJobs(n'.mem);
  }

  lemma CancelTerminalKeepsInv(w: World, o: Outcome, now: Time, id: JobId, closing: Closing)
    requires Inv(w) && w.node.Up? && w.clock <= now && id in w.node.mem.records
    requires w.node.mem.records[id].snapshot.state.Terminal()
    requires o == Quiet(w, w.node.(closing := closing))
    requires closing == w.node.closing || (w.node.closing.Cancelling? && closing == Cancelling(w.node.closing.left - {id}))
    ensures TearsWell(w, o, now) && Inv(Commit(w, o, now))
  {
    hide Fits;
    assert ActiveJobs(o.node.mem) == ActiveJobs(w.node.mem) && id !in ActiveJobs(w.node.mem);
    forall x | x in o.node.mem.records ensures TaskFits(o.node, x) { assert TaskFits(w.node, x); }
    CacheDependsOn(w.node, o.node, w.disk.meta, w.dropped);
    QuietKeepsInv(w, o, now);
  }

  /** What cancelling an active job does to the node. */
  lemma CancelShape(n: Node, n': Node, id: JobId, now: Time, closing: Closing)
    requires n.Up? && id in n.mem.records && TaskFits(n, id) && !n.mem.records[id].snapshot.state.Terminal()
    requires n' == n.(mem := CancelBlock(n.mem, id, now).mem, closing := closing)
    ensures var r := n.mem.records[id].(snapshot := n.mem.records[id].snapshot.(state := CANCELLED, updatedAt := now));
            && Rewritten(n, n', id, r, true) && TaskFits(n', id) && Count(n.mem.audits, id) <= 1
            && (r.process.Some? ==> r.process.value.handle in n'.mem.told) && n'.mem.closed == n.mem.closed
  {
    CountPush(n.mem.audits, Audit(id, CANCELLED), id);
  }

  lemma CancelKeepsInv(w: World, o: Outcome, now: Time, id: JobId, closing: Closing)
    requires Inv(w) && w.node.Up? && w.clock <= now && id in w.node.mem.records
    requires var b := CancelBlock(w.node.mem, id, now);
             o == Writing(w, w.node.(mem := b.mem, closing := closing), b.ops)
    requires closing == w.node.closing || (w.node.closing.Cancelling? && closing == Cancelling(w.node.closing.left - {id}))
    ensures TearsWell(w, o, now) && Inv(Commit(w, o, now))
  {
    var r := w.node.mem.records[id];
    assert TaskFits(w.node, id);
    if r.snapshot.state.Terminal() {
      CancelTerminalKeepsInv(w, o, now, id, closing);
    } else {
      var s := r.snapshot.(state := CANCELLED, updatedAt := now);
      CancelShape(w.node, o.node, id, now, closing);
      OneWriteTearsWell(w, o, now, s);
      hide CancelBlock, CacheInv, PastInv, ClosingInv, IndexExact, DiskInv, ApplyOps, TaskFits, Rewritten, TearsWell;
      ClosingAfterRewrite(w.node, o.node, id, r.(snapshot := s), true);
      RewriteKeepsInv(w, o, now, id, r.(snapshot := s), true);
    }
  }

  /** What the factory-failure block does to the node. */
  lemma FailureShape(n: Node, n': Node, id: JobId, now: Time)
    requires n.Up? && id in n.mem.records && id in n.tasks && n.tasks[id].CreationFailed? && TaskFits(n, id)
    requires n' == n.(tasks := n.tasks[id := Done], mem := FactoryFailedBlock(n.mem, id, now).mem)
    ensures var r := n.mem.records[id].(snapshot := n.mem.records[id].snapshot.(state := FAILED, updatedAt := now));
            && Rewritten(n, n', id, r, true) && TaskFits(n', id) && Count(n.mem.audits, id) <= 1
            && n'.mem.closed == n.mem.closed && n'.closing == n.closing && Finished(n'.tasks[id])
  {
    CountPush(n.mem.audits, Audit(id, FAILED), id);
  }

  lemma FactoryFailedKeepsInv(w: World, o: Outcome, now: Time, id: JobId)
    requires Inv(w) && w.node.Up? && w.clock <= now && id in w.node.mem.records
    requires id in w.node.tasks && w.node.tasks[id].CreationFailed?
    requires var b := FactoryFailedBlock(w.node.mem, id, now);
             o == Writing(w, SetPc(w.node, id, Done).(mem := b.mem), b.ops)
    ensures TearsWell(w, o, now) && Inv(Commit(w, o, now))
  {
    var r := w.node.mem.records[id];
    assert TaskFits(w.node, id);
    var s := r.snapshot.(state := FAILED, updatedAt := now);
    OneWriteTearsWell(w, o, now, s);
    FailureShape(w.node, o.node, id, now);
    hide FactoryFailedBlock, CacheInv, PastInv, ClosingInv, IndexExact, DiskInv, ApplyOps, TaskFits, Rewritten, TearsWell;
    ClosingAfterRewrite(w.node, o.node, id, r.(snapshot := s), true);
    RewriteKeepsInv(w, o, now, id, r.(snapshot := s), true);
  }

  /** What attaching a process to an uncancelled job does to the node. */
  lemma AttachShape(n: Node, n': Node, id: JobId, p: Process, now: Time)
    requires n.Up? && id in n.mem.records && id in n.tasks && n.tasks[id] == Created(p) && TaskFits(n, id) && ClosingInv(n)
    requires !n.mem.records[id].snapshot.state.CANCELLED?
    requires n' == n.(tasks := n.tasks[id := Waiting(p.handle)], mem := AttachBlock(n.mem, id, p, now).mem)
    ensures var s := n.mem.records[id].snapshot.(state := RUNNING, pid := Some(p.pid), updatedAt := now);
            Rewritten(n, n', id, Record(s, Some(p)), false) && TaskFits(n', id) && ClosingInv(n')
  {}

  lemma AttachKeepsInv(w: World, o: Outcome, now: Time, id: JobId, p: Process)
    requires Inv(w) && w.node.Up? && w.clock <= now && id in w.node.mem.records
    requires id in w.node.tasks && w.node.tasks[id] == Created(p)
    requires var b := AttachBlock(w.node.mem, id, p, now);
             o == Writing(w, SetPc(w.node, id, Waiting(p.handle)).(mem := b.mem), b.ops)
    ensures TearsWell(w, o, now) && Inv(Commit(w, o, now))
  {
    var r := w.node.mem.records[id];
    assert TaskFits(w.node, id);
    if r.snapshot.state.CANCELLED? {
      GentleTearsWell(w, o, now);
      NoOps(w.disk);
      assert w.disk.meta == w.disk.meta[id := r.snapshot];
      RewriteKeepsInv(w, o, now, id, r.(process := Some(p)), false);
    } else {
      var s := r.snapshot.(state := RUNNING, pid := Some(p.pid), updatedAt := now);
      OneWriteTearsWell(w, o, now, s);
      AttachShape(w.node, o.node, id, p, now);
      hide AttachBlock, CacheInv, PastInv, ClosingInv, IndexExact, DiskInv, ApplyOps, TaskFits, Rewritten, TearsWell;
      RewriteKeepsInv(w, o, now, id, Record(s, Some(p)), false);
    }
  }

  lemma FinishTearsWell(w: World, o: Outcome, now: Time, id: JobId, res: Result)
    requires w.node.Up? && w.clock <= now && id in w.node.mem.records
    requires DiskInv(w.disk.meta, w.clock, w.usedIds) && Synced(w.node.mem, w.disk.meta)
    requires w.node.mem.records[id].snapshot.state in {RUNNING, CANCELLED}
    requires var b := FinishBlock(w.node.mem, id, res, now);
             o.ops == b.ops && o.ids == {}
    ensures TearsWell(w, o, now)
    ensures ApplyOps(w.disk, o.ops).meta
            == w.disk.meta[id := FinishBlock(w.node.mem, id, res, now).mem.records[id].snapshot]
  {
    var s := FinishBlock(w.node.mem, id, res, now).mem.records[id].snapshot;
    assert Gentle(w.disk.meta, WriteMeta(s), now);
    GentleTearsWell(w, o, now);
    ThreeOps(w.disk, WriteOutput(id, STDOUT, res.stdout), WriteOutput(id, STDERR, res.stderr), WriteMeta(s));
  }

  /** What the last block of `_run` does to the node. */
  lemma FinishShape(n: Node, n': Node, id: JobId, handle: nat, res: Result, now: Time)
    requires n.Up? && id in n.mem.records && id in n.tasks && n.tasks[id] == Exited(handle, res) && TaskFits(n, id)
    requires n' == n.(tasks := n.tasks[id := Done], mem := FinishBlock(n.mem, id, res, now).mem)
    ensures id in n'.mem.records && n'.mem.records[id].process.None? && n'.mem.records[id].snapshot.state.Terminal()
    ensures Rewritten(n, n', id, n'.mem.records[id], true) && TaskFits(n', id)
    ensures Count(n.mem.audits, id) <= 1 && n'.mem.closed == n.mem.closed && n'.closing == n.closing && Finished(n'.tasks[id])
  {
    hide Encode;
    CountPush(n.mem.audits, Audit(id, FinishBlock(n.mem, id, res, now).mem.records[id].snapshot.state), id);
  }

  lemma FinishKeepsInv(w: World, o: Outcome, now: Time, id: JobId, handle: nat, res: Result)
    requires Inv(w) && w.node.Up? && w.clock <= now && id in w.node.mem.records
    requires id in w.node.tasks && w.node.tasks[id] == Exited(handle, res)
    requires var b := FinishBlock(w.node.mem, id, res, now);
             o == Writing(w, SetPc(w.node, id, Done).(mem := b.mem), b.ops)
    ensures TearsWell(w, o, now) && Inv(Commit(w, o, now))
  {
    assert TaskFits(w.node, id);
    assert w.node.mem.records[id].snapshot.state in {RUNNING, CANCELLED};
    FinishTearsWell(w, o, now, id, res);
    FinishShape(w.node, o.node, id, handle, res, now);
    hide FinishBlock, CacheInv, PastInv, ClosingInv, IndexExact, DiskInv, ApplyOps, TaskFits, Rewritten, TearsWell;
    var r := o.node.mem.records[id];
    ClosingAfterRewrite(w.node, o.node, id, r, true);
    RewriteKeepsInv(w, o, now, id, r, true);
  }

  // ---- `start` and the replay cache around it ----

  lemma NewJobEvolves(m: Meta, was: Time, now: Time, used: set<JobId>, s: Snapshot)
    requires DiskInv(m, was, used) && was <= now
    requires s.jobId !in used && ValidSnapshot(s) && s.updatedAt <= now
    requires forall id | id in m :: m[id].operationId != s.operationId
    ensures Evolves(m, m, now, {s.jobId}, used) && Evolves(m, m[s.jobId := s], now, {s.jobId}, used)
  {}

  lemma NewJobTearsWell(w: World, o: Outcome, now: Time, s: Snapshot)
    requires DiskInv(w.disk.meta, w.clock, w.usedIds) && w.clock <= now
    requires s.jobId !in w.usedIds && ValidSnapshot(s) && s.updatedAt <= now
    requires forall id | id in w.disk.meta :: w.disk.meta[id].operationId != s.operationId
    requires o.ops == [WriteMeta(s)] && o.ids == {s.jobId}
    ensures TearsWell(w, o, now)
    ensures ApplyOps(w.disk, o.ops).meta == w.disk.meta[s.jobId := s]
  {
    NewJobEvolves(w.disk.meta, w.clock, now, w.usedIds, s);
    OneOp(w.disk, WriteMeta(s));
    NoOps(w.disk);
    assert o.ops[..0] == [] && o.ops[..1] == o.ops;
  }

  ghost predicate Added(n: Node, n': Node, s: Snapshot)
    requires n.Up? && n'.Up?
  {
    && n'.mem.records == n.mem.records[s.jobId := Record(s, None)]
    && n'.mem.operationJobs == n.mem.operationJobs[s.operationId := (s.jobId, s.requestDigest)]
    && n'.mem.audits == n.mem.audits && n'.mem.told == n.mem.told && n'.mem.closed == n.mem.closed
    && n'.tasks == n.tasks[s.jobId := Pending] && n'.closing == n.closing && n'.cache == n.cache
  }

  lemma AddSyncs(n: Node, n': Node, meta: Meta, s: Snapshot)
    requires n.Up? && n'.Up? && Added(n, n', s)
    requires Synced(n.mem, meta) && IndexExact(n.mem, meta)
    requires s.jobId !in meta && s.operationId !in n.mem.operationJobs
    ensures Synced(n'.mem, meta[s.jobId := s]) && IndexExact(n'.mem, meta[s.jobId := s])
  {}

  lemma AddTasks(n: Node, n': Node, s: Snapshot)
    requires n.Up? && n'.Up? && Added(n, n', s) && TasksFit(n) && CancelledTold(n.mem)
    requires s.state.QUEUED? && s.exitCode == None && s.jobId !in n.mem.records
    requires forall a | a in n.mem.audits :: a.jobId != s.jobId
    ensures TasksFit(n') && CancelledTold(n'.mem)
  {
    CountZero(n.mem.audits, s.jobId);
    hide Fits, Count;
    forall x | x in n'.mem.records ensures TaskFits(n', x) {
      if x == s.jobId {
        FitsPending(s);
      } else {
        assert TaskFits(n, x);
      }
    }
  }

  lemma FitsPending(s: Snapshot)
    requires s.state.QUEUED? && s.exitCode == None
    ensures Fits(Pending, Record(s, None), Trail(0, false))
  {}

  ghost predicate Submits(w: World, o: Outcome, now: Time, r: StartRequest, newId: JobId, viaCache: bool) {
    && Inv(w) && w.node.Up? && w.clock <= now && FreshId(w, newId)
    && (viaCache ==> w.node.flight.Some? && w.node.flight.value.Operating?
                     && w.node.flight.value.call.operationId == r.operationId)
    && StartBlock(w.node.mem, r, newId, now).1 == Accepted(NewSnapshot(newId, r.operationId, r.digest, r.kind, now), true)
    && o == Starting(w, r, newId, now, viaCache)
  }

  lemma SubmitShape(w: World, o: Outcome, now: Time, r: StartRequest, newId: JobId, viaCache: bool)
    requires Submits(w, o, now, r, newId, viaCache)
    ensures var s := NewSnapshot(newId, r.operationId, r.digest, r.kind, now);
            && o.node.Up? && Added(w.node, o.node, s) && o.ops == [WriteMeta(s)] && o.ids == {newId}
            && newId !in w.node.mem.records && r.operationId !in w.node.mem.operationJobs && !w.node.mem.closed
            && o.submits == [Pair(r.operationId, r.digest, newId)]
            && (forall p | p in o.replies :: p == Pair(r.operationId, r.digest, newId))
            && o.node.flight == (if viaCache then Some(Answered(w.node.flight.value.call, StartAnswer(s))) else w.node.flight)
  {}

  lemma SubmitTearsWell(w: World, o: Outcome, now: Time, r: StartRequest, newId: JobId, viaCache: bool)
    requires Submits(w, o, now, r, newId, viaCache)
    ensures TearsWell(w, o, now)
    ensures ApplyOps(w.disk, o.ops).meta == w.disk.meta[newId := NewSnapshot(newId, r.operationId, r.digest, r.kind, now)]
  {
    SubmitShape(w, o, now, r, newId, viaCache);
    hide StartBlock, Starting, ApplyOps, PastInv, TaskFits, Count, CacheInv, ClosingInv;
    var s := NewSnapshot(newId, r.operationId, r.digest, r.kind, now);
    NewJobTearsWell(w, o, now, s);
  }

  lemma SubmitNode(w: World, o: Outcome, now: Time, r: StartRequest, newId: JobId, viaCache: bool, m': Meta)
    requires Submits(w, o, now, r, newId, viaCache)
    requires m' == w.disk.meta[newId := NewSnapshot(newId, r.operationId, r.digest, r.kind, now)]
    ensures Synced(o.node.mem, m') && IndexExact(o.node.mem, m')
    ensures TasksFit(o.node) && CancelledTold(o.node.mem) && AuditsTerminal(o.node.mem) && ClosingInv(o.node)
  {
    SubmitShape(w, o, now, r, newId, viaCache);
    hide StartBlock, Starting, ApplyOps, PastInv, TaskFits, Count, CacheInv, DiskInv;
    var s := NewSnapshot(newId, r.operationId, r.digest, r.kind, now);
    AddSyncs(w.node, o.node, w.disk.meta, s);
    AddTasks(w.node, o.node, s);
    AuditsDependOn(w.node.mem, o.node.mem);
  }

  lemma SubmitCache(w: World, o: Outcome, now: Time, r: StartRequest, newId: JobId, viaCache: bool, m': Meta, dropped: set<OperationId>)
    requires Submits(w, o, now, r, newId, viaCache)
    requires CacheInv(w.node, m', dropped) && newId in m' && m'[newId].operationId == r.operationId
    ensures CacheInv(o.node, m', dropped)
  {
    SubmitShape(w, o, now, r, newId, viaCache);
    hide StartBlock, Starting, Inv;
  }

  lemma SubmitKeepsInv(w: World, o: Outcome, now: Time, r: StartRequest, newId: JobId, viaCache: bool)
    requires Submits(w, o, now, r, newId, viaCache)
    ensures TearsWell(w, o, now) && Inv(Commit(w, o, now))
  {
    var m, m' := w.disk.meta, ApplyOps(w.disk, o.ops).meta;
    SubmitTearsWell(w, o, now, r, newId, viaCache);
    SubmitNode(w, o, now, r, newId, viaCache, m');
    EvolvesFromTears(w, o, now);
    EvolvesKeepsCache(w.node, m, m', now, o.ids, w.usedIds, w.dropped);
    SubmitCache(w, o, now, r, newId, viaCache, m', w.dropped + DroppedBy(m, m'));
    SubmitShape(w, o, now, r, newId, viaCache);
    hide StartBlock, Starting, ApplyOps, PastInv, TasksFit, CacheInv, ClosingInv, CancelledTold, AuditsTerminal, TearsWell, Evolves;
    CommitKeepsInv(w, o, now);
  }

  lemma AuditsDependOn(m: Memory, m': Memory)
    requires AuditsTerminal(m) && m.audits == m'.audits
    ensures AuditsTerminal(m')
  {}

  lemma StartKeepsInv(w: World, o: Outcome, now: Time, r: StartRequest, newId: JobId, viaCache: bool)
    requires Inv(w) && w.node.Up? && w.clock <= now && FreshId(w, newId)
    requires viaCache ==> w.node.flight.Some? && w.node.flight.value.Operating?
                          && w.node.flight.value.call.operationId == r.operationId
                          && w.node.flight.value.call.payload == StartPayload(w.node.flight.value.call.payload.raw, r)
    requires o == Starting(w, r, newId, now, viaCache)
    ensures TearsWell(w, o, now) && Inv(Commit(w, o, now))
  {
    hide Fits;
    var reply := StartBlock(w.node.mem, r, newId, now).1;
    if reply.Accepted? && reply.submitted {
      hide Inv;
      SubmitKeepsInv(w, o, now, r, newId, viaCache);
    } else {
      if reply.Accepted? {
        assert r.operationId in w.node.mem.operationJobs;
        assert Holds(w.disk.meta, w.dropped, r.operationId, reply.snapshot.jobId);
      }
      forall x | x in o.node.mem.records ensures TaskFits(o.node, x) { assert TaskFits(w.node, x); }
      assert CacheInv(o.node, w.disk.meta, w.dropped);
      QuietKeepsInv(w, o, now);
    }
  }

  /** Steps of the cache's lock holder that leave registry and threads alone. */
  lemma CacheStepKeepsInv(w: World, o: Outcome, now: Time)
    requires Inv(w) && w.node.Up? && o.node.Up? && w.clock <= now
    requires o.ops == [] && o.submits == [] && o.ids == {}
    requires o.node == w.node.(cache := o.node.cache, flight := o.node.flight)
    requires CacheInv(o.node, w.disk.meta, w.dropped)
    requires forall p | p in o.replies :: Holds(w.disk.meta, w.dropped, p.op, p.id)
    ensures TearsWell(w, o, now) && Inv(Commit(w, o, now))
  {
    hide Fits, CacheInv;
    forall x | x in o.node.mem.records ensures TaskFits(o.node, x) { assert TaskFits(w.node, x); }
    QuietKeepsInv(w, o, now);
  }

  lemma BeginKeepsInv(w: World, call: Call, now: Time)
    requires Inv(w) && w.node.Up? && w.clock <= now
    requires call.payload.StartPayload? ==> call.payload.request.operationId == call.operationId
    ensures TearsWell(w, Begun(w, call), now) && Inv(Commit(w, Begun(w, call), now))
  {
    assert CacheInv(Begun(w, call).node, w.disk.meta, w.dropped);
    CacheStepKeepsInv(w, Begun(w, call), now);
  }

  lemma EndKeepsInv(w: World, ttl: Time, now: Time)
    requires Inv(w) && w.node.Up? && w.clock <= now
    requires w.node.flight.Some? && w.node.flight.value.Answered?
    ensures TearsWell(w, Ended(w, ttl), now) && Inv(Commit(w, Ended(w, ttl), now))
  {
    assert CacheInv(Ended(w, ttl).node, w.disk.meta, w.dropped);
    CacheStepKeepsInv(w, Ended(w, ttl), now);
  }
}
