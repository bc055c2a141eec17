/** Retention and restart: what `load`, `cleanup_retention` and `recover_store` make of the disk. */
module JobRecovery {
  import opened Wrappers
  import opened JobModels
  import opened JobStore
  import opened JobRegistry
  import opened JobSystem
  import opened JobInvariant

  ghost predicate DistinctJobs(ss: seq<Snapshot>) {
    forall i, k | 0 <= i < k < |ss| :: ss[i].jobId != ss[k].jobId
  }

  lemma {:induction false} LoadDistinct(meta: Meta, files: seq<JobId>, expiry: Time)
    requires Named(meta) && AllValid(meta)
    requires forall id | id in files :: id in meta
    requires forall i, k | 0 <= i < k < |files| :: files[i] != files[k]
    ensures DistinctJobs(Load(meta, files, expiry).kept)
  {
    if files != [] {
      LoadDistinct(meta, files[1..], expiry);
      LoadExact(meta, files[1..], expiry);
      assert files[0] !in files[1..];
      var kept, rest := Load(meta, files, expiry).kept, Load(meta, files[1..], expiry).kept;
      if kept != rest {
        assert kept == [meta[files[0]]] + rest;
        forall k | 0 < k < |kept| ensures kept[k].jobId != kept[0].jobId {
          assert kept[k] in rest;
        }
      }
    }
  }

  function Unexpired(meta: Meta, expiry: Time): Meta {
    map id | id in meta && meta[id].updatedAt >= expiry :: meta[id]
  }

  /** After the deletions exactly the unexpired metadata is left, and those jobs were kept. */
  lemma LoadLeaves(d: Disk, files: seq<JobId>, expiry: Time)
    requires Listing(files, d.meta) && Named(d.meta) && AllValid(d.meta)
    ensures var l := Load(d.meta, files, expiry);
            && l.valid
            && ApplyOps(d, l.ops).meta == Unexpired(d.meta, expiry)
            && KeptIds(l.kept) == Unexpired(d.meta, expiry).Keys
            && (forall s :: s in l.kept <==> s.jobId in d.meta && d.meta[s.jobId] == s && s.updatedAt >= expiry)
  {
    LoadExact(d.meta, files, expiry);
    var l := Load(d.meta, files, expiry);
    UnlinksApplied(d, l.ops);
    forall id ensures id in KeptIds(l.kept) <==> id in Unexpired(d.meta, expiry) {
      if id in Unexpired(d.meta, expiry) { assert d.meta[id] in l.kept; }
    }
  }

  /** Of the outputs exactly those of the expired jobs are gone. */
  lemma LoadLeavesOutputs(d: Disk, files: seq<JobId>, expiry: Time)
    requires Listing(files, d.meta) && Named(d.meta) && AllValid(d.meta)
    ensures ApplyOps(d, Load(d.meta, files, expiry).ops).output
         == map key | key in d.output && !(key.0 in d.meta && d.meta[key.0].updatedAt < expiry) :: d.output[key]
  {
    LoadExact(d.meta, files, expiry);
    var ops := Load(d.meta, files, expiry).ops;
    forall key: (JobId, Stream)
      ensures var out := ApplyOps(d, ops).output;
              && (key in out <==> key in d.output && !(key.0 in d.meta && d.meta[key.0].updatedAt < expiry))
              && (key in out ==> out[key] == d.output[key])
    {
      UnlinksAppliedToOutput(d, ops, key);
      LoadUnlinksOutput(d.meta, files, expiry, key.0, key.1);
    }
  }

  // ---- Cleanup ----

  lemma RetainedNode(n: Node, n': Node, meta: Meta, expiry: Time)
    requires n.Up? && n'.Up?
    requires n' == n.(mem := Retained(n.mem, Unexpired(meta, expiry).Keys))
    requires Synced(n.mem, meta) && IndexExact(n.mem, meta)
    requires TasksFit(n) && CancelledTold(n.mem) && AuditsTerminal(n.mem) && ClosingInv(n)
    ensures Synced(n'.mem, Unexpired(meta, expiry)) && IndexExact(n'.mem, Unexpired(meta, expiry))
    ensures TasksFit(n') && CancelledTold(n'.mem) && AuditsTerminal(n'.mem) && ClosingInv(n')
  {
    hide Fits;
    forall x | x in n'.mem.records ensures TaskFits(n', x) { assert TaskFits(n, x); }
    assert ActiveJobs(n'.mem) <= ActiveJobs(n.mem);
  }

  lemma CleanupKeepsInv(w: World, o: Outcome, now: Time, files: seq<JobId>, expiry: Time)
    requires Inv(w) && w.node.Up? && w.clock <= now && Listing(files, w.disk.meta)
    requires var (mem, ops) := CleanupBlock(w.node.mem, w.disk.meta, files, expiry);
             o == Writing(w, if mem.Some? then w.node.(mem := mem.value) else w.node, ops)
    ensures TearsWell(w, o, now) && Inv(Commit(w, o, now))
  {
    LoadLeaves(w.disk, files, expiry);
    LoadExact(w.disk.meta, files, expiry);
    hide Load, ApplyOps, PastInv, TasksFit, CancelledTold, AuditsTerminal, ClosingInv, IndexExact, CacheInv;
    GentleTearsWell(w, o, now);
    EvolvesFromTears(w, o, now);
    var m, m' := w.disk.meta, Unexpired(w.disk.meta, expiry);
    RetainedNode(w.node, o.node, m, expiry);
    EvolvesKeepsCache(w.node, m, m', now, {}, w.usedIds, w.dropped);
    CacheDependsOn(w.node, o.node, m', w.dropped + DroppedBy(m, m'));
    CommitKeepsInv(w, o, now);
  }

  // ---- Restart ----

  function AllInterrupted(meta: Meta, now: Time): Meta {
    map id | id in meta :: Interrupted(meta[id], now)
  }

  lemma {:induction false} InterruptApplied(d: Disk, kept: seq<Snapshot>, now: Time)
    requires Named(d.meta) && forall s | s in kept :: s.jobId in d.meta && d.meta[s.jobId] == s
    requires DistinctJobs(kept)
    decreases kept
    ensures var m := ApplyOps(d, InterruptOps(kept, now)).meta;
            m.Keys == d.meta.Keys
            && forall id | id in m :: m[id] == if d.meta[id] in kept then Interrupted(d.meta[id], now) else d.meta[id]
  {
    if kept != [] {
      var s := kept[0];
      assert s in kept;
      var ops := if s.state.Terminal() then [] else [WriteMeta(Interrupted(s, now))];
      var d1 := if s.state.Terminal() then d else ApplyOp(d, WriteMeta(Interrupted(s, now)));
      assert ApplyOps(d, ops) == d1 by {
        NoOps(d);
        OneOp(d, WriteMeta(Interrupted(s, now)));
      }
      ApplyOpsAppend(d, ops, InterruptOps(kept[1..], now));
      forall t | t in kept[1..] ensures t.jobId in d1.meta && d1.meta[t.jobId] == t {
        var k :| 0 <= k < |kept| - 1 && kept[1..][k] == t;
        assert kept[k + 1] == t && t in kept && t.jobId != s.jobId;
      }
      InterruptApplied(d1, kept[1..], now);
      forall id | id in d.meta
        ensures d.meta[id] in kept <==> d.meta[id] == s || d.meta[id] in kept[1..]
      {}
      InterruptedOnce(d, d1, kept, now);
    }
  }

  lemma InterruptedOnce(d: Disk, d1: Disk, kept: seq<Snapshot>, now: Time)
    requires kept != [] && kept[0].jobId in d.meta && d.meta[kept[0].jobId] == kept[0]
    requires forall s | s in kept[1..] :: s.jobId != kept[0].jobId
    requires d1.meta == d.meta[kept[0].jobId := Interrupted(kept[0], now)]
    requires forall id | id in d.meta && d.meta[id] == kept[0] :: id == kept[0].jobId
    ensures forall id | id in d.meta ::
              (if d1.meta[id] in kept[1..] then Interrupted(d1.meta[id], now) else d1.meta[id])
              == if d.meta[id] in kept then Interrupted(d.meta[id], now) else d.meta[id]
  {}

  lemma {:induction false} RecordsOfExact(ss: seq<Snapshot>)
    ensures forall id | id in RecordsOf(ss) ::
              RecordsOf(ss)[id].process == None && RecordsOf(ss)[id].snapshot in ss && RecordsOf(ss)[id].snapshot.jobId == id
    ensures forall s | s in ss :: s.jobId in RecordsOf(ss)
  {
    if ss != [] {
      RecordsOfExact(ss[..|ss| - 1]);
      assert forall s :: s in ss <==> s in ss[..|ss| - 1] || s == ss[|ss| - 1];
    }
  }

  lemma {:induction false} IndexFromExact(ss: seq<Snapshot>)
    ensures forall op | op in IndexFrom(ss) ::
              exists s | s in ss :: s.operationId == op && IndexFrom(ss)[op] == (s.jobId, s.requestDigest)
    ensures forall s | s in ss :: s.operationId in IndexFrom(ss)
  {
    if ss != [] {
      IndexFromExact(ss[..|ss| - 1]);
      assert forall s :: s in ss <==> s in ss[..|ss| - 1] || s == ss[|ss| - 1];
    }
  }

  /** Records and index rebuilt from a listing of all the metadata are exact. */
  lemma RebuiltExact(ss: seq<Snapshot>, meta: Meta)
    requires UniqueOperations(meta)
    requires forall id | id in meta :: meta[id] in ss && meta[id].jobId == id
    requires forall s | s in ss :: s.jobId in meta && meta[s.jobId] == s
    ensures var m := EMPTY_MEMORY.(records := RecordsOf(ss), operationJobs := IndexFrom(ss));
            Synced(m, meta) && IndexExact(m, meta) && forall id | id in m.records :: m.records[id].process == None
  {
    RecordsOfExact(ss);
    IndexFromExact(ss);
  }

  lemma {:induction false} InterruptOpsGentle(kept: seq<Snapshot>, m0: Meta, now: Time, loadNow: Time)
    requires now <= loadNow && AllValid(m0)
    requires forall s | s in kept :: s.jobId in m0 && m0[s.jobId] == s && s.updatedAt <= now
    ensures forall op | op in InterruptOps(kept, now) :: Gentle(m0, op, loadNow)
  {
    if kept != [] {
      assert kept[0] in kept;
      InterruptOpsGentle(kept[1..], m0, now, loadNow);
    }
  }

  lemma RecoverDisk(d: Disk, files: seq<JobId>, now: Time, expiry: Time)
    requires Listing(files, d.meta) && Named(d.meta) && AllValid(d.meta)
    ensures var l := Load(d.meta, files, expiry);
            ApplyOps(d, l.ops + InterruptOps(l.kept, now)).meta == AllInterrupted(Unexpired(d.meta, expiry), now)
  {
    LoadLeaves(d, files, expiry);
    LoadDistinct(d.meta, files, expiry);
    hide Load, ApplyOps, InterruptOps, ValidSnapshot, KeptIds, Interrupted, Listing;
    var l := Load(d.meta, files, expiry);
    var d1 := ApplyOps(d, l.ops);
    ApplyOpsAppend(d, l.ops, InterruptOps(l.kept, now));
    InterruptApplied(d1, l.kept, now);
    assert forall id | id in d1.meta :: d1.meta[id] in l.kept;
  }

  lemma InterruptKeepsUnique(left: Meta, now: Time)
    requires UniqueOperations(left)
    ensures UniqueOperations(AllInterrupted(left, now))
  {
    var meta := AllInterrupted(left, now);
    forall a, b | a in meta && b in meta && meta[a].operationId == meta[b].operationId
      ensures a == b
    {
      assert left[a].operationId == left[b].operationId;
    }
  }

  lemma RecoverMemory(left: Meta, kept: seq<Snapshot>, now: Time)
    requires Named(left) && UniqueOperations(left)
    requires forall t :: t in kept <==> t.jobId in left && left[t.jobId] == t
    ensures var ss := Recovered(kept, now);
            var meta := AllInterrupted(left, now);
            var m := EMPTY_MEMORY.(records := RecordsOf(ss), operationJobs := IndexFrom(ss));
            Synced(m, meta) && IndexExact(m, meta) && forall id | id in m.records :: m.records[id].process == None
  {
    hide RecordsOf, IndexFrom, Synced, IndexExact, Recovered, UniqueOperations;
    var meta := AllInterrupted(left, now);
    RecoveredExact(kept, left, now);
    InterruptKeepsUnique(left, now);
    RebuiltExact(Recovered(kept, now), meta);
  }

  /** What a restart leaves: the unexpired metadata, with every active job interrupted. */
  lemma RecoverLeaves(d: Disk, files: seq<JobId>, now: Time, expiry: Time)
    requires Listing(files, d.meta) && Named(d.meta) && AllValid(d.meta) && UniqueOperations(d.meta)
    ensures var (mem, ops) := RecoverBlock(d.meta, files, now, expiry);
            var meta := AllInterrupted(Unexpired(d.meta, expiry), now);
            && mem.Some?
            && ApplyOps(d, ops).meta == meta
            && Synced(mem.value, meta) && IndexExact(mem.value, meta)
            && (forall id | id in mem.value.records :: mem.value.records[id].process == None)
            && mem.value.closed == false && mem.value.audits == [] && mem.value.told == {}
  {
    LoadLeaves(d, files, expiry);
    var left, kept := Unexpired(d.meta, expiry), Load(d.meta, files, expiry).kept;
    assert Named(left) && UniqueOperations(left) && forall t :: t in kept <==> t.jobId in left && left[t.jobId] == t;
    hide Load, ApplyOps, InterruptOps, RecordsOf, IndexFrom, Synced, IndexExact, AllInterrupted, Unexpired, Recovered;
    RecoverDisk(d, files, now, expiry);
    RecoverMemory(left, kept, now);
  }

  lemma RecoveredExact(kept: seq<Snapshot>, m: Meta, now: Time)
    requires Named(m) && forall t :: t in kept <==> t.jobId in m && m[t.jobId] == t
    ensures forall s | s in Recovered(kept, now) :: s.jobId in m && Interrupted(m[s.jobId], now) == s
    ensures forall id | id in m :: Interrupted(m[id], now) in Recovered(kept, now)
  {
    var ss := Recovered(kept, now);
    forall s | s in ss ensures s.jobId in m && Interrupted(m[s.jobId], now) == s {
      var i :| 0 <= i < |ss| && ss[i] == s;
      assert kept[i] in kept;
    }
    forall id | id in m ensures Interrupted(m[id], now) in ss {
      assert m[id] in kept;
      var i :| 0 <= i < |kept| && kept[i] == m[id];
      assert ss[i] == Interrupted(m[id], now);
    }
  }

  lemma RestartedTerminal(m0: Meta, expiry: Time, now: Time)
    ensures var meta := AllInterrupted(Unexpired(m0, expiry), now);
            forall id | id in meta :: meta[id].state.Terminal()
  {}

  /** A node that has just recovered runs nothing and has told, audited and cached nothing. */
  lemma FreshNode(w: World)
    requires w.node.Up? && w.node == Up(w.node.mem, map[], map[], None, Open)
    requires Synced(w.node.mem, w.disk.meta) && IndexExact(w.node.mem, w.disk.meta)
    requires forall id | id in w.node.mem.records ::
               w.node.mem.records[id].process == None && w.node.mem.records[id].snapshot.state.Terminal()
    requires !w.node.mem.closed && w.node.mem.audits == [] && w.node.mem.told == {}
    ensures NodeInv(w)
  {
    hide IndexExact;
  }

  lemma RestartKeepsInv(w: World, o: Outcome, files: seq<JobId>, now: Time, loadNow: Time, retention: Time)
    requires Inv(w) && w.node.Down? && w.clock <= now <= loadNow && Listing(files, w.disk.meta)
    requires var (mem, ops) := RecoverBlock(w.disk.meta, files, now, loadNow - retention);
             o == Writing(w, if mem.Some? then Up(mem.value, map[], map[], None, Open) else Down, ops)
    ensures TearsWell(w, o, loadNow) && Inv(Commit(w, o, loadNow)) && o.node.Up?
  {
    var expiry := loadNow - retention;
    RecoverLeaves(w.disk, files, now, expiry);
    RestartTearsWell(w, o, files, now, loadNow, expiry);
    assert ApplyOps(w.disk, o.ops).meta == AllInterrupted(Unexpired(w.disk.meta, expiry), now);
    hide RecoverBlock, ApplyOps, PastInv, TearsWell, Listing, DiskInv;
    assert forall id | id in o.node.mem.records :: o.node.mem.records[id].snapshot.state.Terminal() by {
      RestartedTerminal(w.disk.meta, expiry, now);
    }
    hide AllInterrupted, Unexpired;
    FreshNode(Commit(w, o, loadNow));
    hide NodeInv, Synced, IndexExact;
    CommitKeepsInv(w, o, loadNow);
  }

  lemma RestartTearsWell(w: World, o: Outcome, files: seq<JobId>, now: Time, loadNow: Time, expiry: Time)
    requires Inv(w) && w.clock <= now <= loadNow && Listing(files, w.disk.meta)
    requires o.ops == RecoverBlock(w.disk.meta, files, now, expiry).1
    ensures TearsWell(w, o, loadNow)
  {
    var l := Load(w.disk.meta, files, expiry);
    LoadExact(w.disk.meta, files, expiry);
    InterruptOpsGentle(l.kept, w.disk.meta, now, loadNow);
    hide Load, ApplyOps, PastInv;
    GentleTearsWell(w, o, loadNow);
  }
}
