/** The registry's lock-held blocks. Each is a function from the memory it finds to the memory it
    leaves and the disk writes it makes in order; the class runs the same blocks in place. */
module JobRegistry {
  import opened Wrappers
  import opened Utf8
  import opened JobModels
  import opened JobStore
  import OutputPaging

  datatype Process = Process(handle: nat, pid: int)

  datatype Result = Result(
    exitCode: int, stdout: Text, stderr: Text, stdoutBytes: nat, stderrBytes: nat, truncated: bool)

  datatype Record = Record(snapshot: Snapshot, process: Option<Process>)

  datatype Audit = Audit(jobId: JobId, state: JobState)

  /** `told` collects the processes whose `cancel` was called; `audits` what the recorder received. */
  datatype Memory = Memory(
    records: map<JobId, Record>,
    operationJobs: map<OperationId, (JobId, Digest)>,
    closed: bool,
    told: set<nat>,
    audits: seq<Audit>)

  const EMPTY_MEMORY := Memory(map[], map[], false, {}, [])

  datatype Block = Block(mem: Memory, ops: seq<DiskOp>)

  datatype StartRequest = StartRequest(operationId: OperationId, kind: JobKind, digest: Digest)

  /** KeyMissing is the KeyError an index entry without a record would raise. */
  datatype StartReply = Accepted(snapshot: Snapshot, submitted: bool) | ReplayConflict | RegistryClosed | KeyMissing

  function StartBlock(m: Memory, r: StartRequest, newId: JobId, now: Time): (Block, StartReply) {
    if m.closed then (Block(m, []), RegistryClosed)
    else if r.operationId in m.operationJobs then
      var (existing, digest) := m.operationJobs[r.operationId];
      if digest != r.digest then (Block(m, []), ReplayConflict)
      else if existing !in m.records then (Block(m, []), KeyMissing)
      else (Block(m, []), Accepted(m.records[existing].snapshot, false))
    else if newId in m.records then (Block(m, []), ReplayConflict)
    else
      var s := NewSnapshot(newId, r.operationId, r.digest, r.kind, now);
      var mem := m.(records := m.records[newId := Record(s, None)],
                    operationJobs := m.operationJobs[r.operationId := (newId, r.digest)]);
      (Block(mem, [WriteMeta(s)]), Accepted(s, true))
  }

  /** Replaces one record, writes it through and audits it when asked. */
  function Rewrite(m: Memory, id: JobId, r: Record, audit: bool): Memory {
    m.(records := m.records[id := r],
       audits := if audit then m.audits + [Audit(id, r.snapshot.state)] else m.audits)
  }

  function CancelBlock(m: Memory, id: JobId, now: Time): Block
    requires id in m.records
  {
    var r := m.records[id];
    if r.snapshot.state.Terminal() then Block(m, [])
    else
      var s := r.snapshot.(state := CANCELLED, updatedAt := now);
      var told := if r.process.Some? then m.told + {r.process.value.handle} else m.told;
      Block(Rewrite(m, id, r.(snapshot := s), true).(told := told), [WriteMeta(s)])
  }

  /** jobs.py:193-201: FAILED whatever the state was. */
  function FactoryFailedBlock(m: Memory, id: JobId, now: Time): Block
    requires id in m.records
  {
    var r := m.records[id];
    var s := r.snapshot.(state := FAILED, updatedAt := now);
    Block(Rewrite(m, id, r.(snapshot := s), true), [WriteMeta(s)])
  }

  function AttachBlock(m: Memory, id: JobId, p: Process, now: Time): Block
    requires id in m.records
  {
    var r := m.records[id];
    if r.snapshot.state.CANCELLED? then
      Block(Rewrite(m, id, r.(process := Some(p)), false).(told := m.told + {p.handle}), [])
    else
      var s := r.snapshot.(state := RUNNING, pid := Some(p.pid), updatedAt := now);
      Block(Rewrite(m, id, Record(s, Some(p)), false), [WriteMeta(s)])
  }

  function FinishBlock(m: Memory, id: JobId, res: Result, now: Time): Block
    requires id in m.records
  {
    var r := m.records[id];
    var state := if r.snapshot.state.CANCELLED? then CANCELLED
                 else if res.exitCode == 0 then SUCCEEDED else FAILED;
    var s := r.snapshot.(
      state := state, exitCode := Some(res.exitCode), updatedAt := now,
      stdoutBytes := res.stdoutBytes, stderrBytes := res.stderrBytes,
      retainedBytes := |Encode(res.stdout)| + |Encode(res.stderr)|, truncated := res.truncated);
    Block(Rewrite(m, id, Record(s, None), true),
          [WriteOutput(id, STDOUT, res.stdout), WriteOutput(id, STDERR, res.stderr), WriteMeta(s)])
  }

  function ActiveJobs(m: Memory): set<JobId> {
    set id | id in m.records && !m.records[id].snapshot.state.Terminal()
  }

  function Retained(m: Memory, ids: set<JobId>): Memory {
    m.(records := map id | id in m.records && id in ids :: m.records[id],
       operationJobs := map op | op in m.operationJobs && m.operationJobs[op].0 in ids :: m.operationJobs[op])
  }

  function KeptIds(kept: seq<Snapshot>): set<JobId> { set s | s in kept :: s.jobId }

  /** `cleanup_retention`; None when `load` raised, which leaves the memory alone. */
  function CleanupBlock(m: Memory, meta: map<JobId, Snapshot>, files: seq<JobId>, expiry: Time): (Option<Memory>, seq<DiskOp>)
    requires forall id | id in files :: id in meta
  {
    var l := Load(meta, files, expiry);
    (if l.valid then Some(Retained(m, KeptIds(l.kept))) else None, l.ops)
  }

  function Recovered(kept: seq<Snapshot>, now: Time): (r: seq<Snapshot>)
    ensures |r| == |kept| && forall i | 0 <= i < |kept| :: r[i] == Interrupted(kept[i], now)
  {
    seq(|kept|, i requires 0 <= i < |kept| => Interrupted(kept[i], now))
  }

  function InterruptOps(kept: seq<Snapshot>, now: Time): seq<DiskOp> {
    if kept == [] then []
    else (if kept[0].state.Terminal() then [] else [WriteMeta(Interrupted(kept[0], now))])
         + InterruptOps(kept[1..], now)
  }

  function RecordsOf(snapshots: seq<Snapshot>): map<JobId, Record> {
    if snapshots == [] then map[]
    else var last := snapshots[|snapshots| - 1];
         RecordsOf(snapshots[..|snapshots| - 1])[last.jobId := Record(last, None)]
  }

  function IndexFrom(snapshots: seq<Snapshot>): map<OperationId, (JobId, Digest)> {
    if snapshots == [] then map[]
    else var last := snapshots[|snapshots| - 1];
         IndexFrom(snapshots[..|snapshots| - 1])[last.operationId := (last.jobId, last.requestDigest)]
  }

  /** `recover_store`: the clock is read once for the interruptions and again inside `load`. */
  function RecoverBlock(meta: map<JobId, Snapshot>, files: seq<JobId>, now: Time, expiry: Time): (Option<Memory>, seq<DiskOp>)
    requires forall id | id in files :: id in meta
  {
    var l := Load(meta, files, expiry);
    if !l.valid then (None, l.ops)
    else
      var snapshots := Recovered(l.kept, now);
      (Some(EMPTY_MEMORY.(records := RecordsOf(snapshots), operationJobs := IndexFrom(snapshots))),
       l.ops + InterruptOps(l.kept, now))
  }

  // ---- The registry as the source has it ----

  /** InvalidOutput is InvalidOutputWindowError. */
  datatype JobOutput = InvalidOutput | JobOutput(window: OutputPaging.Window, totalBytes: int, truncated: bool)

  function OutputReply(m: Memory, d: Disk, id: JobId, stream: Stream, offset: int, limit: int): Option<JobOutput> {
    if offset < 0 || limit < 1 || limit > OutputPaging.MAX_JOB_OUTPUT_CHUNK_BYTES then Some(InvalidOutput)
    else if id !in m.records then None
    else
      var s := m.records[id].snapshot;
      var window := OutputPaging.ReadWindow(if (id, stream) in d.output then d.output[(id, stream)] else [], offset, limit);
      if window.InvalidWindow? then Some(InvalidOutput)
      else Some(JobOutput(window, if stream.STDOUT? then s.stdoutBytes else s.stderrBytes, s.truncated))
  }

  class Registry {
    var records: map<JobId, Record>
    var operationJobs: map<OperationId, (JobId, Digest)>
    var closed: bool
    var told: set<nat>
    var audits: seq<Audit>
    const limits: JobLimits
    const store: Store

    ghost function View(): Memory reads this { Memory(records, operationJobs, closed, told, audits) }

    constructor (store: Store, limits: JobLimits)
      ensures View() == EMPTY_MEMORY && this.store == store && this.limits == limits
    {
      records, operationJobs, closed, told, audits := map[], map[], false, {}, [];
      this.store := store;
      this.limits := limits;
    }

    /** The part of `__init__` that reads the disk back. */
    method Recover(files: seq<JobId>, now: Time, loadNow: Time) returns (ok: bool)
      requires Listing(files, store.meta) && Named(store.meta)
      requires View() == EMPTY_MEMORY
      modifies this, store
      ensures var (mem, ops) := RecoverBlock(old(store.meta), files, now, loadNow - store.retention);
              && ok == mem.Some?
              && View() == (if ok then mem.value else old(View()))
              && store.View() == ApplyOps(old(store.View()), ops)
    {
      hide ApplyOps, Load, RecordsOf, IndexFrom, InterruptOps;
      ghost var disk := store.View();
      ghost var l := Load(store.meta, files, loadNow - store.retention);
      var kept, valid := store.LoadAll(files, loadNow);
      ok := valid;
      if !valid { return; }
      WriteInterrupted(kept, now);
      ApplyOpsAppend(disk, l.ops, InterruptOps(kept, now));
      var snapshots := Recovered(kept, now);
      records, operationJobs := RecordsOf(snapshots), IndexFrom(snapshots);
    }

    method WriteInterrupted(kept: seq<Snapshot>, now: Time)
      modifies store
      ensures store.View() == ApplyOps(old(store.View()), InterruptOps(kept, now))
    {
      hide ApplyOps, ApplyOp, Interrupted;
      ghost var done: seq<DiskOp> := [];
      NoOps(store.View());
      var i := 0;
      while i < |kept|
        invariant 0 <= i <= |kept|
        invariant store.View() == ApplyOps(old(store.View()), done)
        invariant InterruptOps(kept, now) == done + InterruptOps(kept[i..], now)
      {
        assert kept[i..][0] == kept[i] && kept[i..][1..] == kept[i + 1..];
        if !kept[i].state.Terminal() {
          var s := Interrupted(kept[i], now);
          store.WriteSnapshot(s);
          OneOp(ApplyOps(old(store.View()), done), WriteMeta(s));
          ApplyOpsAppend(old(store.View()), done, [WriteMeta(s)]);
          assert done + InterruptOps(kept[i..], now) == done + [WriteMeta(s)] + InterruptOps(kept[i + 1..], now);
          done := done + [WriteMeta(s)];
        } else {
          assert InterruptOps(kept[i..], now) == InterruptOps(kept[i + 1..], now);
        }
        i := i + 1;
      }
      assert done + InterruptOps(kept[i..], now) == done;
    }

    /** `start`; None is InvalidJobSpecError or CanonicalPayloadError, raised before any change.
        Submitting `_run` to the executor is the caller's step when the reply says so. */
    method Start(spec: JobSpec, newId: JobId, now: Time) returns (reply: Option<StartReply>)
      modifies this, store
      ensures reply.None? <==>
                !ValidArgv(spec.argv) || (!old(closed) && JobRequestDigest(spec, limits).None?)
      ensures reply.None? ==> View() == old(View()) && store.View() == old(store.View())
      ensures reply.Some? && old(closed) ==>
                (reply == Some(RegistryClosed) && View() == old(View()) && store.View() == old(store.View()))
      ensures reply.Some? && !old(closed) ==>
                var request := StartRequest(spec.operationId, spec.kind, JobRequestDigest(spec, limits).value);
                var (block, expected) := StartBlock(old(View()), request, newId, now);
                reply == Some(expected) && View() == block.mem
                && store.View() == ApplyOps(old(store.View()), block.ops)
    {
      NoOps(store.View());
      if !ValidArgv(spec.argv) { return None; }
      if closed { return Some(RegistryClosed); }
      var digest := JobRequestDigest(spec, limits);
      if digest.None? { return None; }
      if spec.operationId in operationJobs {
        var (existing, known) := operationJobs[spec.operationId];
        if known != digest.value { return Some(ReplayConflict); }
        if existing !in records { return Some(KeyMissing); }
        return Some(Accepted(records[existing].snapshot, false));
      }
      if newId in records { return Some(ReplayConflict); }
      var s := NewSnapshot(newId, spec.operationId, digest.value, spec.kind, now);
      records := records[newId := Record(s, None)];
      operationJobs := operationJobs[spec.operationId := (newId, digest.value)];
      OneOp(store.View(), WriteMeta(s));
      store.WriteSnapshot(s);
      return Some(Accepted(s, true));
    }

    /** `cancel`; None is JobNotFoundError. */
    method Cancel(id: JobId, now: Time) returns (snapshot: Option<Snapshot>)
      modifies this, store
      ensures id !in old(records) ==>
                snapshot == None && View() == old(View()) && store.View() == old(store.View())
      ensures id in old(records) ==>
                var block := CancelBlock(old(View()), id, now);
                && View() == block.mem && store.View() == ApplyOps(old(store.View()), block.ops)
                && snapshot == Some(records[id].snapshot) && snapshot.value.state.Terminal()
    {
      NoOps(store.View());
      if id !in records { return None; }
      var r := records[id];
      if r.snapshot.state.Terminal() { return Some(r.snapshot); }
      var s := r.snapshot.(state := CANCELLED, updatedAt := now);
      records := records[id := r.(snapshot := s)];
      OneOp(store.View(), WriteMeta(s));
      store.WriteSnapshot(s);
      if r.process.Some? { told := told + {r.process.value.handle}; }
      audits := audits + [Audit(id, s.state)];
      return Some(s);
    }

    /** `output`: None is JobNotFoundError; a running job has no output file yet and reads as empty. */
    method Output(id: JobId, stream: Stream, offset: int, limit: int) returns (w: Option<JobOutput>)
      ensures w == OutputReply(View(), store.View(), id, stream, offset, limit)
    {
      if offset < 0 || limit < 1 || limit > OutputPaging.MAX_JOB_OUTPUT_CHUNK_BYTES { return Some(InvalidOutput); }
      if id !in records { return None; }
      var s := records[id].snapshot;
      var data := store.ReadOutput(id, stream);
      var window := OutputPaging.ReadWindow(data, offset, limit);
      if window.InvalidWindow? { return Some(InvalidOutput); }
      match stream {
        case STDOUT => return Some(JobOutput(window, s.stdoutBytes, s.truncated));
        case STDERR => return Some(JobOutput(window, s.stderrBytes, s.truncated));
      }
    }

    /** The first block of `close`: the ids it will cancel, or None when it was closed already. */
    method BeginClose() returns (active: Option<set<JobId>>)
      modifies this
      ensures View() == old(View()).(closed := true)
      ensures active == if old(closed) then None else Some(ActiveJobs(old(View())))
    {
      if closed { return None; }
      closed := true;
      return Some(set id | id in records && !records[id].snapshot.state.Terminal());
    }

    /** `cleanup_retention`, with the receipt's removed ids; None when `load` raised. */
    method CleanupRetention(files: seq<JobId>, now: Time) returns (removed: Option<set<JobId>>)
      requires Listing(files, store.meta) && Named(store.meta)
      modifies this, store
      ensures var (mem, ops) := CleanupBlock(old(View()), old(store.meta), files, now - store.retention);
              && store.View() == ApplyOps(old(store.View()), ops)
              && View() == (if mem.Some? then mem.value else old(View()))
              && removed == (if mem.Some? then Some(old(records).Keys - mem.value.records.Keys) else None)
    {
      hide ApplyOps, Load;
      var kept, valid := store.LoadAll(files, now);
      if !valid { return None; }
      var before := records.Keys;
      var ids := set s | s in kept :: s.jobId;
      records := map id | id in records && id in ids :: records[id];
      operationJobs := map op | op in operationJobs && operationJobs[op].0 in ids :: operationJobs[op];
      return Some(before - records.Keys);
    }

    /** `_run`, first block: whether to go on and create the process. */
    method RunCheck(id: JobId) returns (found: bool, proceed: bool)
      ensures found == (id in records)
      ensures proceed == (found && !records[id].snapshot.state.CANCELLED?)
    {
      found := id in records;
      proceed := found && !records[id].snapshot.state.CANCELLED?;
    }

    method RunFactoryFailed(id: JobId, now: Time) returns (found: bool)
      modifies this, store
      ensures found == (id in old(records))
      ensures !found ==> View() == old(View()) && store.View() == old(store.View())
      ensures found ==> var block := FactoryFailedBlock(old(View()), id, now);
                        View() == block.mem && store.View() == ApplyOps(old(store.View()), block.ops)
    {
      found := id in records;
      if !found { return; }
      var s := records[id].snapshot.(state := FAILED, updatedAt := now);
      records := records[id := records[id].(snapshot := s)];
      OneOp(store.View(), WriteMeta(s));
      store.WriteSnapshot(s);
      audits := audits + [Audit(id, s.state)];
    }

    method RunAttach(id: JobId, p: Process, now: Time) returns (found: bool)
      modifies this, store
      ensures found == (id in old(records))
      ensures !found ==> View() == old(View()) && store.View() == old(store.View())
      ensures found ==> var block := AttachBlock(old(View()), id, p, now);
                        View() == block.mem && store.View() == ApplyOps(old(store.View()), block.ops)
    {
      NoOps(store.View());
      found := id in records;
      if !found { return; }
      var r := records[id].(process := Some(p));
      records := records[id := r];
      if r.snapshot.state.CANCELLED? {
        told := told + {p.handle};
      } else {
        var s := r.snapshot.(state := RUNNING, pid := Some(p.pid), updatedAt := now);
        records := records[id := r.(snapshot := s)];
        OneOp(store.View(), WriteMeta(s));
        store.WriteSnapshot(s);
      }
    }

    method RunFinish(id: JobId, res: Result, now: Time) returns (found: bool)
      modifies this, store
      ensures found == (id in old(records))
      ensures !found ==> View() == old(View()) && store.View() == old(store.View())
      ensures found ==> var block := FinishBlock(old(View()), id, res, now);
                        View() == block.mem && store.View() == ApplyOps(old(store.View()), block.ops)
    {
      found := id in records;
      if !found { return; }
      var r := records[id];
      var state := r.snapshot.state;
      if !state.CANCELLED? {
        state := if res.exitCode == 0 then SUCCEEDED else FAILED;
      }
      ghost var disk := store.View();
      store.WriteOutputFile(id, STDOUT, res.stdout);
      store.WriteOutputFile(id, STDERR, res.stderr);
      var retained := |Encode(res.stdout)| + |Encode(res.stderr)|;
      var s := r.snapshot.(
        state := state, exitCode := Some(res.exitCode), updatedAt := now,
        stdoutBytes := res.stdoutBytes, stderrBytes := res.stderrBytes,
        retainedBytes := retained, truncated := res.truncated);
      store.WriteSnapshot(s);
      ThreeOps(disk, WriteOutput(id, STDOUT, res.stdout), WriteOutput(id, STDERR, res.stderr), WriteMeta(s));
      records := records[id := Record(s, None)];
      audits := audits + [Audit(id, s.state)];
    }
  }

  /** `start` rejects an empty argv, an empty argument and an argument holding NUL. */
  predicate ValidArgv(argv: seq<Str>) {
    argv != [] && forall i | 0 <= i < |argv| :: argv[i] != [] && 0 !in argv[i]
  }

  lemma OneOp(d: Disk, op: DiskOp)
    ensures ApplyOps(d, [op]) == ApplyOp(d, op)
  {
    NoOps(ApplyOp(d, op));
  }

  lemma ThreeOps(d: Disk, a: DiskOp, b: DiskOp, c: DiskOp)
    ensures ApplyOps(d, [a, b, c]) == ApplyOp(ApplyOp(ApplyOp(d, a), b), c)
  {
    assert [a, b, c][1..] == [b, c] && [b, c][1..] == [c];
    OneOp(ApplyOp(ApplyOp(d, a), b), c);
  }
}
