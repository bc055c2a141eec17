/** The durable map under the registry: metadata replaced atomically, one file a job, and two
    output files a job. A block of the registry is a list of these writes, so a crash inside it
    leaves any prefix of the list. */
module JobStore {
  import opened Utf8
  import opened JobModels

  datatype Stream = STDOUT | STDERR

  datatype Disk = Disk(meta: map<JobId, Snapshot>, output: map<(JobId, Stream), Bytes>)

  datatype DiskOp =
    | WriteMeta(snapshot: Snapshot)
    | WriteOutput(id: JobId, stream: Stream, text: Text)
    | UnlinkMeta(id: JobId)
    | UnlinkOutput(id: JobId, stream: Stream)

  function ApplyOp(d: Disk, op: DiskOp): Disk {
    match op
    case WriteMeta(s) => d.(meta := d.meta[s.jobId := s])
    case WriteOutput(id, stream, text) => d.(output := d.output[(id, stream) := Encode(text)])
    case UnlinkMeta(id) => d.(meta := d.meta - {id})
    case UnlinkOutput(id, stream) => d.(output := d.output - {(id, stream)})
  }

  function ApplyOps(d: Disk, ops: seq<DiskOp>): Disk
    decreases ops
  {
    if ops == [] then d else ApplyOps(ApplyOp(d, ops[0]), ops[1..])
  }

  lemma {:induction false} ApplyOpsAppend(d: Disk, a: seq<DiskOp>, b: seq<DiskOp>)
    ensures ApplyOps(d, a + b) == ApplyOps(ApplyOps(d, a), b)
    decreases a
  {
    if a == [] {
      assert a + b == b;
    } else {
      assert (a + b)[1..] == a[1..] + b;
      ApplyOpsAppend(ApplyOp(d, a[0]), a[1..], b);
    }
  }

  // ---- load ----

  /** What `load` found: the snapshots it kept, the files it removed, and whether every metadata
      file it reached was valid (otherwise it raised InvalidJobMetadataError there). */
  datatype Loading = Loading(kept: seq<Snapshot>, ops: seq<DiskOp>, valid: bool)

  function DeleteOps(id: JobId): seq<DiskOp> {
    [UnlinkMeta(id), UnlinkOutput(id, STDOUT), UnlinkOutput(id, STDERR)]
  }

  /** `files` is the directory listing, in whatever order the glob yields it. */
  function Load(meta: map<JobId, Snapshot>, files: seq<JobId>, expiry: Time): Loading
    requires forall id | id in files :: id in meta
  {
    if files == [] then Loading([], [], true)
    else
      var s := meta[files[0]];
      if !ValidSnapshot(s) then Loading([], [], false)
      else
        var rest := Load(meta, files[1..], expiry);
        if s.updatedAt < expiry then rest.(ops := DeleteOps(s.jobId) + rest.ops)
        else rest.(kept := [s] + rest.kept)
  }

  /** The listing names each metadata file once. */
  ghost predicate Listing(files: seq<JobId>, meta: map<JobId, Snapshot>) {
    && (forall id :: id in files <==> id in meta)
    && (forall i, k | 0 <= i < k < |files| :: files[i] != files[k])
  }

  /** Each file holds the metadata of the job it is named after. */
  ghost predicate Named(meta: map<JobId, Snapshot>) {
    forall id | id in meta :: meta[id].jobId == id
  }

  ghost predicate AllValid(meta: map<JobId, Snapshot>) {
    forall id | id in meta :: ValidSnapshot(meta[id])
  }

  function Expired(meta: map<JobId, Snapshot>, expiry: Time): (ids: set<JobId>) {
    set id | id in meta && meta[id].updatedAt < expiry
  }

  /** Loading keeps exactly the unexpired jobs, whatever the state of the expired ones. */
  lemma {:induction false} LoadExact(meta: map<JobId, Snapshot>, files: seq<JobId>, expiry: Time)
    requires Named(meta) && AllValid(meta)
    requires forall id | id in files :: id in meta
    ensures var l := Load(meta, files, expiry);
            && l.valid
            && (forall s :: s in l.kept <==> s.jobId in files && meta[s.jobId] == s && s.updatedAt >= expiry)
            && (forall op | op in l.ops :: !op.WriteMeta? && !op.WriteOutput?)
            && (forall id :: UnlinkMeta(id) in l.ops <==> id in files && meta[id].updatedAt < expiry)
  {
    if files != [] {
      LoadExact(meta, files[1..], expiry);
      var s := meta[files[0]];
      var l := Load(meta, files, expiry);
      var rest := Load(meta, files[1..], expiry);
      assert forall id :: id in files <==> id == files[0] || id in files[1..];
      if s.updatedAt < expiry {
        assert forall op :: op in l.ops <==> op in DeleteOps(s.jobId) || op in rest.ops;
      }
    }
  }

  /** Unlinking ops only remove, and remove exactly what they name. */
  lemma {:induction false} UnlinksApplied(d: Disk, ops: seq<DiskOp>)
    requires forall op | op in ops :: !op.WriteMeta? && !op.WriteOutput?
    ensures var m := ApplyOps(d, ops).meta;
            && m.Keys == (set id | id in d.meta && UnlinkMeta(id) !in ops)
            && (forall id | id in m :: m[id] == d.meta[id])
    decreases ops
  {
    if ops != [] {
      UnlinksApplied(ApplyOp(d, ops[0]), ops[1..]);
      assert forall op :: op in ops <==> op == ops[0] || op in ops[1..];
    }
  }

  lemma {:induction false} UnlinksAppliedToOutput(d: Disk, ops: seq<DiskOp>, key: (JobId, Stream))
    requires forall op | op in ops :: !op.WriteMeta? && !op.WriteOutput?
    ensures var out := ApplyOps(d, ops).output;
            && (key in out <==> key in d.output && UnlinkOutput(key.0, key.1) !in ops)
            && (key in out ==> out[key] == d.output[key])
    decreases ops
  {
    if ops != [] {
      UnlinksAppliedToOutput(ApplyOp(d, ops[0]), ops[1..], key);
    }
  }

  lemma {:induction false} LoadUnlinksOutput(meta: map<JobId, Snapshot>, files: seq<JobId>, expiry: Time, id: JobId, x: Stream)
    requires Named(meta) && AllValid(meta)
    requires forall id | id in files :: id in meta
    ensures UnlinkOutput(id, x) in Load(meta, files, expiry).ops <==> id in files && meta[id].updatedAt < expiry
  {
    if files != [] {
      LoadUnlinksOutput(meta, files[1..], expiry, id, x);
      var s := meta[files[0]];
      var rest := Load(meta, files[1..], expiry);
      assert id in files <==> id == files[0] || id in files[1..];
      if s.updatedAt < expiry {
        var op := UnlinkOutput(id, x);
        assert op in DeleteOps(s.jobId) <==> id == s.jobId by {
          assert DeleteOps(s.jobId)[1] == UnlinkOutput(s.jobId, STDOUT) && DeleteOps(s.jobId)[2] == UnlinkOutput(s.jobId, STDERR);
        }
      }
    }
  }

  lemma NoOps(d: Disk)
    ensures ApplyOps(d, []) == d
  {}

  lemma DeleteApplied(d: Disk, id: JobId)
    ensures ApplyOps(d, DeleteOps(id)) == Disk(d.meta - {id}, d.output - {(id, STDOUT)} - {(id, STDERR)})
  {
    var ops := DeleteOps(id);
    var d1 := ApplyOp(d, UnlinkMeta(id));
    var d2 := ApplyOp(d1, UnlinkOutput(id, STDOUT));
    var d3 := ApplyOp(d2, UnlinkOutput(id, STDERR));
    assert ApplyOps(d, ops) == ApplyOps(d1, ops[1..]);
    assert ApplyOps(d1, ops[1..]) == ApplyOps(d2, ops[1..][1..]);
    assert ApplyOps(d2, ops[1..][1..]) == ApplyOps(d3, []);
  }

  // ---- The store as the source has it ----

  class Store {
    var meta: map<JobId, Snapshot>
    var output: map<(JobId, Stream), Bytes>
    const retention: Time

    ghost function View(): Disk reads this { Disk(meta, output) }

    constructor (retention: Time, disk: Disk)
      ensures View() == disk && this.retention == retention
    {
      this.retention := retention;
      meta, output := disk.meta, disk.output;
    }

    method WriteSnapshot(s: Snapshot)
      modifies this
      ensures View() == ApplyOp(old(View()), WriteMeta(s))
    {
      meta := meta[s.jobId := s];
    }

    method WriteOutputFile(id: JobId, stream: Stream, text: Text)
      modifies this
      ensures View() == ApplyOp(old(View()), WriteOutput(id, stream, text))
    {
      output := output[(id, stream) := Encode(text)];
    }

    method ReadOutput(id: JobId, stream: Stream) returns (data: Bytes)
      ensures data == if (id, stream) in output then output[(id, stream)] else []
    {
      data := if (id, stream) in output then output[(id, stream)] else [];
    }

    method Delete(id: JobId)
      modifies this
      ensures View() == ApplyOps(old(View()), DeleteOps(id))
      ensures meta == old(meta) - {id}
    {
      DeleteApplied(View(), id);
      meta := meta - {id};
      output := output - {(id, STDOUT)};
      output := output - {(id, STDERR)};
    }

    /** `load`: the listing is read once, then each file is validated and deleted or kept. */
    method LoadAll(files: seq<JobId>, now: Time) returns (kept: seq<Snapshot>, valid: bool)
      requires Listing(files, meta) && Named(meta)
      modifies this
      ensures var l := Load(old(meta), files, now - retention);
              valid == l.valid && (valid ==> kept == l.kept) && View() == ApplyOps(old(View()), l.ops)
    {
      hide ApplyOps, ApplyOp, DeleteOps, ValidSnapshot;
      var expiry := now - retention;
      kept, valid := [], true;
      ghost var was := meta;
      ghost var done: seq<DiskOp> := [];
      ghost var rest := Load(was, files, expiry);
      assert View() == ApplyOps(old(View()), []) by { NoOps(View()); }
      var i := 0;
      assert files[0..] == files;
      while i < |files|
        invariant 0 <= i <= |files|
        invariant View() == ApplyOps(old(View()), done)
        invariant forall k | i <= k < |files| :: files[k] in meta && meta[files[k]] == was[files[k]]
        invariant rest == Load(was, files[i..], expiry)
        invariant Load(was, files, expiry) == Loading(kept + rest.kept, done + rest.ops, rest.valid)
      {
        var s := meta[files[i]];
        assert files[i..][0] == files[i] && files[i..][1..] == files[i + 1..];
        if !ValidSnapshot(s) {
          valid := false;
          assert rest == Loading([], [], false) && done + rest.ops == done;
          return;
        }
        rest := Load(was, files[i + 1..], expiry);
        if s.updatedAt < expiry {
          Delete(s.jobId);
          ApplyOpsAppend(old(View()), done, DeleteOps(s.jobId));
          done := done + DeleteOps(s.jobId);
        } else {
          kept := kept + [s];
        }
        i := i + 1;
      }
      assert files[i..] == [] && kept + rest.kept == kept && done + rest.ops == done;
    }
  }
}
