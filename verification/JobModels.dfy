/** Job metadata: the snapshot shared by disk and replies, its validator and its request digest. */
module JobModels {
  import opened Wrappers
  import opened Utf8
  import opened CanonicalJson

  type JobId = nat
  type OperationId = nat
  type Time = int            // microseconds

  datatype JobKind = PROCESS | SHELL | CODEX

  datatype JobState = QUEUED | RUNNING | SUCCEEDED | FAILED | CANCELLED | INTERRUPTED {
    predicate Terminal() { !QUEUED? && !RUNNING? }
  }

  datatype JobSpec = JobSpec(operationId: OperationId, kind: JobKind, argv: seq<Str>, cwd: Str)

  datatype JobLimits = JobLimits(maxConcurrent: int, maxOutputBytes: int, retention: Time)

  // ---- Request digest ----

  // SHA-256 is taken to be collision free: a digest is the canonical bytes it is computed from.
  type Digest = Bytes

  function KindText(kind: JobKind): Str {
    match kind
    case PROCESS => [112, 114, 111, 99, 101, 115, 115]
    case SHELL => [115, 104, 101, 108, 108]
    case CODEX => [99, 111, 100, 101, 120]
  }

  const ARGV_KEY: Str := [97, 114, 103, 118]
  const CWD_KEY: Str := [99, 119, 100]
  const KIND_KEY: Str := [107, 105, 110, 100]
  const LIMITS_KEY: Str := [108, 105, 109, 105, 116, 115]
  const MAX_PREFIX: Str := [109, 97, 120, 95]
  const CONCURRENT_KEY: Str := MAX_PREFIX + [99, 111, 110, 99, 117, 114, 114, 101, 110, 116]
  const OUTPUT_KEY: Str := MAX_PREFIX + [111, 117, 116, 112, 117, 116, 95, 98, 121, 116, 101, 115]
  const RETENTION_KEY: Str := [114, 101, 116, 101, 110, 116, 105, 111, 110, 95, 115, 101, 99, 111, 110, 100, 115]

  function Strings(argv: seq<Str>): (r: seq<Json>)
    ensures |r| == |argv|
    ensures forall i | 0 <= i < |argv| :: r[i] == String(argv[i])
  {
    seq(|argv|, i requires 0 <= i < |argv| => String(argv[i]))
  }

  /** `int(timedelta.total_seconds())`, which truncates toward zero. */
  function WholeSeconds(t: Time): int {
    if t >= 0 then t / 1_000_000 else -(-t / 1_000_000)
  }

  function LimitsPayload(limits: JobLimits): Json {
    Object([Member(CONCURRENT_KEY, Number(limits.maxConcurrent)),
            Member(OUTPUT_KEY, Number(limits.maxOutputBytes)),
            Member(RETENTION_KEY, Number(WholeSeconds(limits.retention)))])
  }

  function RequestPayload(spec: JobSpec, limits: JobLimits): Json {
    Object([Member(ARGV_KEY, Array(Strings(spec.argv))),
            Member(CWD_KEY, String(spec.cwd)),
            Member(KIND_KEY, String(KindText(spec.kind))),
            Member(LIMITS_KEY, LimitsPayload(limits))])
  }

  function JobRequestDigest(spec: JobSpec, limits: JobLimits): Option<Digest> {
    Canonicalize(RequestPayload(spec, limits))
  }

  /** Replay conflict detection is exact: equal digests mean the same command under the same
      limits (retention compared in whole seconds), whatever the operation id. */
  lemma DigestIdentifiesRequest(a: JobSpec, b: JobSpec, la: JobLimits, lb: JobLimits)
    requires JobRequestDigest(a, la).Some? && JobRequestDigest(b, lb).Some?
    ensures JobRequestDigest(a, la) == JobRequestDigest(b, lb)
            <==> && a.kind == b.kind && a.argv == b.argv && a.cwd == b.cwd
                 && la.maxConcurrent == lb.maxConcurrent && la.maxOutputBytes == lb.maxOutputBytes
                 && WholeSeconds(la.retention) == WholeSeconds(lb.retention)
  {
    hide Print, Encode, Sorted, Canonicalize;
    var pa, pb := RequestPayload(a, la), RequestPayload(b, lb);
    RequestPayloadSorted(a, la);
    RequestPayloadSorted(b, lb);
    CanonicalOfSorted(pa, pb);
    assert a.argv == b.argv ==> Strings(a.argv) == Strings(b.argv);
    if pa == pb {
      assert pa.members[0] == pb.members[0] && pa.members[1] == pb.members[1];
      assert pa.members[2] == pb.members[2] && pa.members[3] == pb.members[3];
      assert Strings(a.argv) == Strings(b.argv);
      assert |a.argv| == |b.argv|;
      assert forall i | 0 <= i < |a.argv| :: String(a.argv[i]) == String(b.argv[i]);
      KindTextInjective(a.kind, b.kind);
      var xa, xb := LimitsPayload(la), LimitsPayload(lb);
      assert xa.members[0] == xb.members[0] && xa.members[1] == xb.members[1] && xa.members[2] == xb.members[2];
    }
  }

  lemma CanonicalOfSorted(a: Json, b: Json)
    requires Sorted(a) == a && Sorted(b) == b
    requires Canonicalize(a).Some? && Canonicalize(b).Some?
    ensures Canonicalize(a) == Canonicalize(b) <==> a == b
  {
    hide Print, Encode, Sorted;
    if Canonicalize(a) == Canonicalize(b) {
      EncodeInjective(Print(a), Print(b));
      PrintInjective(a, b);
    }
  }

  lemma KindTextInjective(a: JobKind, b: JobKind)
    ensures KindText(a) == KindText(b) ==> a == b
  {
    assert KindText(PROCESS)[0] == 112 && KindText(SHELL)[0] == 115 && KindText(CODEX)[0] == 99;
  }

  /** The payload is written with its keys already in order. */
  lemma RequestPayloadSorted(spec: JobSpec, limits: JobLimits)
    ensures Sorted(RequestPayload(spec, limits)) == RequestPayload(spec, limits)
  {
    hide SortMembers, SortedMembers, SortedItems;
    var inner := LimitsPayload(limits).members;
    assert KeyLess(CONCURRENT_KEY, OUTPUT_KEY) by {
      KeyLessAfterPrefix(MAX_PREFIX, CONCURRENT_KEY, OUTPUT_KEY);
    }
    assert StrictlySorted(inner);
    SortedObjectStays(inner);
    var items := Strings(spec.argv);
    forall i | 0 <= i < |items| ensures SortedItems(items)[i] == items[i] { SortedItemsAt(items, i); }
    assert SortedItems(items) == items;
    var outer := RequestPayload(spec, limits).members;
    assert StrictlySorted(outer);
    assert Sorted(outer[0].value) == outer[0].value;
    assert Sorted(outer[3].value) == outer[3].value;
    SortedObjectStays(outer);
  }

  lemma {:induction false} KeyLessAfterPrefix(p: Str, a: Str, b: Str)
    requires |p| < |a| && |p| < |b| && p == a[..|p|] == b[..|p|]
    requires a[|p|] < b[|p|]
    ensures KeyLess(a, b)
  {
    if p != [] {
      assert a[0] == p[0] == b[0];
      assert p[1..] == a[1..][..|p| - 1] == b[1..][..|p| - 1];
      KeyLessAfterPrefix(p[1..], a[1..], b[1..]);
    }
  }

  // ---- Snapshots ----

  datatype Snapshot = Snapshot(
    jobId: JobId,
    operationId: OperationId,
    requestDigest: Digest,
    kind: JobKind,
    state: JobState,
    createdAt: Time,
    updatedAt: Time,
    exitCode: Option<int>,
    pid: Option<int>,
    stdoutBytes: nat,
    stderrBytes: nat,
    retainedBytes: nat,
    truncated: bool)

  /** The validator that `load` applies to every metadata file. */
  predicate ValidSnapshot(s: Snapshot) {
    && (s.pid.Some? ==> s.pid.value > 0)
    && s.createdAt <= s.updatedAt
    && (s.state.RUNNING? ==> s.pid.Some?)
    && (s.state.SUCCEEDED? ==> s.exitCode == Some(0))
  }

  function NewSnapshot(id: JobId, op: OperationId, digest: Digest, kind: JobKind, now: Time): Snapshot {
    Snapshot(id, op, digest, kind, QUEUED, now, now, None, None, 0, 0, 0, false)
  }

  /** `_interrupt_stale_snapshot`. */
  function Interrupted(s: Snapshot, now: Time): Snapshot {
    if s.state.Terminal() then s else s.(state := INTERRUPTED, pid := None, updatedAt := now)
  }

  predicate SameJob(s: Snapshot, t: Snapshot) {
    s.jobId == t.jobId && s.operationId == t.operationId && s.requestDigest == t.requestDigest
    && s.kind == t.kind && s.createdAt == t.createdAt
  }

  /** What one write may do to the metadata of a job: the same job, and a terminal state is kept,
      except that the factory-failure block turns CANCELLED into FAILED. */
  predicate Follows(s: Snapshot, t: Snapshot) {
    SameJob(s, t)
    && (s.state.Terminal() ==> t.state == s.state || (s.state.CANCELLED? && t.state.FAILED?))
  }
}
