/** One-shot approvals: an independent decision frees exactly one dispatch of exactly the payload that
    was submitted, whatever the timestamps callers bring. */
module Approvals {
  import opened Wrappers
  import opened Utf8
  import opened CanonicalJson

  type Id = nat
  type Time = int

  // ---- Tool policy ----

  datatype PolicyDecision = ALLOW | REQUIRE_APPROVAL | DENY

  const PROHIBITED: set<string> := {"approval_grant", "approval_deny", "approval_list", "approve", "deny"}
  const HARD_DENY: set<string> :=
    {"credential_store_export", "windows_logon_bypass", "uac_secure_desktop_automation",
     "arbitrary_system_shell", "raw_disk_device_access"}
  const PRIVILEGED: set<string> := {"system_reboot", "system_shutdown"}
  const TOOL_NAMES: set<string> :=
    {"status", "shell_run", "fs_list", "fs_stat", "fs_read", "fs_write", "fs_move", "fs_copy", "fs_delete",
     "fs_mkdir", "process_list", "process_start", "process_kill", "app_open", "computer_observe",
     "computer_click", "computer_move", "computer_scroll", "computer_type", "computer_hotkey", "computer_key",
     "uia_find", "uia_action", "browser_status", "browser_open", "browser_navigate", "browser_snapshot",
     "browser_click", "browser_type", "browser_extract", "browser_close", "codex_status", "codex_run",
     "job_start", "job_status", "job_output", "job_cancel", "system_lock", "system_reboot",
     "system_shutdown", "system_sleep"}

  /** None is UnknownToolError. */
  function EvaluateTool(name: string): Option<PolicyDecision> {
    if name in PROHIBITED then None
    else if name in HARD_DENY then Some(DENY)
    else if name !in TOOL_NAMES then None
    else if name in PRIVILEGED + {"job_start"} then Some(REQUIRE_APPROVAL)
    else Some(ALLOW)
  }

  // ---- Records ----

  datatype State = PENDING | APPROVED | DENIED | CONSUMED | EXPIRED
  datatype Method = ELICITATION | LOCAL

  datatype Submission = Submission(operationId: Id, toolName: string, payload: Json, requestedAt: Time, expiresAt: Time)

  /** What the submission model admits. */
  predicate ValidSubmission(s: Submission) {
    s.requestedAt < s.expiresAt && Canonicalize(s.payload).Some?
  }

  datatype Record = Record(
    operationId: Id, toolName: string, canonicalPayload: Bytes, requestedAt: Time, expiresAt: Time,
    state: State, via: Option<Method>)

  datatype Decision = Decision(approvalId: Id, approved: bool, via: Method, decidedAt: Time)

  datatype Attempt = Attempt(
    approvalId: Id, operationId: Option<Id>, toolName: Option<string>, payload: Json, attemptedAt: Time)

  type Records = map<Id, Record>

  datatype Requested = RequestedRecord(record: Record) | UnknownTool | PolicyDenied

  function Request(rs: Records, s: Submission, newId: Id): (Records, Requested)
    requires ValidSubmission(s)
  {
    match EvaluateTool(s.toolName)
    case None => (rs, UnknownTool)
    case Some(DENY) => (rs, PolicyDenied)
    case Some(_) =>
      var r := Record(s.operationId, s.toolName, Canonicalize(s.payload).value, s.requestedAt, s.expiresAt, PENDING, None);
      (rs[newId := r], RequestedRecord(r))
  }

  datatype Decided = DecidedRecord(record: Record) | DecideNotFound | DecideExpired | DecideState(state: State)

  function Decide(rs: Records, d: Decision): (Records, Decided) {
    if d.approvalId !in rs then (rs, DecideNotFound)
    else
      var r := rs[d.approvalId];
      if d.decidedAt >= r.expiresAt then (rs[d.approvalId := r.(state := EXPIRED)], DecideExpired)
      else if !r.state.PENDING? then (rs, DecideState(r.state))
      else
        var r' := r.(state := if d.approved then APPROVED else DENIED, via := Some(d.via));
        (rs[d.approvalId := r'], DecidedRecord(r'))
  }

  datatype Refusal =
    | NotFound | Expired | CanonicalPayload | BindingMismatch | PayloadMismatch
    | AlreadyConsumed | Denied | Pending
    | InvalidState               // APPROVED without a method

  datatype Consumed = ApprovedPayload(operationId: Id, toolName: string, canonicalPayload: Bytes, via: Method)
                    | Refused(why: Refusal)

  function Consume(rs: Records, a: Attempt): (Records, Consumed) {
    if a.approvalId !in rs then (rs, Refused(NotFound))
    else
      var r := rs[a.approvalId];
      if a.attemptedAt >= r.expiresAt then (rs[a.approvalId := r.(state := EXPIRED)], Refused(Expired))
      else if Canonicalize(a.payload).None? then (rs, Refused(CanonicalPayload))
      else if (a.operationId.Some? && a.operationId.value != r.operationId)
           || (a.toolName.Some? && a.toolName.value != r.toolName) then (rs, Refused(BindingMismatch))
      else if Canonicalize(a.payload).value != r.canonicalPayload then (rs, Refused(PayloadMismatch))
      else match r.state
        case APPROVED =>
          if r.via.None? then (rs, Refused(InvalidState))
          else (rs[a.approvalId := r.(state := CONSUMED)],
                ApprovedPayload(r.operationId, r.toolName, r.canonicalPayload, r.via.value))
        case CONSUMED => (rs, Refused(AlreadyConsumed))
        case DENIED => (rs, Refused(Denied))
        case EXPIRED => (rs, Refused(Expired))
        case PENDING => (rs, Refused(Pending))
  }

  class ApprovalManager {
    var records: Records

    constructor ()
      ensures records == map[]
    {
      records := map[];
    }

    method RequestApproval(s: Submission, newId: Id) returns (r: Requested)
      requires ValidSubmission(s)
      modifies this
      ensures (records, r) == Request(old(records), s, newId)
    {
      var decision := EvaluateTool(s.toolName);
      if decision.None? { return UnknownTool; }
      if decision.value.DENY? { return PolicyDenied; }
      var record := Record(s.operationId, s.toolName, Canonicalize(s.payload).value, s.requestedAt, s.expiresAt, PENDING, None);
      records := records[newId := record];
      return RequestedRecord(record);
    }

    method DecideApproval(d: Decision) returns (r: Decided)
      modifies this
      ensures (records, r) == Decide(old(records), d)
    {
      if d.approvalId !in records { return DecideNotFound; }
      var record := records[d.approvalId];
      if d.decidedAt >= record.expiresAt {
        records := records[d.approvalId := record.(state := EXPIRED)];
        return DecideExpired;
      }
      if record.state != PENDING { return DecideState(record.state); }
      var updated := record.(state := if d.approved then APPROVED else DENIED, via := Some(d.via));
      records := records[d.approvalId := updated];
      return DecidedRecord(updated);
    }

    method ConsumeApproval(a: Attempt) returns (r: Consumed)
      modifies this
      ensures (records, r) == Consume(old(records), a)
    {
      if a.approvalId !in records { return Refused(NotFound); }
      var record := records[a.approvalId];
      if a.attemptedAt >= record.expiresAt {
        records := records[a.approvalId := record.(state := EXPIRED)];
        return Refused(Expired);
      }
      var canonical := Canonicalize(a.payload);
      if canonical.None? { return Refused(CanonicalPayload); }
      if (a.operationId.Some? && record.operationId != a.operationId.value)
         || (a.toolName.Some? && record.toolName != a.toolName.value) {
        return Refused(BindingMismatch);
      }
      if canonical.value != record.canonicalPayload { return Refused(PayloadMismatch); }
      match record.state {
        case APPROVED =>
          if record.via.None? { return Refused(InvalidState); }
          records := records[a.approvalId := record.(state := CONSUMED)];
          return ApprovedPayload(record.operationId, record.toolName, record.canonicalPayload, record.via.value);
        case CONSUMED => return Refused(AlreadyConsumed);
        case DENIED => return Refused(Denied);
        case EXPIRED => return Refused(Expired);
        case PENDING => return Refused(Pending);
      }
    }
  }

  // ---- authorize ----

  datatype Call = Call(operationId: Id, toolName: string, payload: Json, requestedAt: Time, approvalId: Option<Id>)

  datatype Authorization =
    | NoApprovalNeeded | CodePolicyDenied | CodeApprovalRequired | CodeApprovalInvalid
    | Authorized(approvalId: Id, via: Method, frozenPayload: Bytes)
    | Raises(why: Refusal)       // an error that authorize does not turn into a code

  function AttemptOf(c: Call): Attempt
    requires c.approvalId.Some?
  {
    Attempt(c.approvalId.value, Some(c.operationId), Some(c.toolName), c.payload, c.requestedAt)
  }

  function Authorize(rs: Records, c: Call): (Records, Authorization) {
    match EvaluateTool(c.toolName)
    case None => (rs, CodePolicyDenied)
    case Some(ALLOW) => (rs, NoApprovalNeeded)
    case Some(DENY) => (rs, CodePolicyDenied)
    case Some(REQUIRE_APPROVAL) =>
      if c.approvalId.None? then (rs, CodeApprovalRequired)
      else
        var (rs', consumed) := Consume(rs, AttemptOf(c));
        (rs', match consumed
              case ApprovedPayload(_, _, canonical, via) => Authorized(c.approvalId.value, via, canonical)
              case Refused(CanonicalPayload) => Raises(CanonicalPayload)
              case Refused(InvalidState) => Raises(InvalidState)
              case Refused(_) => CodeApprovalInvalid)
  }

  // ---- Traces ----

  datatype Event =
    | Submit(submission: Submission, newId: Id)
    | DecideBy(decision: Decision)
    | ConsumeBy(attempt: Attempt)
    | Dispatch(call: Call)

  /** What has happened to approvals, in order. TimedOut: a decision or an attempt came at or after expiry. */
  datatype Fact =
    | ApprovedAt(id: Id, decidedAt: Time, via: Method) | DeniedAt(id: Id, decidedAt: Time, via: Method)
    | ConsumedBy(id: Id, attempt: Attempt) | TimedOut(id: Id, at: Time)

  datatype World = World(records: Records, submissions: map<Id, Submission>, facts: seq<Fact>)

  const START: World := World(map[], map[], [])

  /** A submission is a validated model with a fresh uuid; other submissions never reach the manager. */
  predicate Admitted(w: World, e: Event) {
    e.Submit? ==> ValidSubmission(e.submission) && e.newId !in w.submissions
  }

  function ConsumeFacts(rs: Records, c: Consumed, a: Attempt): seq<Fact> {
    if c.ApprovedPayload? then [ConsumedBy(a.approvalId, a)]
    else if a.approvalId in rs && a.attemptedAt >= rs[a.approvalId].expiresAt then [TimedOut(a.approvalId, a.attemptedAt)]
    else []
  }

  function DecideFacts(r: Decided, d: Decision): seq<Fact> {
    match r
    case DecidedRecord(_) =>
      [if d.approved then ApprovedAt(d.approvalId, d.decidedAt, d.via) else DeniedAt(d.approvalId, d.decidedAt, d.via)]
    case DecideExpired => [TimedOut(d.approvalId, d.decidedAt)]
    case _ => []
  }

  function Next(w: World, e: Event): World {
    if !Admitted(w, e) then w
    else match e
      case Submit(s, newId) =>
        var (rs, r) := Request(w.records, s, newId);
        if r.RequestedRecord? then World(rs, w.submissions[newId := s], w.facts) else w
      case DecideBy(d) =>
        var (rs, r) := Decide(w.records, d);
        World(rs, w.submissions, w.facts + DecideFacts(r, d))
      case ConsumeBy(a) =>
        var (rs, r) := Consume(w.records, a);
        World(rs, w.submissions, w.facts + ConsumeFacts(w.records, r, a))
      case Dispatch(c) =>
        if EvaluateTool(c.toolName) != Some(REQUIRE_APPROVAL) || c.approvalId.None? then w
        else World(Authorize(w.records, c).0, w.submissions,
                   w.facts + ConsumeFacts(w.records, Consume(w.records, AttemptOf(c)).1, AttemptOf(c)))
  }

  function Run(w: World, es: seq<Event>): World
    decreases es
  {
    if es == [] then w else Run(Next(w, es[0]), es[1..])
  }

  /** The only state changes there are. */
  predicate Moves(a: State, b: State) {
    a == b || b.EXPIRED? || (a.PENDING? && (b.APPROVED? || b.DENIED? || b.CONSUMED?)) || (a.APPROVED? && b.CONSUMED?)
  }

  ghost predicate Frozen(r: Record, s: Submission) {
    && Canonicalize(s.payload) == Some(r.canonicalPayload)
    && r.operationId == s.operationId && r.toolName == s.toolName && r.expiresAt == s.expiresAt
  }

  ghost predicate Exact(a: Attempt, s: Submission) {
    && a.attemptedAt < s.expiresAt
    && Canonicalize(a.payload) == Canonicalize(s.payload)
    && (a.operationId.Some? ==> a.operationId.value == s.operationId)
    && (a.toolName.Some? ==> a.toolName.value == s.toolName)
  }

  ghost predicate ApprovedBefore(facts: seq<Fact>, n: nat, id: Id, expiresAt: Time) {
    exists i | 0 <= i < n && i < |facts| :: facts[i].ApprovedAt? && facts[i].id == id && facts[i].decidedAt < expiresAt
  }

  ghost predicate RecordOk(w: World, id: Id)
    requires id in w.records && id in w.submissions
  {
    && Frozen(w.records[id], w.submissions[id])
    && w.records[id].state == StateOf(w.facts, id)
    && (w.records[id].state.APPROVED? ==> w.records[id].via == MethodOf(w.facts, id))
    && (w.records[id].state.APPROVED? ==>
          w.records[id].via.Some? && ApprovedBefore(w.facts, |w.facts|, id, w.records[id].expiresAt))
  }

  ghost predicate FactOk(w: World, i: nat)
    requires i < |w.facts|
  {
    var f := w.facts[i];
    && f.id in w.records && f.id in w.submissions
    && (f.ApprovedAt? ==> !w.records[f.id].state.PENDING?)
    && (f.ConsumedBy? ==> w.records[f.id].state in {CONSUMED, EXPIRED} && Exact(f.attempt, w.submissions[f.id])
                          && ApprovedBefore(w.facts, i, f.id, w.records[f.id].expiresAt))
  }

  predicate Grants(f: Fact) { f.ApprovedAt? || f.ConsumedBy? }

  /** An approval is approved once and then consumed once. */
  ghost predicate Once(facts: seq<Fact>) {
    forall i, k | 0 <= i < k < |facts| && facts[i].id == facts[k].id && Grants(facts[i]) && Grants(facts[k]) ::
      facts[i].ApprovedAt? && facts[k].ConsumedBy?
  }

  /** The state that the facts about an approval leave it in: that of the last one. */
  function StateOf(facts: seq<Fact>, id: Id): State {
    if facts == [] then PENDING
    else
      var last := facts[|facts| - 1];
      if last.id != id then StateOf(facts[..|facts| - 1], id)
      else match last
        case ApprovedAt(_, _, _) => APPROVED
        case DeniedAt(_, _, _) => DENIED
        case ConsumedBy(_, _) => CONSUMED
        case TimedOut(_, _) => EXPIRED
  }

  /** Every fact found the approval in the state it needs. */
  predicate Legal(facts: seq<Fact>) {
    facts == [] ||
    var init, last := facts[..|facts| - 1], facts[|facts| - 1];
    && Legal(init)
    && match last
       case ApprovedAt(id, _, _) => StateOf(init, id) == PENDING
       case DeniedAt(id, _, _) => StateOf(init, id) == PENDING
       case ConsumedBy(id, _) => StateOf(init, id) == APPROVED
       case TimedOut(_, _) => true
  }

  /** The method of the decision that approved it. */
  function MethodOf(facts: seq<Fact>, id: Id): Option<Method> {
    if facts == [] then None
    else
      var last := facts[|facts| - 1];
      if last.id == id && last.ApprovedAt? then Some(last.via) else MethodOf(facts[..|facts| - 1], id)
  }

  ghost predicate Inv(w: World) {
    && w.records.Keys == w.submissions.Keys
    && (forall id | id in w.records :: RecordOk(w, id))
    && (forall i | 0 <= i < |w.facts| :: FactOk(w, i))
    && Once(w.facts) && Legal(w.facts)
  }

  lemma ApprovedBeforeGrows(a: seq<Fact>, b: seq<Fact>, n: nat, m: nat, id: Id, t: Time)
    requires a <= b && n <= m && ApprovedBefore(a, n, id, t)
    ensures ApprovedBefore(b, m, id, t)
  {
    var i :| 0 <= i < n && i < |a| && a[i].ApprovedAt? && a[i].id == id && a[i].decidedAt < t;
    assert b[i] == a[i];
  }

  /** What one event does to one record, and the fact it may add. */
  ghost predicate Step(w: World, w': World, id: Id, r: Record, fs: seq<Fact>) {
    && id in w.records && w'.submissions == w.submissions
    && w'.records == w.records[id := r] && w'.facts == w.facts + fs
    && r == w.records[id].(state := r.state, via := r.via) && Moves(w.records[id].state, r.state)
    && (fs == [] ==> r == w.records[id])
    && (fs != [] ==> fs == [fs[0]] && fs[0].id == id)
    && (fs != [] && fs[0].DeniedAt? ==> w.records[id].state.PENDING? && r.state.DENIED?)
    && (fs != [] && fs[0].TimedOut? ==> r.state.EXPIRED?)
    && (fs != [] && fs[0].ApprovedAt? ==>
          w.records[id].state.PENDING? && r.state.APPROVED? && r.via == Some(fs[0].via) && fs[0].decidedAt < r.expiresAt)
    && (fs != [] && fs[0].ConsumedBy? ==>
          id in w.submissions && w.records[id].state.APPROVED? && r.state.CONSUMED? && Exact(fs[0].attempt, w.submissions[id]))
  }

  lemma StatePush(facts: seq<Fact>, f: Fact, id: Id)
    ensures f.id != id ==> StateOf(facts + [f], id) == StateOf(facts, id) && MethodOf(facts + [f], id) == MethodOf(facts, id)
    ensures f.id == id ==>
              && StateOf(facts + [f], id) == (match f
                                              case ApprovedAt(_, _, _) => APPROVED
                                              case DeniedAt(_, _, _) => DENIED
                                              case ConsumedBy(_, _) => CONSUMED
                                              case TimedOut(_, _) => EXPIRED)
              && (f.ApprovedAt? ==> MethodOf(facts + [f], id) == Some(f.via))
  {
    assert (facts + [f])[..|facts|] == facts;
  }

  lemma {:induction false} NoFacts(facts: seq<Fact>, id: Id)
    requires forall i | 0 <= i < |facts| :: facts[i].id != id
    ensures StateOf(facts, id) == PENDING
  {
    if facts != [] { NoFacts(facts[..|facts| - 1], id); }
  }

  lemma StepRecords(w: World, w': World, id: Id, r: Record, fs: seq<Fact>)
    requires Inv(w) && Step(w, w', id, r, fs)
    ensures forall x | x in w'.records :: x in w'.submissions && RecordOk(w', x)
  {
    hide Exact, FactOk, Once, Frozen, StateOf, MethodOf, ApprovedBefore;
    forall x | x in w'.records ensures x in w'.submissions && RecordOk(w', x) {
      assert RecordOk(w, x);
      FrozenKept(w.records[x], w'.records[x], w.submissions[x]);
      if fs == [] {
        assert w'.facts == w.facts;
        assert w'.records[x] == w.records[x];
      } else {
        StatePush(w.facts, fs[0], x);
        assert w'.facts == w.facts + [fs[0]];
        if w'.records[x].state.APPROVED? { StepApproved(w, w', id, r, fs, x); }
      }
    }
  }

  lemma StepApproved(w: World, w': World, id: Id, r: Record, fs: seq<Fact>, x: Id)
    requires Step(w, w', id, r, fs) && fs != [] && x in w'.records && w'.records[x].state.APPROVED?
    requires x in w.submissions && RecordOk(w, x)
    ensures w'.records[x].via.Some? && ApprovedBefore(w'.facts, |w'.facts|, x, w'.records[x].expiresAt)
  {
    hide Exact, Frozen, StateOf, MethodOf;
    if x == id {
      assert w'.facts[|w.facts|] == fs[0];
    } else {
      ApprovedBeforeGrows(w.facts, w'.facts, |w.facts|, |w'.facts|, x, w.records[x].expiresAt);
    }
  }

  lemma FrozenKept(r: Record, r': Record, s: Submission)
    requires Frozen(r, s) && r' == r.(state := r'.state, via := r'.via)
    ensures Frozen(r', s)
  {}

  lemma StepFacts(w: World, w': World, id: Id, r: Record, fs: seq<Fact>, i: nat)
    requires Inv(w) && Step(w, w', id, r, fs) && i < |w'.facts|
    ensures FactOk(w', i)
  {
    hide Exact, Once, Frozen, ApprovedBefore;
    if i < |w.facts| {
      var f := w.facts[i];
      assert FactOk(w, i) && w'.facts[i] == f;
      if f.ConsumedBy? { ApprovedBeforeGrows(w.facts, w'.facts, i, i, f.id, w.records[f.id].expiresAt); }
    } else {
      assert w'.facts[i] == fs[0] && RecordOk(w, id);
      if fs[0].ConsumedBy? { ApprovedBeforeGrows(w.facts, w'.facts, |w.facts|, i, id, w.records[id].expiresAt); }
    }
  }

  lemma StepOnce(w: World, w': World, id: Id, r: Record, fs: seq<Fact>)
    requires Inv(w) && Step(w, w', id, r, fs)
    ensures Once(w'.facts)
  {
    hide Exact, Frozen, ApprovedBefore;
    forall i, k | 0 <= i < k < |w'.facts| && w'.facts[i].id == w'.facts[k].id && Grants(w'.facts[i]) && Grants(w'.facts[k])
      ensures w'.facts[i].ApprovedAt? && w'.facts[k].ConsumedBy?
    {
      assert FactOk(w, i);
      if k < |w.facts| { assert w.facts[k] == w'.facts[k]; }
    }
  }

  lemma StepLegal(w: World, w': World, id: Id, r: Record, fs: seq<Fact>)
    requires Inv(w) && Step(w, w', id, r, fs)
    ensures Legal(w'.facts)
  {
    assert RecordOk(w, id);
    hide Exact, Frozen, ApprovedBefore, FactOk, Once, StateOf;
    if fs == [] { assert w'.facts == w.facts; } else { assert w'.facts[..|w.facts|] == w.facts; }
  }

  lemma StepKeepsInv(w: World, w': World, id: Id, r: Record, fs: seq<Fact>)
    requires Inv(w) && Step(w, w', id, r, fs)
    ensures Inv(w')
  {
    hide RecordOk, FactOk, Once, Legal;
    StepRecords(w, w', id, r, fs);
    forall i | 0 <= i < |w'.facts| ensures FactOk(w', i) { StepFacts(w, w', id, r, fs, i); }
    StepOnce(w, w', id, r, fs);
    StepLegal(w, w', id, r, fs);
  }

  lemma ConsumeKeepsInv(w: World, a: Attempt)
    requires Inv(w)
    ensures var (rs, r) := Consume(w.records, a);
            Inv(World(rs, w.submissions, w.facts + ConsumeFacts(w.records, r, a)))
            && r != Refused(InvalidState)
  {
    hide Canonicalize;
    var (rs, r) := Consume(w.records, a);
    var w' := World(rs, w.submissions, w.facts + ConsumeFacts(w.records, r, a));
    if a.approvalId in w.records {
      assert RecordOk(w, a.approvalId);
      hide FactOk, Once, ApprovedBefore;
      assert rs == w.records[a.approvalId := rs[a.approvalId]];
      StepKeepsInv(w, w', a.approvalId, rs[a.approvalId], ConsumeFacts(w.records, r, a));
    } else {
      assert w' == w;
    }
  }

  lemma DecideKeepsInv(w: World, d: Decision)
    requires Inv(w)
    ensures Inv(Next(w, DecideBy(d)))
  {
    hide RecordOk, FactOk, Once, Canonicalize;
    var w' := Next(w, DecideBy(d));
    if d.approvalId in w.records {
      var r := w'.records[d.approvalId];
      assert w'.records == w.records[d.approvalId := r];
      var fs := DecideFacts(Decide(w.records, d).1, d);
      assert Step(w, w', d.approvalId, r, fs);
      StepKeepsInv(w, w', d.approvalId, r, fs);
    } else {
      assert w' == w;
    }
  }

  lemma NextKeepsInv(w: World, e: Event)
    requires Inv(w)
    ensures Inv(Next(w, e))
  {
    hide Inv, Consume, Decide, Request, EvaluateTool, ValidSubmission;
    if Admitted(w, e) {
      match e
      case Submit(s, newId) =>
        SubmitKeepsInv(w, s, newId);
      case DecideBy(d) => DecideKeepsInv(w, d);
      case ConsumeBy(a) => ConsumeKeepsInv(w, a);
      case Dispatch(c) =>
        if EvaluateTool(c.toolName) == Some(REQUIRE_APPROVAL) && c.approvalId.Some? {
          ConsumeKeepsInv(w, AttemptOf(c));
        } else {
          assert Next(w, e) == w;
        }
    }
  }

  lemma SubmitKeepsInv(w: World, s: Submission, newId: Id)
    requires Inv(w) && ValidSubmission(s) && newId !in w.submissions
    ensures Inv(Next(w, Submit(s, newId)))
  {
    hide Canonicalize, Exact, ApprovedBefore;
    var w' := Next(w, Submit(s, newId));
    if w' != w {
      forall x | x in w'.records ensures RecordOk(w', x) {
        if x != newId { assert RecordOk(w, x); } else { NewHasNoFacts(w, newId); }
      }
      forall i | 0 <= i < |w.facts| ensures FactOk(w', i) { assert FactOk(w, i); }
    }
  }

  lemma NewHasNoFacts(w: World, id: Id)
    requires Inv(w) && id !in w.records
    ensures StateOf(w.facts, id) == PENDING
  {
    forall i | 0 <= i < |w.facts| ensures w.facts[i].id != id { assert FactOk(w, i); }
    NoFacts(w.facts, id);
  }

  lemma {:induction false} RunKeepsInv(w: World, es: seq<Event>)
    requires Inv(w)
    ensures Inv(Run(w, es))
    decreases es
  {
    if es != [] {
      NextKeepsInv(w, es[0]);
      RunKeepsInv(Next(w, es[0]), es[1..]);
    }
  }

  // ---- What every trace keeps ----

  /** Each approval is consumed at most once; only after an approving decision made before expiry; only
      before expiry; only by its own operation and tool; and only for the payload that was submitted,
      up to key order. Timestamps may go up and down as callers please. */
  lemma ConsumptionIsExact(es: seq<Event>, i: nat)
    ensures var w := Run(START, es);
            i < |w.facts| && w.facts[i].ConsumedBy? ==>
              var id, a := w.facts[i].id, w.facts[i].attempt;
              && id in w.submissions
              && var s := w.submissions[id];
              && (forall k | 0 <= k < |w.facts| && w.facts[k].ConsumedBy? && w.facts[k].id == id :: k == i)
              && (exists k | 0 <= k < i :: w.facts[k].ApprovedAt? && w.facts[k].id == id && w.facts[k].decidedAt < s.expiresAt)
              && a.attemptedAt < s.expiresAt
              && (a.operationId.Some? ==> a.operationId.value == s.operationId)
              && (a.toolName.Some? ==> a.toolName.value == s.toolName)
              && (WellFormed(a.payload) && WellFormed(s.payload) ==> Same(a.payload, s.payload))
  {
    RunKeepsInv(START, es);
    var w := Run(START, es);
    hide Run, Canonicalize, Same, WellFormed;
    if i < |w.facts| && w.facts[i].ConsumedBy? {
      var id, a := w.facts[i].id, w.facts[i].attempt;
      assert FactOk(w, i) && RecordOk(w, id);
      if WellFormed(a.payload) && WellFormed(w.submissions[id].payload) {
        CanonicalBytesExact(a.payload, w.submissions[id].payload);
      }
    }
  }

  function CountApproved(facts: seq<Fact>): nat {
    if facts == [] then 0
    else CountApproved(facts[..|facts| - 1]) + if facts[|facts| - 1].ApprovedAt? then 1 else 0
  }

  function CountConsumed(facts: seq<Fact>): nat {
    if facts == [] then 0
    else CountConsumed(facts[..|facts| - 1]) + if facts[|facts| - 1].ConsumedBy? then 1 else 0
  }

  ghost function ApprovedIds(facts: seq<Fact>): set<Id> {
    set i | 0 <= i < |facts| && facts[i].ApprovedAt? :: facts[i].id
  }

  ghost function ConsumedIds(facts: seq<Fact>): set<Id> {
    set i | 0 <= i < |facts| && facts[i].ConsumedBy? :: facts[i].id
  }

  lemma IdsPush(init: seq<Fact>, last: Fact)
    ensures ApprovedIds(init + [last]) == ApprovedIds(init) + (if last.ApprovedAt? then {last.id} else {})
    ensures ConsumedIds(init + [last]) == ConsumedIds(init) + (if last.ConsumedBy? then {last.id} else {})
  {
    var facts := init + [last];
    assert forall i | 0 <= i < |init| :: facts[i] == init[i];
    assert facts[|init|] == last;
  }

  lemma LastIsNew(init: seq<Fact>, last: Fact)
    requires Once(init + [last])
    ensures Once(init)
    ensures last.ApprovedAt? ==> last.id !in ApprovedIds(init)
    ensures last.ConsumedBy? ==> last.id !in ConsumedIds(init)
  {
    var facts := init + [last];
    assert facts[|init|] == last;
    forall i | 0 <= i < |init|
      ensures facts[i] == init[i] && (init[i].id == last.id && Grants(init[i]) && Grants(last) ==> init[i].ApprovedAt? && last.ConsumedBy?)
    {
      assert facts[i] == init[i];
    }
    forall i, k | 0 <= i < k < |init| && init[i].id == init[k].id && Grants(init[i]) && Grants(init[k]) ensures init[i].ApprovedAt? && init[k].ConsumedBy? {
      assert facts[i] == init[i] && facts[k] == init[k];
    }
  }

  lemma {:induction false} CountsAreSizes(facts: seq<Fact>)
    requires Once(facts)
    ensures CountApproved(facts) == |ApprovedIds(facts)| && CountConsumed(facts) == |ConsumedIds(facts)|
  {
    if facts != [] {
      var init, last := facts[..|facts| - 1], facts[|facts| - 1];
      assert facts == init + [last];
      LastIsNew(init, last);
      IdsPush(init, last);
      CountsAreSizes(init);
      hide ApprovedIds, ConsumedIds, Once;
    }
  }

  lemma SubsetSize(a: set<Id>, b: set<Id>)
    requires a <= b
    ensures |a| <= |b|
  {
    if a != {} {
      var x :| x in a;
      SubsetSize(a - {x}, b - {x});
    }
  }

  /** Authorised dispatches never exceed approving decisions. */
  lemma NoMoreConsumedThanApproved(es: seq<Event>)
    ensures CountConsumed(Run(START, es).facts) <= CountApproved(Run(START, es).facts)
  {
    RunKeepsInv(START, es);
    var facts := Run(START, es).facts;
    CountsAreSizes(facts);
    forall id | id in ConsumedIds(facts) ensures id in ApprovedIds(facts) {
      var i :| 0 <= i < |facts| && facts[i].ConsumedBy? && facts[i].id == id;
      assert FactOk(Run(START, es), i);
    }
    SubsetSize(ConsumedIds(facts), ApprovedIds(facts));
  }

  /** States only move forward and EXPIRED is absorbing, in any trace. */
  lemma {:induction false} StatesMoveForward(w: World, es: seq<Event>, id: Id)
    requires Inv(w) && id in w.records
    ensures var w' := Run(w, es);
            && id in w'.records && Moves(w.records[id].state, w'.records[id].state)
            && (w.records[id].state.EXPIRED? ==> w'.records[id].state.EXPIRED?)
    decreases es
  {
    if es != [] {
      NextKeepsInv(w, es[0]);
      NextMoves(w, es[0], id);
      StatesMoveForward(Next(w, es[0]), es[1..], id);
    }
  }

  lemma NextMoves(w: World, e: Event, id: Id)
    requires Inv(w) && id in w.records
    ensures id in Next(w, e).records && Moves(w.records[id].state, Next(w, e).records[id].state)
    ensures w.records[id].state.EXPIRED? ==> Next(w, e).records[id].state.EXPIRED?
  {
    hide Canonicalize;
  }

  lemma ConsumeOutcome(rs: Records, a: Attempt)
    ensures var (rs', r) := Consume(rs, a);
            && (r.ApprovedPayload? ==>
                  && a.approvalId in rs && rs' == rs[a.approvalId := rs[a.approvalId].(state := CONSUMED)]
                  && rs[a.approvalId].state.APPROVED? && Canonicalize(a.payload) == Some(r.canonicalPayload))
            && (r == Refused(CanonicalPayload) ==> Canonicalize(a.payload).None?)
  {
    hide Canonicalize;
  }

  /** `authorize` dispatches an approval-requiring tool only by consuming an approval, and the errors it
      lets through are only those of a payload that has no canonical form. */
  lemma AuthorizeConsumes(w: World, c: Call)
    requires Inv(w)
    ensures var (rs, r) := Authorize(w.records, c);
            && (r.Authorized? ==>
                  && EvaluateTool(c.toolName) == Some(REQUIRE_APPROVAL)
                  && c.approvalId == Some(r.approvalId) && r.approvalId in rs
                  && rs[r.approvalId].state == CONSUMED
                  && Canonicalize(c.payload) == Some(r.frozenPayload)
                  && Next(w, Dispatch(c)).facts == w.facts + [ConsumedBy(r.approvalId, AttemptOf(c))])
            && (r.NoApprovalNeeded? <==> EvaluateTool(c.toolName) == Some(ALLOW))
            && (r.Raises? ==> Canonicalize(c.payload).None?)
  {
    hide Inv, Consume, Canonicalize, EvaluateTool;
    var r := Authorize(w.records, c).1;
    if r.Authorized? || r.Raises? {
      var a := AttemptOf(c);
      ConsumeKeepsInv(w, a);
      ConsumeOutcome(w.records, a);
      var (rs, consumed) := Consume(w.records, a);
      assert Authorize(w.records, c).0 == rs;
      assert r.Authorized? ==> consumed == ApprovedPayload(consumed.operationId, consumed.toolName, r.frozenPayload, r.via);
      assert r.Raises? ==> consumed == Refused(CanonicalPayload);
    }
  }

  // ---- Exactly what is granted ----

  datatype FactKind = APPROVAL | DENIAL | CONSUMPTION | EXPIRY

  function KindOf(f: Fact): FactKind {
    match f
    case ApprovedAt(_, _, _) => APPROVAL
    case DeniedAt(_, _, _) => DENIAL
    case ConsumedBy(_, _) => CONSUMPTION
    case TimedOut(_, _) => EXPIRY
  }

  ghost predicate Happened(facts: seq<Fact>, id: Id, kind: FactKind) {
    exists i | 0 <= i < |facts| :: facts[i].id == id && KindOf(facts[i]) == kind
  }

  lemma HappenedPush(facts: seq<Fact>, f: Fact, id: Id, kind: FactKind)
    ensures Happened(facts + [f], id, kind) <==> Happened(facts, id, kind) || (f.id == id && KindOf(f) == kind)
  {
    assert (facts + [f])[|facts|] == f;
    if Happened(facts, id, kind) {
      var i :| 0 <= i < |facts| && facts[i].id == id && KindOf(facts[i]) == kind;
      assert (facts + [f])[i] == facts[i];
    }
  }

  /** The state an approval is in says exactly what has happened to it. */
  lemma {:induction false} StateOfExact(facts: seq<Fact>, id: Id)
    requires Legal(facts)
    ensures var approved, denied := Happened(facts, id, APPROVAL), Happened(facts, id, DENIAL);
            var consumed, expired := Happened(facts, id, CONSUMPTION), Happened(facts, id, EXPIRY);
            match StateOf(facts, id)
            case PENDING => !approved && !denied && !consumed && !expired
            case APPROVED => approved && !denied && !consumed && !expired
            case DENIED => !approved && denied && !consumed && !expired
            case CONSUMED => approved && !denied && consumed && !expired
            case EXPIRED => expired
  {
    if facts != [] {
      var init, last := facts[..|facts| - 1], facts[|facts| - 1];
      StateOfExact(init, id);
      assert facts == init + [last];
      HappenedPush(init, last, id, APPROVAL);
      HappenedPush(init, last, id, DENIAL);
      HappenedPush(init, last, id, CONSUMPTION);
      HappenedPush(init, last, id, EXPIRY);
      hide Happened;
    }
  }

  lemma StatesTellHistory(es: seq<Event>, id: Id)
    ensures var w := Run(START, es);
            id in w.submissions ==>
              && id in w.records && w.records[id].state == StateOf(w.facts, id)
              && (StateOf(w.facts, id) == APPROVED <==>
                    Happened(w.facts, id, APPROVAL) && !Happened(w.facts, id, CONSUMPTION) && !Happened(w.facts, id, EXPIRY))
              && (StateOf(w.facts, id) == EXPIRED <==> Happened(w.facts, id, EXPIRY))
  {
    RunKeepsInv(START, es);
    var w := Run(START, es);
    StateOfExact(w.facts, id);
    if id in w.records { assert RecordOk(w, id); }
    hide Run, StateOf, Happened, Legal, Once, FactOk;
  }

  /** What `request` does: a tool that is allowed or needs approval gets a pending record with the canonical bytes
      of its payload, and no other record changes; any other name is refused and nothing changes. */
  lemma RequestExact(rs: Records, s: Submission, newId: Id)
    requires ValidSubmission(s)
    ensures var (rs', r) := Request(rs, s, newId);
            if EvaluateTool(s.toolName).None? then r == UnknownTool && rs' == rs
            else if s.toolName in HARD_DENY && s.toolName !in PROHIBITED then r == PolicyDenied && rs' == rs
            else
              && r.RequestedRecord? && rs' == rs[newId := r.record] && Frozen(r.record, s)
              && r.record.state == PENDING && r.record.via == None && r.record.requestedAt == s.requestedAt
  {
    PolicyTable(s.toolName);
    hide EvaluateTool, Canonicalize;
  }

  predicate Bound(a: Attempt, s: Submission) {
    (a.operationId.Some? ==> a.operationId.value == s.operationId) && (a.toolName.Some? ==> a.toolName.value == s.toolName)
  }

  /** What `consume` answers after any trace, by the submission and what has happened since: the payload exactly
      for an unexpired attempt, with its own binding and payload, on an approval that was approved and neither
      consumed nor timed out; and which refusal each other case gets. */
  lemma ConsumeExact(es: seq<Event>, a: Attempt)
    ensures var w := Run(START, es);
            var r, facts := Consume(w.records, a).1, Next(w, ConsumeBy(a)).facts;
            if a.approvalId !in w.submissions then r == Refused(NotFound) && facts == w.facts
            else
              var s := w.submissions[a.approvalId];
              if a.attemptedAt >= s.expiresAt then r == Refused(Expired) && facts == w.facts + [TimedOut(a.approvalId, a.attemptedAt)]
              else if Canonicalize(a.payload).None? then r == Refused(CanonicalPayload) && facts == w.facts
              else if !Bound(a, s) then r == Refused(BindingMismatch) && facts == w.facts
              else if Canonicalize(a.payload) != Canonicalize(s.payload) then r == Refused(PayloadMismatch) && facts == w.facts
              else match StateOf(w.facts, a.approvalId)
                case APPROVED =>
                  && MethodOf(w.facts, a.approvalId).Some? && facts == w.facts + [ConsumedBy(a.approvalId, a)]
                  && r == ApprovedPayload(s.operationId, s.toolName, Canonicalize(s.payload).value, MethodOf(w.facts, a.approvalId).value)
                case PENDING => r == Refused(Pending) && facts == w.facts
                case DENIED => r == Refused(Denied) && facts == w.facts
                case CONSUMED => r == Refused(AlreadyConsumed) && facts == w.facts
                case EXPIRED => r == Refused(Expired) && facts == w.facts
  {
    RunKeepsInv(START, es);
    ConsumeAnswers(Run(START, es), a);
    hide Run;
  }

  lemma ConsumeAnswers(w: World, a: Attempt)
    requires Inv(w)
    ensures var (rs, r) := Consume(w.records, a);
            var fs := ConsumeFacts(w.records, r, a);
            if a.approvalId !in w.submissions then r == Refused(NotFound) && fs == []
            else
              var s := w.submissions[a.approvalId];
              if a.attemptedAt >= s.expiresAt then r == Refused(Expired) && fs == [TimedOut(a.approvalId, a.attemptedAt)]
              else if Canonicalize(a.payload).None? then r == Refused(CanonicalPayload) && fs == []
              else if !Bound(a, s) then r == Refused(BindingMismatch) && fs == []
              else if Canonicalize(a.payload) != Canonicalize(s.payload) then r == Refused(PayloadMismatch) && fs == []
              else match StateOf(w.facts, a.approvalId)
                case APPROVED =>
                  && MethodOf(w.facts, a.approvalId).Some? && fs == [ConsumedBy(a.approvalId, a)]
                  && r == ApprovedPayload(s.operationId, s.toolName, Canonicalize(s.payload).value, MethodOf(w.facts, a.approvalId).value)
                case PENDING => r == Refused(Pending) && fs == []
                case DENIED => r == Refused(Denied) && fs == []
                case CONSUMED => r == Refused(AlreadyConsumed) && fs == []
                case EXPIRED => r == Refused(Expired) && fs == []
  {
    if a.approvalId in w.records { assert RecordOk(w, a.approvalId); }
    hide Canonicalize, StateOf, MethodOf, Once, FactOk, Legal, ApprovedBefore, RecordOk;
  }

  /** What `decide` answers after any trace: a decision counts exactly once, before expiry and before anything
      else has happened. */
  lemma DecideExact(es: seq<Event>, d: Decision)
    ensures var w := Run(START, es);
            var r, facts := Decide(w.records, d).1, Next(w, DecideBy(d)).facts;
            if d.approvalId !in w.submissions then r == DecideNotFound && facts == w.facts
            else if d.decidedAt >= w.submissions[d.approvalId].expiresAt
            then r == DecideExpired && facts == w.facts + [TimedOut(d.approvalId, d.decidedAt)]
            else if StateOf(w.facts, d.approvalId) != PENDING
            then r == DecideState(StateOf(w.facts, d.approvalId)) && facts == w.facts
            else
              && r.DecidedRecord? && r.record.via == Some(d.via) && r.record.state == (if d.approved then APPROVED else DENIED)
              && facts == w.facts + [if d.approved then ApprovedAt(d.approvalId, d.decidedAt, d.via)
                                     else DeniedAt(d.approvalId, d.decidedAt, d.via)]
  {
    RunKeepsInv(START, es);
    var w := Run(START, es);
    if d.approvalId in w.records { assert RecordOk(w, d.approvalId); }
    hide Run, Canonicalize, StateOf, MethodOf, Once, FactOk, Legal, ApprovedBefore, RecordOk;
  }

  /** The policy as it stands: three tools need an approval, five are denied outright, the approval tools and
      unknown names are not tools at all, and everything else is allowed. */
  lemma PolicyTable(name: string)
    ensures EvaluateTool(name) == Some(REQUIRE_APPROVAL) <==> name in {"system_reboot", "system_shutdown", "job_start"}
    ensures EvaluateTool(name) == Some(DENY) <==> name in HARD_DENY
    ensures EvaluateTool(name).None? <==> name in PROHIBITED || (name !in HARD_DENY && name !in TOOL_NAMES)
    ensures name in {"job_cancel", "shell_run", "fs_write", "computer_click", "status"} ==> EvaluateTool(name) == Some(ALLOW)
  {
    assert |"approve"| == 7 && |"deny"| == 4 && |"approval_deny"| == 13 && |"approval_list"| == 13 && |"approval_grant"| == 14;
  }

  /** When a guarded tool is dispatched, after any trace: exactly with an approval that was submitted for this
      operation, tool and payload, approved, not consumed or timed out, and not expired yet; and then it is
      consumed. Every other guarded call gets a code, but for a payload without canonical form. */
  lemma DispatchExact(es: seq<Event>, c: Call)
    requires EvaluateTool(c.toolName) == Some(REQUIRE_APPROVAL)
    ensures var w := Run(START, es);
            var r, facts := Authorize(w.records, c).1, Next(w, Dispatch(c)).facts;
            if c.approvalId.None? then r == CodeApprovalRequired && facts == w.facts
            else
              var id := c.approvalId.value;
              && (r.Authorized? <==>
                    && id in w.submissions && c.requestedAt < w.submissions[id].expiresAt
                    && c.operationId == w.submissions[id].operationId && c.toolName == w.submissions[id].toolName
                    && Canonicalize(c.payload).Some? && Canonicalize(c.payload) == Canonicalize(w.submissions[id].payload)
                    && StateOf(w.facts, id) == APPROVED)
              && (r.Authorized? ==>
                    && facts == w.facts + [ConsumedBy(id, AttemptOf(c))]
                    && MethodOf(w.facts, id).Some?
                    && r == Authorized(id, MethodOf(w.facts, id).value, Canonicalize(w.submissions[id].payload).value))
              && (!r.Authorized? ==>
                    r == if id in w.submissions && c.requestedAt < w.submissions[id].expiresAt && Canonicalize(c.payload).None?
                         then Raises(CanonicalPayload) else CodeApprovalInvalid)
  {
    RunKeepsInv(START, es);
    var w := Run(START, es);
    hide Run, Inv, Canonicalize, StateOf, MethodOf, EvaluateTool, Consume, Bound;
    AuthorizeFollows(w, c);
    if c.approvalId.Some? {
      hide Authorize, Next;
      ConsumeAnswers(w, AttemptOf(c));
      assert c.approvalId.value in w.submissions ==>
               (Bound(AttemptOf(c), w.submissions[c.approvalId.value]) <==>
                  c.operationId == w.submissions[c.approvalId.value].operationId && c.toolName == w.submissions[c.approvalId.value].toolName)
        by { BoundCall(w, c); }
    }
  }

  lemma BoundCall(w: World, c: Call)
    requires c.approvalId.Some?
    ensures forall s :: Bound(AttemptOf(c), s) <==> c.operationId == s.operationId && c.toolName == s.toolName
  {}

  /** What `authorize` makes of the answer of `consume`. */
  lemma AuthorizeFollows(w: World, c: Call)
    requires EvaluateTool(c.toolName) == Some(REQUIRE_APPROVAL)
    ensures var r := Authorize(w.records, c).1;
            if c.approvalId.None? then r == CodeApprovalRequired && Next(w, Dispatch(c)).facts == w.facts
            else
              var a := AttemptOf(c);
              var consumed := Consume(w.records, a).1;
              && Next(w, Dispatch(c)).facts == w.facts + ConsumeFacts(w.records, consumed, a)
              && r == (match consumed
                       case ApprovedPayload(_, _, canonical, via) => Authorized(c.approvalId.value, via, canonical)
                       case Refused(CanonicalPayload) => Raises(CanonicalPayload)
                       case Refused(InvalidState) => Raises(InvalidState)
                       case Refused(_) => CodeApprovalInvalid)
  {
    hide Consume, EvaluateTool;
  }

  /** A run that ends in an authorised dispatch. */
  lemma DispatchHappens(op: Id, via: Method) returns (es: seq<Event>, c: Call)
    ensures Authorize(Run(START, es).records, c).1.Authorized? && EvaluateTool(c.toolName) == Some(REQUIRE_APPROVAL)
  {
    var s := Submission(op, "job_start", Null, 0, 10);
    PolicyTable("job_start");
    assert ValidSubmission(s) by { NullIsCanonical(); }
    c := Call(op, "job_start", Null, 2, Some(1));
    es := [Submit(s, 1), DecideBy(Decision(1, true, via, 1))];
    hide Canonicalize, EvaluateTool, StateOf, MethodOf;
    var w1 := Next(START, es[0]);
    assert w1.submissions == map[1 := s] && 1 in w1.records && w1.records[1].state == PENDING;
    var w2 := Next(w1, es[1]);
    assert 1 in w2.records && w2.records[1].state == APPROVED && w2.records[1].via == Some(via);
    assert es[1..] == [es[1]] && es[1..][1..] == [];
    assert Run(START, es) == Run(w1, es[1..]) == Run(w2, []) == w2;
  }

  lemma NullIsCanonical()
    ensures Canonicalize(Null).Some?
  {}
}
