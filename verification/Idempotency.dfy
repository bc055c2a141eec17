/** The replay cache: completed results by operation id, for a bounded time, under one lock. */
module Idempotency {
  import opened Wrappers

  type Time = int

  /** P is the request digest's preimage, R the result bytes' preimage. */
  datatype Entry<P, R> = Entry(request: P, result: R, expiresAt: Time)

  datatype Lookup<R> = Hit(result: R) | Conflict | Miss

  function Purge<P, R>(entries: map<nat, Entry<P, R>>, op: nat, at: Time): map<nat, Entry<P, R>> {
    if op in entries && at >= entries[op].expiresAt then entries - {op} else entries
  }

  function Look<P(==), R>(entries: map<nat, Entry<P, R>>, op: nat, request: P, at: Time): Lookup<R> {
    if op !in entries || at >= entries[op].expiresAt then Miss
    else if entries[op].request != request then Conflict
    else Hit(entries[op].result)
  }

  datatype Executed<R> = Replayed(result: R) | Computed(result: R) | ConflictError | OperationError

  /** One call of `execute`. `outcome` is what the callback gives if it is called (None when it raises). */
  datatype Call<P, R> = Call(op: nat, request: P, at: Time, outcome: Option<R>)

  function Execution<P(==), R>(entries: map<nat, Entry<P, R>>, ttl: Time, c: Call<P, R>): (map<nat, Entry<P, R>>, Executed<R>) {
    match Look(entries, c.op, c.request, c.at)
    case Hit(r) => (entries, Replayed(r))
    case Conflict => (entries, ConflictError)
    case Miss =>
      if c.outcome.None? then (Purge(entries, c.op, c.at), OperationError)
      else (entries[c.op := Entry(c.request, c.outcome.value, c.at + ttl)], Computed(c.outcome.value))
  }

  class IdempotencyStore<P(==), R> {
    const ttl: Time
    var entries: map<nat, Entry<P, R>>

    constructor (ttl: Time)
      requires ttl > 0
      ensures this.ttl == ttl && entries == map[]
    {
      this.ttl := ttl;
      entries := map[];
    }

    method Execute(c: Call<P, R>) returns (e: Executed<R>)
      modifies this
      ensures (entries, e) == Execution(old(entries), ttl, c)
    {
      ghost var was := entries;
      if c.op in entries && c.at >= entries[c.op].expiresAt {
        entries := entries - {c.op};
      }
      if c.op in entries {
        if entries[c.op].request != c.request { return ConflictError; }
        return Replayed(entries[c.op].result);
      }
      if c.outcome.None? { return OperationError; }
      entries := entries[c.op := Entry(c.request, c.outcome.value, c.at + ttl)];
      assert entries == was[c.op := Entry(c.request, c.outcome.value, c.at + ttl)];
      return Computed(c.outcome.value);
    }
  }

  // ---- Any sequence of calls ----

  /** The cache after the calls, and what each was answered. */
  function History<P(==), R>(ttl: Time, calls: seq<Call<P, R>>): (h: (map<nat, Entry<P, R>>, seq<Executed<R>>))
    ensures |h.1| == |calls|
  {
    if calls == [] then (map[], [])
    else
      var (entries, answers) := History(ttl, calls[..|calls| - 1]);
      var (entries', answer) := Execution(entries, ttl, calls[|calls| - 1]);
      (entries', answers + [answer])
  }

  /** Call k computed the last result for its operation before call n, and no call since came so late that it
      evicted it. */
  predicate Holds<P, R>(ttl: Time, calls: seq<Call<P, R>>, answers: seq<Executed<R>>, k: nat, n: nat)
    requires |answers| >= n && n <= |calls|
  {
    && k < n && answers[k].Computed?
    && forall j | k < j < n && calls[j].op == calls[k].op :: !answers[j].Computed? && calls[j].at < calls[k].at + ttl
  }

  ghost predicate Remembers<P(!new), R(!new)>(ttl: Time, calls: seq<Call<P, R>>, answers: seq<Executed<R>>, entries: map<nat, Entry<P, R>>)
    requires |answers| == |calls|
  {
    && (forall op | op in entries :: exists k: nat :: k < |calls| && calls[k].op == op && Holds(ttl, calls, answers, k, |calls|))
    && (forall k: nat | k < |calls| && Holds(ttl, calls, answers, k, |calls|) ::
          calls[k].op in entries
          && entries[calls[k].op] == Entry(calls[k].request, answers[k].result, calls[k].at + ttl))
  }

  lemma {:induction false} HistoryRemembers<P(!new), R(!new)>(ttl: Time, calls: seq<Call<P, R>>)
    ensures var (entries, answers) := History(ttl, calls);
            Remembers(ttl, calls, answers, entries)
  {
    if calls != [] {
      var init, c := calls[..|calls| - 1], calls[|calls| - 1];
      HistoryRemembers(ttl, init);
      var (entries, answers) := History(ttl, init);
      RemembersStep(ttl, init, answers, entries, c);
      assert calls == init + [c];
    }
  }

  /** One more call: what an earlier one still stands for afterwards. */
  lemma HoldsPush<P(!new), R(!new)>(ttl: Time, init: seq<Call<P, R>>, answers: seq<Executed<R>>, c: Call<P, R>, answer: Executed<R>, k: nat)
    requires |answers| == |init|
    ensures k < |init| ==>
              (Holds(ttl, init + [c], answers + [answer], k, |init| + 1) <==>
                 Holds(ttl, init, answers, k, |init|) && (c.op == init[k].op ==> !answer.Computed? && c.at < init[k].at + ttl))
    ensures Holds(ttl, init + [c], answers + [answer], |init|, |init| + 1) <==> answer.Computed?
  {
    var calls, answers', n := init + [c], answers + [answer], |init|;
    assert calls[n] == c && answers'[n] == answer;
    assert forall j | 0 <= j < n :: calls[j] == init[j] && answers'[j] == answers[j];
  }

  lemma RemembersStep<P(!new), R(!new)>(ttl: Time, init: seq<Call<P, R>>, answers: seq<Executed<R>>,
                                        entries: map<nat, Entry<P, R>>, c: Call<P, R>)
    requires |answers| == |init| && Remembers(ttl, init, answers, entries)
    ensures var (entries', answer) := Execution(entries, ttl, c);
            Remembers(ttl, init + [c], answers + [answer], entries')
  {
    hide Holds;
    var (entries', answer) := Execution(entries, ttl, c);
    var calls, answers', n := init + [c], answers + [answer], |init|;
    forall op | op in entries' ensures exists k: nat :: k < n + 1 && calls[k].op == op && Holds(ttl, calls, answers', k, n + 1) {
      if op == c.op && answer.Computed? {
        HoldsPush(ttl, init, answers, c, answer, n);
        assert calls[n].op == op && Holds(ttl, calls, answers', n, n + 1);
      } else {
        var k: nat :| k < n && init[k].op == op && Holds(ttl, init, answers, k, n);
        HoldsPush(ttl, init, answers, c, answer, k);
        assert entries[op].expiresAt == init[k].at + ttl;
        assert calls[k].op == op && Holds(ttl, calls, answers', k, n + 1);
      }
    }
    forall k: nat | k < n + 1 && Holds(ttl, calls, answers', k, n + 1)
      ensures calls[k].op in entries' && answers'[k].Computed?
           && entries'[calls[k].op] == Entry(calls[k].request, answers'[k].result, calls[k].at + ttl)
    {
      HoldsPush(ttl, init, answers, c, answer, k);
      HoldsComputed(ttl, calls, answers', k, n + 1);
      if k < n { assert calls[k] == init[k] && answers'[k] == answers[k] && Holds(ttl, init, answers, k, n); }
    }
  }

  lemma HoldsComputed<P(!new), R(!new)>(ttl: Time, calls: seq<Call<P, R>>, answers: seq<Executed<R>>, k: nat, n: nat)
    requires |answers| >= n && n <= |calls| && Holds(ttl, calls, answers, k, n)
    ensures k < n && answers[k].Computed?
  {}

  /** Over any calls with any timestamps, the last one is answered by what some call still stands for: it replays
      that call's result if it comes before its time to live is over and asks for the same, and conflicts if it
      asks for anything else; in every other case its callback runs, and only a callback that completes is kept.
      At most one call stands for an operation at a time. */
  lemma AnsweredByHistory<P(!new), R(!new)>(ttl: Time, calls: seq<Call<P, R>>, c: Call<P, R>, k: nat)
    ensures var answers := History(ttl, calls).1;
            var answer := History(ttl, calls + [c]).1[|calls|];
            && (answer.Replayed? <==>
                  exists i: nat :: i < |calls| && calls[i].op == c.op && Holds(ttl, calls, answers, i, |calls|)
                               && c.at < calls[i].at + ttl && c.request == calls[i].request)
            && (answer.ConflictError? <==>
                  exists i: nat :: i < |calls| && calls[i].op == c.op && Holds(ttl, calls, answers, i, |calls|)
                               && c.at < calls[i].at + ttl && c.request != calls[i].request)
            && (k < |calls| && calls[k].op == c.op && Holds(ttl, calls, answers, k, |calls|) && answer.Replayed? ==>
                  answers[k] == Computed(answer.result))
            && (!answer.Replayed? && !answer.ConflictError? ==>
                  answer == if c.outcome.Some? then Computed(c.outcome.value) else OperationError)
  {
    HistoryRemembers(ttl, calls);
    assert (calls + [c])[..|calls|] == calls;
    var (entries, answers) := History(ttl, calls);
    hide History, Holds;
    if c.op in entries {
      var i: nat :| i < |calls| && calls[i].op == c.op && Holds(ttl, calls, answers, i, |calls|);
    }
  }
}
