/** The Worker's operation dispatcher: which exchanges are active, which were asked to cancel, and what
    each is told in the end, with exchanges, cancels and close interleaving freely. */
module Dispatcher {
  import opened Wrappers

  type Id = nat
  type Tid = nat

  datatype Reply =
    | UnsupportedOperation | WorkerStopping
    | HandlerFailed(code: nat)          // the handler raised one of the mapped errors
    | Cancelled | Success(payload: nat)

  // ---- The lock-held blocks ----

  datatype Table = Table(active: set<Id>, cancelled: set<Id>, closed: bool)

  const EMPTY: Table := Table({}, {}, false)

  function EnterBlock(d: Table, id: Id): (Table, bool) {
    if d.closed then (d, false) else (d.(active := d.active + {id}), true)
  }

  /** The last block of an exchange, whatever happened before. */
  function EndBlock(d: Table, id: Id): Table { d.(active := d.active - {id}, cancelled := d.cancelled - {id}) }

  function CancelBlock(d: Table, id: Id): (Table, bool) {
    if id in d.active then (d.(cancelled := d.cancelled + {id}), true) else (d, false)
  }

  /** None: it was closed already. The ids are those whose handlers close tells to cancel. */
  function CloseBlock(d: Table): (Table, Option<set<Id>>) {
    if d.closed then (d, None) else (d.(closed := true), Some(d.active))
  }

  class WorkerOperationDispatcher {
    var active: set<Id>
    var cancelled: set<Id>
    var closed: bool

    function View(): Table reads this { Table(active, cancelled, closed) }

    constructor ()
      ensures View() == EMPTY
    {
      active, cancelled, closed := {}, {}, false;
    }

    method Enter(id: Id) returns (ok: bool)
      modifies this
      ensures (View(), ok) == EnterBlock(old(View()), id)
    {
      if closed { return false; }
      active := active + {id};
      return true;
    }

    method End(id: Id)
      modifies this
      ensures View() == EndBlock(old(View()), id)
    {
      active := active - {id};
      cancelled := cancelled - {id};
    }

    method Cancel(id: Id) returns (accepted: bool)
      modifies this
      ensures (View(), accepted) == CancelBlock(old(View()), id)
    {
      if id !in active { return false; }
      cancelled := cancelled + {id};
      return true;
    }

    method Close() returns (told: Option<set<Id>>)
      modifies this
      ensures (View(), told) == CloseBlock(old(View()))
    {
      if closed { return None; }
      closed := true;
      return Some(active);
    }
  }

  // ---- Interleavings ----

  datatype Outcome = Returns(payload: nat) | Raises(code: nat) | Escapes   // Escapes: an error that is not mapped

  datatype Pc =
    | Called
    | Running
    | Returned(payload: nat)            // the handler returned; the cancelled set is looked at next
    | Ending(reply: Option<Reply>)      // the last block is next; None when an error escapes
    | Done(reply: Option<Reply>)

  datatype Exchange = Exchange(id: Id, supported: bool, pc: Pc)

  datatype Entry = Entered(t: Tid) | Accepted(id: Id) | Judged(t: Tid, cancelled: bool) | Closed

  datatype World = World(table: Table, threads: map<Tid, Exchange>, log: seq<Entry>)

  datatype Step = Go(t: Tid, outcome: Outcome) | Cancel(id: Id) | Close

  function At(w: World, t: Tid, pc: Pc): World
    requires t in w.threads
  {
    w.(threads := w.threads[t := w.threads[t].(pc := pc)])
  }

  function GoThread(w: World, t: Tid, outcome: Outcome): World
    requires t in w.threads
  {
    var x := w.threads[t];
    match x.pc
    case Called =>
      if !x.supported then At(w, t, Done(Some(UnsupportedOperation)))
      else
        var (d, ok) := EnterBlock(w.table, x.id);
        if ok then At(w, t, Running).(table := d, log := w.log + [Entered(t)])
        else At(w, t, Done(Some(WorkerStopping)))
    case Running =>
      (match outcome
       case Returns(payload) => At(w, t, Returned(payload))
       case Raises(code) => At(w, t, Ending(Some(HandlerFailed(code))))
       case Escapes => At(w, t, Ending(None)))
    case Returned(payload) =>
      var cancelled := x.id in w.table.cancelled;
      At(w, t, Ending(Some(if cancelled then Cancelled else Success(payload)))).(log := w.log + [Judged(t, cancelled)])
    case Ending(reply) => At(w, t, Done(reply)).(table := EndBlock(w.table, x.id))
    case Done(_) => w
  }

  function Next(w: World, e: Step): World {
    match e
    case Go(t, outcome) => if t in w.threads then GoThread(w, t, outcome) else w
    case Cancel(id) =>
      var (d, ok) := CancelBlock(w.table, id);
      if ok then w.(table := d, log := w.log + [Accepted(id)]) else w
    case Close =>
      var (d, told) := CloseBlock(w.table);
      if told.Some? then w.(table := d, log := w.log + [Closed]) else w
  }

  function Run(w: World, es: seq<Step>): World
    decreases es
  {
    if es == [] then w else Run(Next(w, es[0]), es[1..])
  }

  predicate Start(w: World) {
    && w.table == EMPTY && w.log == []
    && forall t | t in w.threads :: w.threads[t].pc == Called
  }

  predicate Live(pc: Pc) { pc.Running? || pc.Returned? || pc.Ending? }

  ghost predicate UniqueIds(w: World) {
    forall t, u | t in w.threads && u in w.threads && w.threads[t].id == w.threads[u].id :: t == u
  }

  // ---- What holds for any ids ----

  ghost predicate TableOk(w: World) {
    && w.table.cancelled <= w.table.active
    && (forall id | id in w.table.active :: exists t :: t in w.threads && w.threads[t].id == id && Live(w.threads[t].pc))
    && (Closed in w.log <==> w.table.closed)
    && (forall i, j | 0 <= i < j < |w.log| && w.log[i] == Closed :: !w.log[j].Entered?)
  }

  // ---- What needs unique ids ----

  ghost predicate AcceptedBefore(log: seq<Entry>, n: nat, id: Id) {
    exists i | 0 <= i < n && i < |log| :: log[i] == Accepted(id)
  }

  ghost predicate ThreadOk(w: World, t: Tid)
    requires t in w.threads
  {
    var x := w.threads[t];
    && (Live(x.pc) ==> x.id in w.table.active)
    && (x.pc.Called? ==> x.id !in w.table.cancelled && !AcceptedBefore(w.log, |w.log|, x.id))
    && (x.pc.Running? || x.pc.Returned? ==> (x.id in w.table.cancelled <==> AcceptedBefore(w.log, |w.log|, x.id)))
    && (x.pc == Ending(Some(Cancelled)) || x.pc == Done(Some(Cancelled)) ==> Judged(t, true) in w.log)
    && ((exists p :: x.pc == Ending(Some(Success(p))) || x.pc == Done(Some(Success(p)))) ==> Judged(t, false) in w.log)
  }

  ghost predicate EntryOk(w: World, j: nat)
    requires j < |w.log|
  {
    w.log[j].Judged? ==>
      && w.log[j].t in w.threads
      && (w.log[j].cancelled <==> AcceptedBefore(w.log, j, w.threads[w.log[j].t].id))
  }

  ghost predicate Exact(w: World) {
    && (forall t | t in w.threads :: ThreadOk(w, t))
    && (forall j | 0 <= j < |w.log| :: EntryOk(w, j))
  }

  // ---- Every step keeps both ----

  lemma AcceptedPush(log: seq<Entry>, e: Entry, id: Id)
    ensures forall n: nat | n <= |log| :: AcceptedBefore(log + [e], n, id) <==> AcceptedBefore(log, n, id)
    ensures AcceptedBefore(log + [e], |log| + 1, id) <==> AcceptedBefore(log, |log|, id) || e == Accepted(id)
  {
    var more := log + [e];
    assert more[|log|] == e;
    forall n: nat | n <= |log| ensures AcceptedBefore(more, n, id) <==> AcceptedBefore(log, n, id) {
      if AcceptedBefore(log, n, id) {
        var i :| 0 <= i < n && i < |log| && log[i] == Accepted(id);
        assert more[i] == Accepted(id);
      }
    }
  }

  lemma NextKeepsTable(w: World, e: Step)
    requires TableOk(w)
    ensures TableOk(Next(w, e))
  {
    var w' := Next(w, e);
    forall id | id in w'.table.active
      ensures exists t :: t in w'.threads && w'.threads[t].id == id && Live(w'.threads[t].pc)
    {
      if id in w.table.active {
        var t :| t in w.threads && w.threads[t].id == id && Live(w.threads[t].pc);
        assert w'.threads[t].id == id;
      } else {
        assert Live(w'.threads[e.t].pc);
      }
    }
  }

  /** The log of a step, one entry longer or unchanged, says the same about what came before. */
  ghost predicate Extends(w: World, w': World) {
    w'.log == w.log || (|w'.log| == |w.log| + 1 && w'.log == w.log + [w'.log[|w.log|]])
  }

  lemma AcceptedKept(w: World, w': World, id: Id)
    requires Extends(w, w') && Accepted(id) !in w'.log[|w.log|..]
    ensures AcceptedBefore(w'.log, |w'.log|, id) <==> AcceptedBefore(w.log, |w.log|, id)
  {
    if w'.log != w.log {
      assert w'.log[|w.log|..] == [w'.log[|w.log|]];
      AcceptedPush(w.log, w'.log[|w.log|], id);
    }
  }

  lemma EntriesKept(w: World, w': World, j: nat)
    requires Exact(w) && Extends(w, w') && j < |w.log|
    requires w'.threads.Keys == w.threads.Keys && forall t | t in w.threads :: w'.threads[t].id == w.threads[t].id
    ensures EntryOk(w', j)
  {
    hide ThreadOk;
    assert EntryOk(w, j) && w'.log[j] == w.log[j];
    if w.log[j].Judged? && w'.log != w.log { AcceptedPush(w.log, w'.log[|w.log|], w.threads[w.log[j].t].id); }
  }

  /** A thread that did not move, and whose id the step did not touch. */
  lemma ThreadKept(w: World, w': World, u: Tid)
    requires u in w.threads && ThreadOk(w, u) && u in w'.threads && w'.threads[u] == w.threads[u] && Extends(w, w')
    requires var id := w.threads[u].id;
             && (id in w'.table.active <==> id in w.table.active)
             && (id in w'.table.cancelled <==> id in w.table.cancelled)
             && Accepted(id) !in w'.log[|w.log|..]
    ensures ThreadOk(w', u)
  {
    AcceptedKept(w, w', w.threads[u].id);
    hide AcceptedBefore;
    assert w.log <= w'.log;
  }

  lemma GoKeepsExact(w: World, t: Tid, outcome: Outcome)
    requires UniqueIds(w) && Exact(w) && t in w.threads
    ensures Exact(GoThread(w, t, outcome))
  {
    var w' := GoThread(w, t, outcome);
    hide AcceptedBefore, ThreadOk, EntryOk;
    forall u | u in w'.threads ensures ThreadOk(w', u) {
      assert ThreadOk(w, u);
      if u == t { MovedThreadOk(w, t, outcome); }
      else { assert w.threads[u].id != w.threads[t].id; ThreadKept(w, w', u); }
    }
    forall j | 0 <= j < |w'.log| ensures EntryOk(w', j) {
      if j < |w.log| { EntriesKept(w, w', j); } else { NewEntryOk(w, t, outcome); }
    }
  }

  lemma MovedThreadOk(w: World, t: Tid, outcome: Outcome)
    requires t in w.threads && ThreadOk(w, t)
    ensures ThreadOk(GoThread(w, t, outcome), t)
  {
    var w' := GoThread(w, t, outcome);
    AcceptedKept(w, w', w.threads[t].id);
    hide AcceptedBefore;
    assert w.log <= w'.log;
    if w.threads[t].pc.Returned? { assert w'.log[|w.log|] in w'.log; }
  }

  lemma NewEntryOk(w: World, t: Tid, outcome: Outcome)
    requires t in w.threads && ThreadOk(w, t) && |GoThread(w, t, outcome).log| > |w.log|
    ensures EntryOk(GoThread(w, t, outcome), |w.log|)
  {
    var w' := GoThread(w, t, outcome);
    AcceptedPush(w.log, w'.log[|w.log|], w.threads[t].id);
    hide AcceptedBefore;
  }

  lemma CancelKeepsExact(w: World, id: Id)
    requires TableOk(w) && UniqueIds(w) && Exact(w)
    ensures Exact(Next(w, Cancel(id)))
  {
    var w' := Next(w, Cancel(id));
    if id !in w.table.active { return; }
    AcceptedPush(w.log, Accepted(id), id);
    var live :| live in w.threads && w.threads[live].id == id && Live(w.threads[live].pc);
    hide AcceptedBefore;
    forall u | u in w'.threads ensures ThreadOk(w', u) {
      assert ThreadOk(w, u);
      if u != live { hide ThreadOk; ThreadKept(w, w', u); }
    }
    forall j | 0 <= j < |w'.log| ensures EntryOk(w', j) {
      if j < |w.log| { EntriesKept(w, w', j); }
    }
  }

  lemma CloseKeepsExact(w: World)
    requires Exact(w)
    ensures Exact(Next(w, Close))
  {
    var w' := Next(w, Close);
    hide AcceptedBefore, ThreadOk, EntryOk;
    forall u | u in w'.threads ensures ThreadOk(w', u) { assert ThreadOk(w, u); ThreadKept(w, w', u); }
    forall j | 0 <= j < |w'.log| ensures EntryOk(w', j) {
      if j < |w.log| { EntriesKept(w, w', j); } else { ClosedEntryOk(w', j); }
    }
  }

  lemma ClosedEntryOk(w: World, j: nat)
    requires j < |w.log| && w.log[j] == Closed
    ensures EntryOk(w, j)
  {}

  lemma NextKeepsExact(w: World, e: Step)
    requires TableOk(w) && UniqueIds(w) && Exact(w)
    ensures UniqueIds(Next(w, e)) && Exact(Next(w, e))
  {
    hide TableOk, Exact;
    match e
    case Go(t, outcome) => if t in w.threads { GoKeepsExact(w, t, outcome); }
    case Cancel(id) => CancelKeepsExact(w, id);
    case Close => CloseKeepsExact(w);
  }

  lemma {:induction false} RunKeepsTable(w: World, es: seq<Step>)
    requires TableOk(w)
    ensures TableOk(Run(w, es))
    decreases es
  {
    if es != [] {
      NextKeepsTable(w, es[0]);
      hide TableOk, Next;
      RunKeepsTable(Next(w, es[0]), es[1..]);
    }
  }

  lemma {:induction false} RunKeepsExact(w: World, es: seq<Step>)
    requires TableOk(w) && UniqueIds(w) && Exact(w)
    ensures Exact(Run(w, es))
    decreases es
  {
    if es != [] {
      NextKeepsTable(w, es[0]);
      NextKeepsExact(w, es[0]);
      hide TableOk, Next, Exact, UniqueIds;
      RunKeepsExact(Next(w, es[0]), es[1..]);
    }
  }

  // ---- Every run ----

  /** Nothing leaks: only active exchanges are marked cancelled, only live ones are active, and once no
      exchange is live both sets are empty, ids shared or not. After close nothing enters. */
  lemma NothingLeaks(w: World, es: seq<Step>, i: nat, j: nat)
    requires Start(w)
    ensures var w' := Run(w, es);
            && w'.table.cancelled <= w'.table.active
            && ((forall t | t in w'.threads :: !Live(w'.threads[t].pc)) ==> w'.table.active == {} && w'.table.cancelled == {})
            && (i < j < |w'.log| && w'.log[i] == Closed ==> !w'.log[j].Entered?)
  {
    RunKeepsTable(w, es);
    var w' := Run(w, es);
    if forall t | t in w'.threads :: !Live(w'.threads[t].pc) {
      assert w'.table.active == {} && w'.table.cancelled == {};
    }
  }

  /** With unique ids an exchange whose handler returned is reported cancelled exactly when a cancel for
      its id was accepted before the cancelled set was looked at, and a success otherwise. */
  lemma CancelledExactly(w: World, es: seq<Step>, t: Tid)
    requires Start(w) && UniqueIds(w)
    ensures var w' := Run(w, es);
            t in w'.threads && w'.threads[t].pc.Done? && w'.threads[t].pc.reply.Some? ==>
              var id, reply := w'.threads[t].id, w'.threads[t].pc.reply.value;
              && (reply.Cancelled? ==>
                    exists j :: 0 <= j < |w'.log| && w'.log[j] == Judged(t, true) && AcceptedBefore(w'.log, j, id))
              && (reply.Success? ==>
                    exists j :: 0 <= j < |w'.log| && w'.log[j] == Judged(t, false) && !AcceptedBefore(w'.log, j, id))
  {
    RunKeepsExact(w, es);
    var w' := Run(w, es);
    hide Run, AcceptedBefore;
    if t in w'.threads && w'.threads[t].pc.Done? && w'.threads[t].pc.reply.Some? {
      assert ThreadOk(w', t);
      var reply := w'.threads[t].pc.reply.value;
      if reply.Cancelled? {
        var j :| 0 <= j < |w'.log| && w'.log[j] == Judged(t, true);
        assert EntryOk(w', j);
      }
      if reply.Success? {
        assert Judged(t, false) in w'.log;
        var j :| 0 <= j < |w'.log| && w'.log[j] == Judged(t, false);
        assert EntryOk(w', j);
      }
    }
  }

  /** The first close tells every exchange that is running then, and only those; with unique ids each by its own
      id. A later close tells nobody. */
  lemma CloseTellsAll(w: World, es: seq<Step>, t: Tid)
    requires Start(w) && UniqueIds(w)
    ensures var w' := Run(w, es);
            var told := CloseBlock(w'.table).1;
            && (told.None? <==> Closed in w'.log)
            && (told.Some? && t in w'.threads ==> (w'.threads[t].id in told.value <==> Live(w'.threads[t].pc)))
            && (told.Some? ==> forall id | id in told.value :: exists u :: u in w'.threads && w'.threads[u].id == id)
  {
    RunKeepsTable(w, es);
    RunKeepsExact(w, es);
    RunKeepsIds(w, es);
    var w' := Run(w, es);
    hide Run, AcceptedBefore;
    if t in w'.threads { assert ThreadOk(w', t); }
  }

  lemma {:induction false} RunKeepsIds(w: World, es: seq<Step>)
    requires UniqueIds(w)
    ensures UniqueIds(Run(w, es))
    decreases es
  {
    if es != [] { RunKeepsIds(Next(w, es[0]), es[1..]); }
  }

  /** An exchange is let in exactly when its operation is known and the dispatcher is not closed; otherwise it is
      told why at once. What a handler raises is what its caller is told. */
  lemma EnterExact(w: World, t: Tid, outcome: Outcome)
    requires t in w.threads
    ensures var x, w' := w.threads[t], GoThread(w, t, outcome);
            && t in w'.threads
            && (x.pc.Called? ==>
                  w'.threads[t].pc == (if !x.supported then Done(Some(UnsupportedOperation))
                                       else if w.table.closed then Done(Some(WorkerStopping)) else Running)
                  && (w'.threads[t].pc.Running? ==> x.id in w'.table.active))
            && (x.pc.Running? && outcome.Raises? ==> w'.threads[t].pc == Ending(Some(HandlerFailed(outcome.code))))
            && (x.pc.Running? && outcome.Returns? ==> w'.threads[t].pc == Returned(outcome.payload))
  {}

  // ---- What fails ----

  lemma RunPush(w: World, es: seq<Step>, e: Step)
    ensures Run(w, es + [e]) == Next(Run(w, es), e)
    decreases es
  {
    if es == [] {
      assert [e][1..] == [];
    } else {
      assert (es + [e])[1..] == es[1..] + [e];
      hide Next;
      RunPush(Next(w, es[0]), es[1..], e);
    }
  }

  lemma Then(w: World, es: seq<Step>, e: Step) returns (all: seq<Step>)
    ensures Run(w, all) == Next(Run(w, es), e)
  {
    RunPush(w, es, e);
    all := es + [e];
  }

  /** `cancel` may answer true and the exchange still end as a success: it came after the look. */
  lemma AcceptedTooLate(id: Id, payload: nat) returns (es: seq<Step>)
    ensures var w := World(EMPTY, map[1 := Exchange(id, true, Called)], []);
            && Run(w, es).log == [Entered(1), Judged(1, false), Accepted(id)]
            && 1 in Run(w, es).threads && Run(w, es).threads[1].pc == Done(Some(Success(payload)))
  {
    var w := World(EMPTY, map[1 := Exchange(id, true, Called)], []);
    var go := Go(1, Returns(payload));
    es := Then(w, [], go);
    es := Then(w, es, go);
    assert Run(w, es) == World(Table({id}, {}, false), map[1 := Exchange(id, true, Returned(payload))], [Entered(1)]);
    es := Then(w, es, go);
    es := Then(w, es, Cancel(id));
    es := Then(w, es, go);
  }

  /** Uniqueness is needed: when two exchanges share an id, the end of one makes the other, still
      running, impossible to cancel. */
  lemma SharedIdLosesCancel(id: Id) returns (es: seq<Step>)
    ensures var w := World(EMPTY, map[1 := Exchange(id, true, Called), 2 := Exchange(id, true, Called)], []);
            && 2 in Run(w, es).threads && Run(w, es).threads[2].pc == Running
            && !CancelBlock(Run(w, es).table, id).1
  {
    var w := World(EMPTY, map[1 := Exchange(id, true, Called), 2 := Exchange(id, true, Called)], []);
    es := Then(w, [], Go(1, Escapes));
    es := Then(w, es, Go(2, Escapes));
    assert Run(w, es).threads == map[1 := Exchange(id, true, Running), 2 := Exchange(id, true, Running)];
    es := Then(w, es, Go(1, Escapes));
    es := Then(w, es, Go(1, Escapes));
  }
}
