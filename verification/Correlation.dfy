/** Request and reply correlation over one persistent pipe: many exchange threads and a reader on the
    Gateway side, one session with its handler thread on the Worker side. Every lock-held block is one
    step and the steps interleave freely. */
module Correlation {
  import opened Wrappers

  type Rid = nat
  type Tid = nat

  datatype Variant = WORKER | HELPER

  datatype Reply = Reply(id: Rid, busy: bool, body: nat)

  datatype Outcome = Returned(reply: Reply) | Disconnected | TimedOut | Abandoned | WriteRaised

  // ---- The connection object: what its condition guards ----

  datatype Conn = Conn(closed: bool, active: Option<Rid>, response: Option<Reply>)

  datatype Delivery = Stored | UnexpectedMessage | Mismatch

  /** False is EndpointDisconnectedError. */
  function ArmBlock(c: Conn, id: Rid): (Conn, bool) {
    if c.closed then (c, false) else (Conn(false, Some(id), None), true)
  }

  function UnarmBlock(c: Conn, id: Rid): Conn {
    if c.active == Some(id) then c.(active := None) else c
  }

  /** One wake-up of the waiting exchange; None means that it goes on waiting. A wait that timed out
      raises even when a reply was stored before it got the lock back. */
  function AwaitBlock(v: Variant, c: Conn, timedOut: bool): (Conn, Option<Outcome>) {
    if timedOut then (c.(active := None), Some(TimedOut))
    else if c.response.None? && !c.closed then (c, None)
    else if v.WORKER? && c.closed then (c, Some(Disconnected))
    else
      (c.(active := None, response := None),
       Some(if c.response.Some? then Returned(c.response.value) else Disconnected))
  }

  function DeliverBlock(c: Conn, r: Reply): (Conn, Delivery) {
    if c.active.None? then (c, UnexpectedMessage)
    else if c.active.value != r.id then (c, Mismatch)
    else (c.(response := Some(r)), Stored)
  }

  predicate MayCancel(c: Conn, id: Rid) { !c.closed && c.active == Some(id) }

  class Connection {
    var closed: bool
    var active: Option<Rid>
    var response: Option<Reply>

    function View(): Conn reads this { Conn(closed, active, response) }

    constructor ()
      ensures View() == Conn(false, None, None)
    {
      closed, active, response := false, None, None;
    }

    method Arm(id: Rid) returns (ok: bool)
      modifies this
      ensures (View(), ok) == ArmBlock(old(View()), id)
    {
      if closed { return false; }
      active, response := Some(id), None;
      return true;
    }

    method Unarm(id: Rid)
      modifies this
      ensures View() == UnarmBlock(old(View()), id)
    {
      if active == Some(id) { active := None; }
    }

    method Await(v: Variant, timedOut: bool) returns (r: Option<Outcome>)
      modifies this
      ensures (View(), r) == AwaitBlock(v, old(View()), timedOut)
    {
      if timedOut {
        active := None;
        return Some(TimedOut);
      }
      if response == None && !closed { return None; }
      if v.WORKER? && closed { return Some(Disconnected); }
      var reply := response;
      active, response := None, None;
      if reply == None { return Some(Disconnected); }
      return Some(Returned(reply.value));
    }

    method Deliver(r: Reply) returns (d: Delivery)
      modifies this
      ensures (View(), d) == DeliverBlock(old(View()), r)
    {
      if active == None { return UnexpectedMessage; }
      if active.value != r.id { return Mismatch; }
      response := Some(r);
      return Stored;
    }

    method Close()
      modifies this
      ensures View() == old(View()).(closed := true)
    {
      closed := true;
    }
  }

  // ---- The worker session: one request at a time ----

  datatype Handler = Handler(id: Rid, answered: bool)

  datatype Session = Session(active: Option<Rid>, handlers: seq<Handler>)

  /** False: answered busy. */
  function StartBlock(s: Session, id: Rid): (Session, bool) {
    if s.active.Some? then (s, false) else (Session(Some(id), s.handlers + [Handler(id, false)]), true)
  }

  function EndBlock(s: Session, i: nat): Session
    requires i < |s.handlers|
  {
    Session(if s.active == Some(s.handlers[i].id) then None else s.active, s.handlers[..i] + s.handlers[i + 1..])
  }

  class WorkerSession {
    var active: Option<Rid>
    var handlers: seq<Handler>

    function View(): Session reads this { Session(active, handlers) }

    constructor ()
      ensures View() == Session(None, [])
    {
      active, handlers := None, [];
    }

    method StartRequest(id: Rid) returns (started: bool)
      modifies this
      ensures (View(), started) == StartBlock(old(View()), id)
    {
      if active != None { return false; }
      active := Some(id);
      handlers := handlers + [Handler(id, false)];
      return true;
    }

    method EndRequest(i: nat)
      requires i < |handlers|
      modifies this
      ensures View() == EndBlock(old(View()), i)
    {
      if active == Some(handlers[i].id) { active := None; }
      handlers := handlers[..i] + handlers[i + 1..];
    }
  }

  // ---- The whole system ----

  /** Where a call of `ExchangeAttempt.run` stands. */
  datatype Pc =
    | Enter                      // before the first look at the abandon flag
    | Wait                       // for the exchange lock
    | Held | Armed | Writing
    | Failing                    // the write raised OSError, the connection is not closed yet
    | Raising                    // the write raised an error that `_write` lets through
    | Unarming                   // abandoned before the write
    | Await
    | Done(outcome: Outcome)
    | Completed(reply: Reply)    // returned to the caller
    | CorrelationFailed | AbandonedLate

  datatype Exchange = Exchange(id: Rid, pc: Pc, abandoned: bool, armedAt: nat)

  datatype CancelPc = Asked | Cleared | Closing | Finished(result: bool) | Raised
  datatype CancelCall = CancelCall(id: Rid, pc: CancelPc)

  datatype Message = Request(id: Rid) | CancelRequest(id: Rid)

  datatype Entry =
    | Wrote(t: Tid, id: Rid) | AbandonSet(t: Tid) | Delivered(reply: Reply) | Rejected(reply: Reply)
    | Lost(id: Rid)              // a handler that raised, or a reply whose write failed
    | ArmedBy(t: Tid)
    | RaisedBy(t: Tid)           // left the exchange lock without disarming or closing

  datatype World = World(
    variant: Variant, conn: Conn, lock: Option<Tid>, threads: map<Tid, Exchange>, cancels: map<Tid, CancelCall>,
    reading: bool, wire: seq<Message>, session: Session, replies: seq<Reply>, log: seq<Entry>)

  datatype Step =
    | Go(t: Tid, write: WriteResult, timedOut: bool)   // thread t's next block
    | Abandon(t: Tid)
    | CancelGo(c: Tid, write: WriteResult)
    | Deliver
    | CloseIt
    | Read(writeOk: bool)                              // the session takes the next message
    | Answer(i: nat, raises: bool, writeOk: bool, body: nat)
    | EndHandler(i: nat)

  /** How a write ends. A write that raises may still have sent its whole frame. Only OSError closes the
      connection; the pipe's own error type is not one. */
  datatype WriteResult = Whole | OsError(sent: bool) | OtherError(sent: bool)

  predicate Sent(write: WriteResult) { write.Whole? || write.sent }

  /** One block of a thread: where it stands then, what it leaves under the locks, and what is logged; a
      Wrote is also a request on the pipe. */
  datatype Effect = Effect(exchange: Exchange, conn: Conn, lock: Option<Tid>, note: Option<Entry>)

  function Block(v: Variant, x: Exchange, t: Tid, conn: Conn, lock: Option<Tid>, now: nat, write: WriteResult, timedOut: bool): Effect {
    match x.pc
    case Enter => Effect(x.(pc := if x.abandoned then Done(Abandoned) else Wait), conn, lock, None)
    case Wait => if lock.Some? then Effect(x, conn, lock, None) else Effect(x.(pc := Held), conn, Some(t), None)
    case Held =>
      var (c, ok) := ArmBlock(conn, x.id);
      if ok then Effect(x.(pc := Armed, armedAt := now), c, lock, Some(ArmedBy(t)))
      else Effect(x.(pc := Done(Disconnected)), c, None, None)
    case Armed => Effect(x.(pc := if x.abandoned then Unarming else Writing), conn, lock, None)
    case Writing =>
      if x.abandoned then Effect(x.(pc := Unarming), conn, lock, None)
      else Effect(x.(pc := match write case Whole => Await case OsError(_) => Failing case OtherError(_) => Raising),
                  conn, lock, if Sent(write) then Some(Wrote(t, x.id)) else None)
    case Failing => Effect(x.(pc := Done(Disconnected)), conn.(closed := true), None, None)
    case Raising => Effect(x.(pc := Done(WriteRaised)), conn, None, Some(RaisedBy(t)))
    case Unarming => Effect(x.(pc := Done(Abandoned)), UnarmBlock(conn, x.id), None, None)
    case Await =>
      var (c, o) := AwaitBlock(v, conn, timedOut);
      if o.Some? then Effect(x.(pc := Done(o.value)), c, None, None) else Effect(x, c, lock, None)
    case Done(Returned(r)) =>
      Effect(x.(pc := if r.id != x.id then CorrelationFailed else if x.abandoned then AbandonedLate else Completed(r)),
             conn, lock, None)
    case _ => Effect(x, conn, lock, None)
  }

  function GoThread(w: World, t: Tid, write: WriteResult, timedOut: bool): World
    requires t in w.threads
  {
    var x := w.threads[t];
    var e := Block(w.variant, x, t, w.conn, w.lock, |w.log|, write, timedOut);
    w.(conn := e.conn, lock := e.lock, threads := w.threads[t := e.exchange],
       wire := if e.note.Some? && e.note.value.Wrote? then w.wire + [Request(x.id)] else w.wire,
       log := if e.note.Some? then w.log + [e.note.value] else w.log)
  }

  function GoCancel(w: World, c: Tid, write: WriteResult): World
    requires c in w.cancels
  {
    var x := w.cancels[c];
    match x.pc
    case Asked => w.(cancels := w.cancels[c := x.(pc := if MayCancel(w.conn, x.id) then Cleared else Finished(false))])
    case Cleared =>
      var pc := if !write.Whole? then Raised else if w.variant.HELPER? then Closing else Finished(true);
      w.(wire := if Sent(write) then w.wire + [CancelRequest(x.id)] else w.wire,
         conn := if write.OsError? then w.conn.(closed := true) else w.conn,
         cancels := w.cancels[c := x.(pc := pc)])
    case Closing => w.(conn := w.conn.(closed := true), cancels := w.cancels[c := x.(pc := Finished(true))])
    case _ => w
  }

  function AbandonStep(w: World, t: Tid): World
    requires t in w.threads
  {
    w.(threads := w.threads[t := w.threads[t].(abandoned := true)], log := w.log + [AbandonSet(t)])
  }

  /** A rejected reply ends the reading loop, whose owner then closes the connection (CloseIt). */
  function DeliverStep(w: World): World
    requires w.replies != []
  {
    var r := w.replies[0];
    var (c, d) := DeliverBlock(w.conn, r);
    w.(conn := c, replies := w.replies[1..], reading := d.Stored?,
       log := w.log + [if d.Stored? then Delivered(r) else Rejected(r)])
  }

  function ReadStep(w: World, writeOk: bool): World
    requires w.wire != []
  {
    var m, rest := w.wire[0], w.(wire := w.wire[1..]);
    if m.CancelRequest? then rest
    else
      var (s, started) := StartBlock(w.session, m.id);
      if started then rest.(session := s)
      else if writeOk then rest.(replies := w.replies + [Reply(m.id, true, 0)])
      else rest.(log := w.log + [Lost(m.id)])
  }

  predicate CanAnswer(w: World, i: nat) { i < |w.session.handlers| && !w.session.handlers[i].answered }

  function AnswerStep(w: World, i: nat, raises: bool, writeOk: bool, body: nat): World
    requires CanAnswer(w, i)
  {
    var h := w.session.handlers[i];
    var answered := w.(session := w.session.(handlers := w.session.handlers[i := h.(answered := true)]));
    if !raises && writeOk then answered.(replies := w.replies + [Reply(h.id, false, body)])
    else answered.(log := w.log + [Lost(h.id)])
  }

  predicate CanEnd(w: World, i: nat) { i < |w.session.handlers| && w.session.handlers[i].answered }

  function Next(w: World, e: Step): World {
    match e
    case Go(t, write, timedOut) => if t in w.threads then GoThread(w, t, write, timedOut) else w
    case Abandon(t) => if t in w.threads then AbandonStep(w, t) else w
    case CancelGo(c, write) => if c in w.cancels then GoCancel(w, c, write) else w
    case Deliver => if w.reading && w.replies != [] then DeliverStep(w) else w
    case CloseIt => w.(conn := w.conn.(closed := true))
    case Read(writeOk) => if w.wire != [] then ReadStep(w, writeOk) else w
    case Answer(i, raises, writeOk, body) => if CanAnswer(w, i) then AnswerStep(w, i, raises, writeOk, body) else w
    case EndHandler(i) => if CanEnd(w, i) then w.(session := EndBlock(w.session, i)) else w
  }

  function Run(w: World, es: seq<Step>): World
    decreases es
  {
    if es == [] then w else Run(Next(w, es[0]), es[1..])
  }

  predicate Start(w: World) {
    && w.conn == Conn(false, None, None) && w.lock == None && w.reading
    && (forall t | t in w.threads :: w.threads[t] == Exchange(w.threads[t].id, Enter, false, 0))
    && (forall c | c in w.cancels :: w.cancels[c].pc == Asked)
    && w.wire == [] && w.session == Session(None, []) && w.replies == [] && w.log == []
  }

  /** No request id is used twice on this connection. */
  ghost predicate UniqueIds(w: World) {
    forall t, u | t in w.threads && u in w.threads && w.threads[t].id == w.threads[u].id :: t == u
  }

  // ---- Conservation of requests ----

  datatype Kind = WRITTEN | ANSWERED | LOST | OTHER

  function KindOf(e: Entry): Kind {
    match e
    case Wrote(_, _) => WRITTEN
    case Delivered(_) => ANSWERED
    case Rejected(_) => ANSWERED
    case Lost(_) => LOST
    case _ => OTHER
  }

  function IdOf(e: Entry): Rid {
    match e
    case Wrote(_, id) => id
    case Delivered(r) => r.id
    case Rejected(r) => r.id
    case Lost(id) => id
    case _ => 0
  }

  /** The ids of the log's entries of one kind. */
  function Tally(log: seq<Entry>, k: Kind): multiset<Rid> {
    if log == [] then multiset{}
    else
      var last := log[|log| - 1];
      Tally(log[..|log| - 1], k) + if KindOf(last) == k then multiset{IdOf(last)} else multiset{}
  }

  function WireIds(wire: seq<Message>): multiset<Rid> {
    if wire == [] then multiset{}
    else
      var last := wire[|wire| - 1];
      WireIds(wire[..|wire| - 1]) + Carried(last)
  }

  function Carried(m: Message): multiset<Rid> { if m.Request? then multiset{m.id} else multiset{} }

  function ReplyIds(rs: seq<Reply>): multiset<Rid> {
    if rs == [] then multiset{} else ReplyIds(rs[..|rs| - 1]) + multiset{rs[|rs| - 1].id}
  }

  function RunningIds(s: Session): multiset<Rid> {
    if |s.handlers| == 1 && !s.handlers[0].answered then multiset{s.handlers[0].id} else multiset{}
  }

  /** Requests on the pipe or being handled, and replies not read yet. */
  function Pending(w: World): multiset<Rid> {
    WireIds(w.wire) + RunningIds(w.session) + ReplyIds(w.replies)
  }

  lemma TallyPush(log: seq<Entry>, e: Entry, k: Kind)
    ensures Tally(log + [e], k) == Tally(log, k) + if KindOf(e) == k then multiset{IdOf(e)} else multiset{}
  {
    assert (log + [e])[..|log|] == log;
  }

  lemma WirePush(wire: seq<Message>, m: Message)
    ensures WireIds(wire + [m]) == WireIds(wire) + Carried(m)
  {
    assert (wire + [m])[..|wire|] == wire;
  }

  lemma ReplyPush(rs: seq<Reply>, r: Reply)
    ensures ReplyIds(rs + [r]) == ReplyIds(rs) + multiset{r.id}
  {
    assert (rs + [r])[..|rs|] == rs;
  }

  lemma Associative(a: multiset<Rid>, b: multiset<Rid>, c: multiset<Rid>)
    ensures (a + b) + c == a + (b + c)
  {}

  lemma {:induction false} WirePop(wire: seq<Message>)
    requires wire != []
    ensures WireIds(wire) == Carried(wire[0]) + WireIds(wire[1..])
  {
    if |wire| == 1 {
      assert wire[..0] == [] && wire[1..] == [];
    } else {
      hide WireIds, Carried;
      var init, last := wire[..|wire| - 1], wire[|wire| - 1];
      assert wire == init + [last] && wire[1..] == init[1..] + [last];
      WirePop(init);
      WirePush(init, last);
      WirePush(init[1..], last);
      Associative(Carried(wire[0]), WireIds(init[1..]), Carried(last));
    }
  }

  lemma {:induction false} ReplyPop(rs: seq<Reply>)
    requires rs != []
    ensures ReplyIds(rs) == multiset{rs[0].id} + ReplyIds(rs[1..])
  {
    if |rs| == 1 {
      assert rs[..0] == [] && rs[1..] == [];
    } else {
      hide ReplyIds;
      var init, last := rs[..|rs| - 1], rs[|rs| - 1];
      assert rs == init + [last] && rs[1..] == init[1..] + [last];
      ReplyPop(init);
      ReplyPush(init, last);
      ReplyPush(init[1..], last);
      Associative(multiset{rs[0].id}, ReplyIds(init[1..]), multiset{last.id});
    }
  }

  lemma {:induction false} TallyHas(log: seq<Entry>, i: nat)
    requires i < |log|
    ensures Tally(log, KindOf(log[i]))[IdOf(log[i])] >= 1
  {
    if i < |log| - 1 { TallyHas(log[..|log| - 1], i); }
  }

  lemma {:induction false} TallyTwo(log: seq<Entry>, i: nat, j: nat)
    requires i < j < |log| && KindOf(log[i]) == KindOf(log[j]) && IdOf(log[i]) == IdOf(log[j])
    ensures Tally(log, KindOf(log[j]))[IdOf(log[j])] >= 2
  {
    var init := log[..|log| - 1];
    if j == |log| - 1 { TallyHas(init, i); } else { TallyTwo(init, i, j); }
  }

  // ---- The invariant ----

  predicate Inside(pc: Pc) { pc.Held? || Past(pc) }

  /** Armed and not yet left. */
  predicate Past(pc: Pc) { pc.Armed? || pc.Writing? || pc.Failing? || pc.Raising? || pc.Unarming? || pc.Await? }

  /** Calls that have not written and, from these points on, either write next or never. */
  predicate Unwritten(pc: Pc) {
    pc.Enter? || pc.Wait? || pc.Held? || pc.Armed? || pc.Writing? || pc.Unarming? || pc == Done(Abandoned)
  }

  ghost predicate DeliveredSince(log: seq<Entry>, n: nat, r: Reply) {
    exists j | n <= j < |log| :: log[j] == Delivered(r)
  }

  function ReplyOf(pc: Pc): Option<Reply> {
    match pc
    case Done(Returned(r)) => Some(r)
    case Completed(r) => Some(r)
    case _ => None
  }

  ghost predicate ThreadOk(w: World, t: Tid)
    requires t in w.threads
  {
    var x := w.threads[t];
    && (Inside(x.pc) ==> w.lock == Some(t))
    && x.pc != CorrelationFailed && x.armedAt <= |w.log|
    && (ReplyOf(x.pc).Some? ==> ReplyOf(x.pc).value.id == x.id && DeliveredSince(w.log, x.armedAt, ReplyOf(x.pc).value))
    && (Past(x.pc) ==>
          && w.conn.active == Some(x.id)
          && (w.conn.response.Some? ==> w.conn.response.value.id == x.id && DeliveredSince(w.log, x.armedAt, w.conn.response.value)))
    && (x.pc.AbandonedLate? ==> exists r: Reply :: r.id == x.id && DeliveredSince(w.log, x.armedAt, r))
  }

  /** The thread whose write raised since anyone last armed the connection. */
  function LeftArmed(log: seq<Entry>): Option<Tid> {
    if log == [] then None
    else
      var last := log[|log| - 1];
      if last.ArmedBy? then None else if last.RaisedBy? then Some(last.t) else LeftArmed(log[..|log| - 1])
  }

  ghost predicate LockOk(w: World) {
    && (w.lock.Some? ==> w.lock.value in w.threads && Inside(w.threads[w.lock.value].pc))
    && (if w.lock.Some? && Past(w.threads[w.lock.value].pc) then LeftArmed(w.log).None? else w.conn.closed || IdleOk(w))
  }

  /** With nobody between arming and leaving: what is armed, if anything. */
  ghost predicate IdleOk(w: World) {
    match LeftArmed(w.log)
    case None => w.conn.active.None?
    case Some(t) => t in w.threads && w.threads[t].pc == Done(WriteRaised) && w.conn.active == Some(w.threads[t].id)
  }

  ghost predicate WroteBefore(log: seq<Entry>, n: nat, id: Rid) {
    exists k | 0 <= k < n && k < |log| :: log[k].Wrote? && log[k].id == id
  }

  ghost predicate EntryOk(w: World, i: nat)
    requires i < |w.log|
  {
    match w.log[i]
    case Wrote(t, id) =>
      && t in w.threads && id == w.threads[t].id && !Unwritten(w.threads[t].pc)
      && (forall k | i < k < |w.log| :: !(w.log[k].Wrote? && w.log[k].t == t))
    case AbandonSet(t) =>
      && t in w.threads && w.threads[t].abandoned
      && (forall k | i < k < |w.log| :: !(w.log[k].Wrote? && w.log[k].t == t))
    case Delivered(r) => WroteBefore(w.log, i, r.id)
    case Rejected(r) => WroteBefore(w.log, i, r.id)
    case _ => true
  }

  predicate SessionOk(s: Session) {
    s == Session(None, []) || (|s.handlers| == 1 && s.active == Some(s.handlers[0].id))
  }

  ghost predicate Conserved(w: World) {
    Tally(w.log, WRITTEN) == Pending(w) + Tally(w.log, ANSWERED) + Tally(w.log, LOST)
  }

  ghost predicate Inv(w: World) {
    && (forall t | t in w.threads :: ThreadOk(w, t))
    && LockOk(w)
    && (forall i | 0 <= i < |w.log| :: EntryOk(w, i))
    && SessionOk(w.session)
    && Conserved(w)
  }

  // ---- Every step keeps it ----

  /** What any step does to the threads and the log. */
  ghost predicate Evolves(w: World, w': World) {
    && w'.threads.Keys == w.threads.Keys
    && (forall t | t in w.threads ::
          && w'.threads[t].id == w.threads[t].id
          && (w.threads[t].abandoned ==> w'.threads[t].abandoned)
          && (!Unwritten(w.threads[t].pc) ==> !Unwritten(w'.threads[t].pc)))
    && MoreLog(w, w')
  }

  /** The log stays or gains one entry. */
  ghost predicate MoreLog(w: World, w': World) {
    w'.log == w.log || (|w'.log| == |w.log| + 1 && w'.log == w.log + [w'.log[|w.log|]])
  }

  /** A new log entry: what must be true of it. */
  ghost predicate Fresh(w: World, w': World, e: Entry) {
    match e
    case Wrote(t, id) =>
      && t in w.threads && w.threads[t].pc.Writing? && !w.threads[t].abandoned
      && t in w'.threads && id == w'.threads[t].id && !Unwritten(w'.threads[t].pc)
    case AbandonSet(t) => t in w'.threads && w'.threads[t].abandoned
    case Delivered(r) => WroteBefore(w.log, |w.log|, r.id)
    case Rejected(r) => WroteBefore(w.log, |w.log|, r.id)
    case _ => true
  }

  lemma EntryKept(w: World, w': World, i: nat)
    requires forall k | 0 <= k < |w.log| :: EntryOk(w, k)
    requires Evolves(w, w') && i < |w'.log|
    requires |w'.log| > |w.log| ==> Fresh(w, w', w'.log[|w.log|])
    ensures EntryOk(w', i)
  {
    if i < |w.log| {
      assert EntryOk(w, i) && w'.log[i] == w.log[i];
      forall k | i < k < |w'.log| && w'.log[k].Wrote?
        ensures (w.log[i].Wrote? || w.log[i].AbandonSet?) ==> w'.log[k].t != w.log[i].t
      {
        if k < |w.log| { assert w'.log[k] == w.log[k]; }
      }
    }
    var e := w'.log[i];
    if e.Delivered? || e.Rejected? { WroteBeforeGrows(w.log, w'.log, i, e.reply.id); }
  }

  lemma WroteBeforeGrows(a: seq<Entry>, b: seq<Entry>, n: nat, id: Rid)
    requires a <= b && WroteBefore(a, n, id)
    ensures WroteBefore(b, n, id)
  {
    var k :| 0 <= k < n && k < |a| && a[k].Wrote? && a[k].id == id;
    assert b[k] == a[k];
  }

  /** A thread that did not move, while the connection changed at most its closed flag and what is not
      a thread's between arming and leaving. */
  lemma ThreadKept(w: World, w': World, u: Tid)
    requires u in w.threads && u in w'.threads && ThreadOk(w, u)
    requires w'.threads[u] == w.threads[u] || w'.threads[u] == w.threads[u].(abandoned := true)
    requires Inside(w.threads[u].pc) ==> w'.lock == w.lock
    requires Past(w.threads[u].pc) ==> w'.conn.active == w.conn.active && w'.conn.response == w.conn.response
    requires w.log <= w'.log
    ensures ThreadOk(w', u)
  {
    var x := w.threads[u];
    forall r: Reply | DeliveredSince(w.log, x.armedAt, r) ensures DeliveredSince(w'.log, x.armedAt, r) {
      DeliveredGrows(w.log, w'.log, x.armedAt, r);
    }
  }

  lemma DeliveredGrows(a: seq<Entry>, b: seq<Entry>, n: nat, r: Reply)
    requires a <= b && DeliveredSince(a, n, r)
    ensures DeliveredSince(b, n, r)
  {
    var j :| n <= j < |a| && a[j] == Delivered(r);
    assert b[j] == a[j];
  }

  /** The moving thread itself. */
  lemma GoThreadOk(w: World, t: Tid, write: WriteResult, timedOut: bool)
    requires t in w.threads && ThreadOk(w, t)
    ensures ThreadOk(GoThread(w, t, write, timedOut), t)
  {
    var w' := GoThread(w, t, write, timedOut);
    var x := w.threads[t];
    hide DeliveredSince;
    forall r: Reply | DeliveredSince(w.log, x.armedAt, r) ensures DeliveredSince(w'.log, x.armedAt, r) {
      DeliveredGrows(w.log, w'.log, x.armedAt, r);
    }
  }

  lemma GoThreadEvolves(w: World, t: Tid, write: WriteResult, timedOut: bool)
    requires t in w.threads
    ensures var w' := GoThread(w, t, write, timedOut);
            && Evolves(w, w') && (|w'.log| > |w.log| ==> Fresh(w, w', w'.log[|w.log|]))
            && (forall u | u in w.threads && u != t :: w'.threads[u] == w.threads[u])
  {
    hide Block, Evolves, Fresh;
    GoThreadMoves(w, t, write, timedOut);
    var w' := GoThread(w, t, write, timedOut);
    hide GoThread;
    assert Evolves(w, w') by { MoveEvolves(w, w', t); }
    if |w'.log| > |w.log| { MoveFresh(w, w', t); }
  }

  /** The moving thread keeps its id and flag; only its write step logs. */
  ghost predicate Moves(w: World, w': World, t: Tid) {
    && t in w.threads && t in w'.threads && w'.threads == w.threads[t := w'.threads[t]]
    && w'.threads[t].id == w.threads[t].id && w'.threads[t].abandoned == w.threads[t].abandoned
    && (!Unwritten(w.threads[t].pc) ==> !Unwritten(w'.threads[t].pc))
    && (|| w'.log == w.log
        || w'.log == w.log + [ArmedBy(t)] || w'.log == w.log + [RaisedBy(t)]
        || (w'.log == w.log + [Wrote(t, w.threads[t].id)] && w.threads[t].pc.Writing? && !w.threads[t].abandoned
            && !Unwritten(w'.threads[t].pc)))
  }

  lemma BlockMoves(v: Variant, x: Exchange, t: Tid, conn: Conn, lock: Option<Tid>, now: nat, write: WriteResult, timedOut: bool)
    ensures var e := Block(v, x, t, conn, lock, now, write, timedOut);
            && e.exchange.id == x.id && e.exchange.abandoned == x.abandoned
            && (!Unwritten(x.pc) ==> !Unwritten(e.exchange.pc))
            && e.note in {None, Some(ArmedBy(t)), Some(RaisedBy(t)), Some(Wrote(t, x.id))}
            && (e.note == Some(Wrote(t, x.id)) ==> x.pc.Writing? && !x.abandoned && !Unwritten(e.exchange.pc))
  {}

  lemma GoThreadMoves(w: World, t: Tid, write: WriteResult, timedOut: bool)
    requires t in w.threads
    ensures Moves(w, GoThread(w, t, write, timedOut), t)
  {
    BlockMoves(w.variant, w.threads[t], t, w.conn, w.lock, |w.log|, write, timedOut);
    hide Block, Unwritten;
  }

  lemma MoveEvolves(w: World, w': World, t: Tid)
    requires Moves(w, w', t)
    ensures Evolves(w, w')
  {}

  lemma MoveFresh(w: World, w': World, t: Tid)
    requires Moves(w, w', t) && |w'.log| > |w.log|
    ensures Fresh(w, w', w'.log[|w.log|])
  {}

  lemma GoThreadLock(w: World, t: Tid, write: WriteResult, timedOut: bool)
    requires t in w.threads && ThreadOk(w, t) && LockOk(w)
    ensures var w' := GoThread(w, t, write, timedOut);
            LockOk(w') && (w.lock.Some? && w.lock != Some(t) ==> w'.lock == w.lock && w'.conn == w.conn)
  {
    hide DeliveredSince;
  }

  lemma GoThreadFlow(w: World, t: Tid, write: WriteResult, timedOut: bool)
    requires t in w.threads
    ensures var w' := GoThread(w, t, write, timedOut);
            && w'.session == w.session && w'.replies == w.replies
            && (|| (w'.log == w.log && w'.wire == w.wire)
                || ((w'.log == w.log + [ArmedBy(t)] || w'.log == w.log + [RaisedBy(t)]) && w'.wire == w.wire)
                || (w'.log == w.log + [Wrote(t, w.threads[t].id)] && w'.wire == w.wire + [Request(w.threads[t].id)]))
  {
    BlockMoves(w.variant, w.threads[t], t, w.conn, w.lock, |w.log|, write, timedOut);
    hide Block;
  }

  lemma GoThreadKeepsInv(w: World, t: Tid, write: WriteResult, timedOut: bool)
    requires Inv(w) && t in w.threads
    ensures Inv(GoThread(w, t, write, timedOut))
  {
    var w' := GoThread(w, t, write, timedOut);
    GoThreadEvolves(w, t, write, timedOut);
    GoThreadLock(w, t, write, timedOut);
    GoThreadFlow(w, t, write, timedOut);
    GoThreadOk(w, t, write, timedOut);
    GoThreadConserves(w, t, write, timedOut);
    hide GoThread, Conserved, SessionOk, LockOk, Fresh, Evolves, EntryOk;
    forall u | u in w'.threads ensures ThreadOk(w', u) {
      if u != t { assert ThreadOk(w, u); ThreadKept(w, w', u); }
    }
    forall i | 0 <= i < |w'.log| ensures EntryOk(w', i) { EntryKept(w, w', i); }
  }

  lemma GoThreadConserves(w: World, t: Tid, write: WriteResult, timedOut: bool)
    requires Conserved(w) && t in w.threads
    ensures Conserved(GoThread(w, t, write, timedOut))
  {
    var w' := GoThread(w, t, write, timedOut);
    GoThreadFlow(w, t, write, timedOut);
    hide GoThread;
    if w'.log != w.log { NoteConserves(w, w', t); }
  }

  lemma NoteConserves(w: World, w': World, t: Tid)
    requires Conserved(w) && t in w.threads && w'.session == w.session && w'.replies == w.replies
    requires || ((w'.log == w.log + [ArmedBy(t)] || w'.log == w.log + [RaisedBy(t)]) && w'.wire == w.wire)
             || (w'.log == w.log + [Wrote(t, w.threads[t].id)] && w'.wire == w.wire + [Request(w.threads[t].id)])
    ensures Conserved(w')
  {
    if w'.wire == w.wire { QuietNoteConserves(w, w', w'.log[|w.log|]); } else { WriteConserves(w, w', t); }
  }

  lemma QuietNoteConserves(w: World, w': World, e: Entry)
    requires Conserved(w) && KindOf(e).OTHER? && w'.log == w.log + [e]
    requires w'.wire == w.wire && w'.session == w.session && w'.replies == w.replies
    ensures Conserved(w')
  {
    TallySkip(w.log, e, WRITTEN);
    TallySkip(w.log, e, ANSWERED);
    TallySkip(w.log, e, LOST);
    assert Pending(w') == Pending(w);
    hide Tally, Pending;
  }

  lemma TallySkip(log: seq<Entry>, e: Entry, k: Kind)
    requires KindOf(e) != k
    ensures Tally(log + [e], k) == Tally(log, k)
  {
    assert (log + [e])[..|log|] == log;
  }

  lemma WriteConserves(w: World, w': World, t: Tid)
    requires Conserved(w) && t in w.threads && w'.session == w.session && w'.replies == w.replies
    requires w'.log == w.log + [Wrote(t, w.threads[t].id)] && w'.wire == w.wire + [Request(w.threads[t].id)]
    ensures Conserved(w')
  {
    var e := Wrote(t, w.threads[t].id);
    TallyPush(w.log, e, WRITTEN);
    TallyPush(w.log, e, ANSWERED);
    TallyPush(w.log, e, LOST);
    WirePush(w.wire, Request(w.threads[t].id));
    hide Tally, WireIds, RunningIds, ReplyIds;
  }

  /** Steps that move no thread: the connection may close, and a reply may be stored for the active id. */
  lemma OtherKeepsInv(w: World, w': World)
    requires Inv(w) && Conserved(w') && SessionOk(w'.session)
    requires w'.threads == w.threads && w'.lock == w.lock && w'.conn.active == w.conn.active
    requires w.conn.closed ==> w'.conn.closed
    requires MoreLog(w, w')
    requires |w'.log| > |w.log| ==>
               var e := w'.log[|w.log|]; e.Lost? || ((e.Delivered? || e.Rejected?) && WroteBefore(w.log, |w.log|, e.reply.id))
    requires w'.conn.response != w.conn.response ==>
               && w'.conn.response.Some? && w.conn.active == Some(w'.conn.response.value.id)
               && w'.log == w.log + [Delivered(w'.conn.response.value)]
    ensures Inv(w')
  {
    hide Conserved, SessionOk;
    forall u | u in w'.threads ensures ThreadOk(w', u) {
      assert ThreadOk(w, u);
      if w'.conn.response == w.conn.response || !Past(w.threads[u].pc) {
        ThreadKept(w, w', u);
      } else {
        NewReplyOk(w, w', u);
      }
    }
    assert forall i | 0 <= i < |w'.log| :: EntryOk(w', i) by {
      hide ThreadOk, LockOk;
      forall i | 0 <= i < |w'.log| ensures EntryOk(w', i) { EntryKept(w, w', i); }
    }
  }

  lemma NewReplyOk(w: World, w': World, u: Tid)
    requires u in w.threads && ThreadOk(w, u) && Past(w.threads[u].pc)
    requires w'.threads == w.threads && w'.lock == w.lock && w'.conn.active == w.conn.active && w.log <= w'.log
    requires w'.conn.response.Some? && w.conn.active == Some(w'.conn.response.value.id)
    requires w'.log == w.log + [Delivered(w'.conn.response.value)]
    ensures ThreadOk(w', u)
  {
    assert w'.log[|w.log|] == Delivered(w'.conn.response.value);
  }

  lemma TallyAll(log: seq<Entry>, e: Entry)
    ensures forall k :: Tally(log + [e], k) == Tally(log, k) + if KindOf(e) == k then multiset{IdOf(e)} else multiset{}
  {
    forall k ensures Tally(log + [e], k) == Tally(log, k) + if KindOf(e) == k then multiset{IdOf(e)} else multiset{} {
      TallyPush(log, e, k);
    }
  }

  lemma AbandonConserves(w: World, t: Tid)
    requires Conserved(w) && t in w.threads
    ensures Conserved(AbandonStep(w, t))
  {
    TallyAll(w.log, AbandonSet(t));
    hide Tally, WireIds, ReplyIds, RunningIds;
  }

  lemma AbandonKeepsInv(w: World, t: Tid)
    requires Inv(w) && t in w.threads
    ensures Inv(AbandonStep(w, t))
  {
    var w' := AbandonStep(w, t);
    AbandonConserves(w, t);
    AbandonThreads(w, t);
    hide Conserved, SessionOk, ThreadOk, EntryOk;
    assert Evolves(w, w');
    forall i | 0 <= i < |w'.log| ensures EntryOk(w', i) { EntryKept(w, w', i); }
  }

  lemma AbandonThreads(w: World, t: Tid)
    requires Inv(w) && t in w.threads
    ensures forall u | u in w.threads :: ThreadOk(AbandonStep(w, t), u)
  {
    var w' := AbandonStep(w, t);
    hide Conserved, SessionOk, LockOk, EntryOk;
    forall u | u in w.threads ensures ThreadOk(w', u) { assert ThreadOk(w, u); ThreadKept(w, w', u); }
  }

  lemma CancelFlow(w: World, c: Tid, write: WriteResult)
    requires c in w.cancels
    ensures var w' := GoCancel(w, c, write);
            && w'.log == w.log && w'.replies == w.replies && w'.session == w.session
            && w'.threads == w.threads && w'.lock == w.lock
            && w'.conn == w.conn.(closed := w'.conn.closed) && (w.conn.closed ==> w'.conn.closed)
            && (w'.wire == w.wire || w'.wire == w.wire + [CancelRequest(w.cancels[c].id)])
  {}

  lemma CancelKeepsInv(w: World, c: Tid, write: WriteResult)
    requires Inv(w) && c in w.cancels
    ensures Inv(GoCancel(w, c, write))
  {
    var w' := GoCancel(w, c, write);
    CancelFlow(w, c, write);
    WirePush(w.wire, CancelRequest(w.cancels[c].id));
    hide GoCancel, SessionOk, ThreadOk, LockOk, EntryOk, Tally, RunningIds, WireIds, ReplyIds;
    OtherKeepsInv(w, w');
  }

  lemma DeliverConserves(w: World)
    requires Conserved(w) && w.replies != []
    ensures Conserved(DeliverStep(w))
  {
    ReplyPop(w.replies);
    TallyAll(w.log, DeliverStep(w).log[|w.log|]);
    hide Tally, WireIds, ReplyIds, RunningIds;
  }

  /** A reply that can be read answers a request that was written. */
  lemma ReplyWasWritten(w: World)
    requires Conserved(w) && w.replies != []
    ensures WroteBefore(w.log, |w.log|, w.replies[0].id)
  {
    ReplyPop(w.replies);
    hide Tally, WireIds, RunningIds, ReplyIds;
    var i := TallyWitness(w.log, WRITTEN, w.replies[0].id);
    assert w.log[i].Wrote?;
  }

  lemma DeliverKeepsInv(w: World)
    requires Inv(w) && w.replies != []
    ensures Inv(DeliverStep(w))
  {
    DeliverConserves(w);
    ReplyWasWritten(w);
    hide Conserved, SessionOk, ThreadOk, LockOk, EntryOk, WroteBefore;
    OtherKeepsInv(w, DeliverStep(w));
  }

  /** A request moves from one place to the next, or out of the last into the log. */
  lemma Moved(w: World, w': World, id: Rid)
    requires Conserved(w)
    requires || (w'.log == w.log && Pending(w') == Pending(w))
             || (w'.log == w.log + [Lost(id)] && Pending(w) == Pending(w') + multiset{id})
    ensures Conserved(w')
  {
    TallyAll(w.log, Lost(id));
    hide Tally, Pending;
  }

  lemma ReadFlow(w: World, writeOk: bool)
    requires w.wire != []
    ensures var w' := ReadStep(w, writeOk);
            var m := w.wire[0];
            && w'.threads == w.threads && w'.lock == w.lock && w'.conn == w.conn && w'.wire == w.wire[1..]
            && (|| (m.CancelRequest? && w'.session == w.session && w'.replies == w.replies && w'.log == w.log)
                || (m.Request? && (w'.session, true) == StartBlock(w.session, m.id) && w'.replies == w.replies && w'.log == w.log)
                || (m.Request? && w'.session == w.session && w'.replies == w.replies + [Reply(m.id, true, 0)] && w'.log == w.log)
                || (m.Request? && w'.session == w.session && w'.replies == w.replies && w'.log == w.log + [Lost(m.id)]))
  {}

  lemma ReadStarts(w: World, w': World)
    requires w.wire != [] && w.wire[0].Request? && SessionOk(w.session) && w'.wire == w.wire[1..]
    requires (w'.session, true) == StartBlock(w.session, w.wire[0].id) && w'.replies == w.replies
    ensures Pending(w') == Pending(w) && SessionOk(w'.session)
  {
    WirePop(w.wire);
    hide WireIds, ReplyIds;
    var id := w.wire[0].id;
    assert w.session.handlers == [] && w'.session.handlers == [Handler(id, false)];
    assert RunningIds(w.session) == multiset{};
    assert RunningIds(w'.session) == multiset{id};
    hide RunningIds;
  }

  lemma ReadDrops(w: World, w': World)
    requires w.wire != [] && w'.wire == w.wire[1..] && w'.session == w.session && w'.replies == w.replies
    ensures Pending(w) == Pending(w') + if w.wire[0].Request? then multiset{w.wire[0].id} else multiset{}
  {
    WirePop(w.wire);
    hide WireIds, ReplyIds, RunningIds;
  }

  lemma ReadRefuses(w: World, w': World)
    requires w.wire != [] && w.wire[0].Request? && w'.wire == w.wire[1..] && w'.session == w.session
    requires w'.replies == w.replies + [Reply(w.wire[0].id, true, 0)]
    ensures Pending(w') == Pending(w)
  {
    WirePop(w.wire);
    ReplyPush(w.replies, Reply(w.wire[0].id, true, 0));
    hide WireIds, ReplyIds, RunningIds;
  }

  lemma ReadPending(w: World, writeOk: bool)
    requires SessionOk(w.session) && w.wire != []
    ensures var w' := ReadStep(w, writeOk);
            var id := w.wire[0].id;
            && SessionOk(w'.session)
            && ((w'.log == w.log && Pending(w') == Pending(w))
                || (w'.log == w.log + [Lost(id)] && Pending(w) == Pending(w') + multiset{id}))
  {
    var w' := ReadStep(w, writeOk);
    ReadFlow(w, writeOk);
    hide ReadStep, Pending;
    if w'.session != w.session { hide StartBlock; ReadStarts(w, w'); }
    else if w'.replies != w.replies { ReadRefuses(w, w'); }
    else { ReadDrops(w, w'); }
  }

  lemma ReadConserves(w: World, writeOk: bool)
    requires Conserved(w) && SessionOk(w.session) && w.wire != []
    ensures Conserved(ReadStep(w, writeOk)) && SessionOk(ReadStep(w, writeOk).session)
  {
    hide ReadStep, Conserved, Pending, SessionOk;
    ReadPending(w, writeOk);
    var w' := ReadStep(w, writeOk);
    Moved(w, w', w.wire[0].id);
  }

  lemma ReadKeepsInv(w: World, writeOk: bool)
    requires Inv(w) && w.wire != []
    ensures Inv(ReadStep(w, writeOk))
  {
    hide ReadStep, Conserved, SessionOk, ThreadOk, LockOk, EntryOk;
    ReadConserves(w, writeOk);
    ReadLogs(w, writeOk);
    OtherKeepsInv(w, ReadStep(w, writeOk));
  }

  lemma ReadLogs(w: World, writeOk: bool)
    requires w.wire != []
    ensures var w' := ReadStep(w, writeOk);
            && w'.threads == w.threads && w'.lock == w.lock && w'.conn == w.conn
            && (w'.log == w.log || (|w'.log| == |w.log| + 1 && w'.log == w.log + [w'.log[|w.log|]] && w'.log[|w.log|].Lost?))
  {}

  lemma AnswerConserves(w: World, i: nat, raises: bool, writeOk: bool, body: nat)
    requires Conserved(w) && SessionOk(w.session) && CanAnswer(w, i)
    ensures Conserved(AnswerStep(w, i, raises, writeOk, body)) && SessionOk(AnswerStep(w, i, raises, writeOk, body).session)
  {
    hide Conserved, Tally, WireIds;
    var id, w' := w.session.handlers[i].id, AnswerStep(w, i, raises, writeOk, body);
    ReplyPush(w.replies, Reply(id, false, body));
    hide ReplyIds;
    assert RunningIds(w.session) == multiset{id} && RunningIds(w'.session) == multiset{};
    hide RunningIds;
    if !raises && writeOk {
      assert Pending(w') == Pending(w);
    } else {
      assert Pending(w) == Pending(w') + multiset{id};
    }
    Moved(w, w', id);
  }

  lemma AnswerKeepsInv(w: World, i: nat, raises: bool, writeOk: bool, body: nat)
    requires Inv(w) && CanAnswer(w, i)
    ensures Inv(AnswerStep(w, i, raises, writeOk, body))
  {
    AnswerConserves(w, i, raises, writeOk, body);
    hide Conserved, SessionOk, ThreadOk, LockOk, EntryOk;
    OtherKeepsInv(w, AnswerStep(w, i, raises, writeOk, body));
  }

  lemma EndKeepsInv(w: World, i: nat)
    requires Inv(w) && CanEnd(w, i)
    ensures Inv(w.(session := EndBlock(w.session, i)))
  {
    var w' := w.(session := EndBlock(w.session, i));
    assert RunningIds(w'.session) == RunningIds(w.session) == multiset{};
    assert Conserved(w') by { hide Tally, WireIds, ReplyIds, RunningIds; }
    hide Conserved, ThreadOk, LockOk, EntryOk;
    OtherKeepsInv(w, w');
  }

  lemma CloseKeepsInv(w: World)
    requires Inv(w)
    ensures Inv(w.(conn := w.conn.(closed := true)))
  {
    hide Tally, WireIds, ReplyIds, RunningIds, SessionOk, ThreadOk, LockOk, EntryOk;
    OtherKeepsInv(w, w.(conn := w.conn.(closed := true)));
  }

  lemma NextKeepsInv(w: World, e: Step)
    requires Inv(w)
    ensures Inv(Next(w, e))
  {
    hide Inv;
    match e
    case Go(t, write, timedOut) => if t in w.threads { GoThreadKeepsInv(w, t, write, timedOut); }
    case Abandon(t) => if t in w.threads { AbandonKeepsInv(w, t); }
    case CancelGo(c, write) => if c in w.cancels { CancelKeepsInv(w, c, write); }
    case Deliver => if w.reading && w.replies != [] { DeliverKeepsInv(w); }
    case CloseIt => CloseKeepsInv(w);
    case Read(writeOk) => if w.wire != [] { ReadKeepsInv(w, writeOk); }
    case Answer(i, raises, writeOk, body) => if CanAnswer(w, i) { AnswerKeepsInv(w, i, raises, writeOk, body); }
    case EndHandler(i) => if CanEnd(w, i) { EndKeepsInv(w, i); }
  }

  lemma {:induction false} RunKeepsInv(w: World, es: seq<Step>)
    requires Inv(w)
    ensures Inv(Run(w, es))
    decreases es
  {
    if es != [] {
      NextKeepsInv(w, es[0]);
      hide Inv;
      RunKeepsInv(Next(w, es[0]), es[1..]);
    }
  }

  lemma StartInv(w: World)
    requires Start(w)
    ensures Inv(w)
  {}

  lemma EveryRunKeepsInv(w: World, es: seq<Step>)
    requires Start(w)
    ensures Inv(Run(w, es))
  {
    StartInv(w);
    RunKeepsInv(w, es);
  }

  // ---- Safety over every run ----

  /** An exchange returns only a reply that carries its own request id and was delivered after this very
      exchange armed the connection; the later correlation check never fires. */
  lemma OwnReplyOnly(w: World, es: seq<Step>, t: Tid)
    requires Start(w) && t in Run(w, es).threads
    ensures var w' := Run(w, es);
            var x := w'.threads[t];
            && !x.pc.CorrelationFailed?
            && (ReplyOf(x.pc).Some? ==>
                  && ReplyOf(x.pc).value.id == x.id
                  && exists j :: x.armedAt <= j < |w'.log| && w'.log[j] == Delivered(ReplyOf(x.pc).value))
  {
    EveryRunKeepsInv(w, es);
    assert ThreadOk(Run(w, es), t);
  }

  /** What a waiting exchange wakes up to. A stored reply survives a close on the Helper's connection and
      is lost on the Worker's; either way the thread that leaves frees the lock, and on a live connection
      the next exchange finds nothing armed. */
  lemma WakeUp(w: World, es: seq<Step>, t: Tid, timedOut: bool)
    requires Start(w)
    ensures var w1 := Run(w, es);
            t in w1.threads && w1.threads[t].pc.Await? ==>
              var w2 := Next(w1, Go(t, Whole, timedOut));
              var pc := w2.threads[t].pc;
              && (timedOut ==> pc == Done(TimedOut))
              && (!timedOut ==>
                    && (pc.Await? <==> w1.conn.response.None? && !w1.conn.closed)
                    && (ReplyOf(pc).Some? <==> w1.conn.response.Some? && (w.variant.HELPER? || !w1.conn.closed))
                    && (pc == Done(Disconnected) <==> w1.conn.closed && (w.variant.WORKER? || w1.conn.response.None?)))
              && (!pc.Await? ==> w2.lock.None? && (w2.conn.closed || w2.conn.active.None?))
              && (ReplyOf(pc).Some? ==> ReplyOf(pc).value.id == w1.threads[t].id)
  {
    hide Run, Inv, DeliveredSince, Block;
    EveryRunKeepsInv(w, es);
    RunKeepsVariant(w, es);
    var w1 := Run(w, es);
    if t in w1.threads && w1.threads[t].pc.Await? {
      assert Inv(w1) ==> ThreadOk(w1, t) by { InvThread(w1, t); }
      AwaitWakes(w1.variant, w1.threads[t], t, w1.conn, w1.lock, |w1.log|, timedOut);
    }
  }

  lemma InvThread(w: World, t: Tid)
    requires t in w.threads
    ensures Inv(w) ==> ThreadOk(w, t)
  {}

  lemma AwaitWakes(v: Variant, x: Exchange, t: Tid, conn: Conn, lock: Option<Tid>, now: nat, timedOut: bool)
    requires x.pc.Await? && conn.active == Some(x.id) && (conn.response.Some? ==> conn.response.value.id == x.id)
    ensures var e := Block(v, x, t, conn, lock, now, Whole, timedOut);
            var pc := e.exchange.pc;
            && (timedOut ==> pc == Done(TimedOut))
            && (!timedOut ==>
                  && (pc.Await? <==> conn.response.None? && !conn.closed)
                  && (ReplyOf(pc).Some? <==> conn.response.Some? && (v.HELPER? || !conn.closed))
                  && (pc == Done(Disconnected) <==> conn.closed && (v.WORKER? || conn.response.None?)))
            && (!pc.Await? ==> e.lock.None? && (e.conn.closed || e.conn.active.None?))
            && (ReplyOf(pc).Some? ==> ReplyOf(pc).value.id == x.id)
  {}

  lemma {:induction false} RunKeepsVariant(w: World, es: seq<Step>)
    ensures Run(w, es).variant == w.variant
    decreases es
  {
    if es != [] { RunKeepsVariant(Next(w, es[0]), es[1..]); }
  }

  /** At most one exchange is between arming and leaving, the connection is armed for it and for no one
      else. Once everyone has left, an id is still armed on a live connection if and only if the last thread
      that armed it left because its write raised an error that closes nothing. */
  lemma OneExchangeAtATime(w: World, es: seq<Step>, t: Tid, u: Tid)
    requires Start(w)
    ensures var w' := Run(w, es);
            && (t in w'.threads && u in w'.threads && Inside(w'.threads[t].pc) && Inside(w'.threads[u].pc) ==> t == u)
            && (t in w'.threads && Past(w'.threads[t].pc) ==> w'.conn.active == Some(w'.threads[t].id))
            && ((forall x | x in w'.threads :: !Past(w'.threads[x].pc)) && !w'.conn.closed ==>
                  (w'.conn.active.Some? <==>
                     exists i | 0 <= i < |w'.log| :: w'.log[i].RaisedBy? && forall k | i < k < |w'.log| :: !w'.log[k].ArmedBy?))
  {
    EveryRunKeepsInv(w, es);
    var w' := Run(w, es);
    assert t in w'.threads ==> ThreadOk(w', t);
    assert u in w'.threads ==> ThreadOk(w', u);
    LeftArmedExact(w'.log);
  }

  lemma {:induction false} LeftArmedExact(log: seq<Entry>)
    ensures LeftArmed(log).Some? <==>
              exists i | 0 <= i < |log| :: log[i].RaisedBy? && forall k | i < k < |log| :: !log[k].ArmedBy?
  {
    if log != [] {
      var init, last := log[..|log| - 1], |log| - 1;
      LeftArmedExact(init);
      assert forall i | 0 <= i < last :: init[i] == log[i];
      if i: nat :| i < |init| && init[i].RaisedBy? && forall k | i < k < |init| :: !init[k].ArmedBy? {
        assert log[i].RaisedBy?;
      }
    }
  }

  /** A request abandoned before its write step never reaches the pipe, an exchange that ended as
      abandoned wrote nothing, and nobody writes twice. */
  lemma AbandonedNeverWritten(w: World, es: seq<Step>, t: Tid, i: nat, k: nat)
    requires Start(w)
    ensures var w' := Run(w, es);
            && (i < k < |w'.log| && (w'.log[i] == AbandonSet(t) || (w'.log[i].Wrote? && w'.log[i].t == t)) ==>
                  !(w'.log[k].Wrote? && w'.log[k].t == t))
            && (t in w'.threads && w'.threads[t].pc == Done(Abandoned) && k < |w'.log| ==>
                  !(w'.log[k].Wrote? && w'.log[k].t == t))
  {
    EveryRunKeepsInv(w, es);
    var w' := Run(w, es);
    if i < |w'.log| { assert EntryOk(w', i); }
    if k < |w'.log| { assert EntryOk(w', k); }
  }

  ghost predicate CancelsOk(w: World) {
    forall c | c in w.cancels ::
      && (w.cancels[c].pc == Finished(true) && w.variant.HELPER? ==> w.conn.closed)
      && (w.cancels[c].pc.Closing? ==> w.variant.HELPER?)
  }

  /** A cancel that answers true on the Helper's connection has closed it: what the peer did is unknown. */
  lemma HelperCancelCloses(w: World, es: seq<Step>, c: Tid)
    requires Start(w) && w.variant.HELPER?
    ensures var w' := Run(w, es);
            c in w'.cancels && w'.cancels[c].pc == Finished(true) && w'.variant.HELPER? ==> w'.conn.closed
  {
    RunKeepsCancels(w, es);
  }

  lemma {:induction false} RunKeepsCancels(w: World, es: seq<Step>)
    requires CancelsOk(w)
    ensures CancelsOk(Run(w, es))
    decreases es
  {
    if es != [] {
      NextKeepsCancels(w, es[0]);
      hide Next, CancelsOk;
      RunKeepsCancels(Next(w, es[0]), es[1..]);
    }
  }

  lemma NextKeepsCancels(w: World, e: Step)
    requires CancelsOk(w)
    ensures CancelsOk(Next(w, e))
  {}

  /** What a cancel does at each of its blocks: it is refused unless its id is armed on an open connection; its
      message is written and only then does it answer true; a write that raises closes only for OSError. */
  lemma CancelExact(w: World, c: Tid, write: WriteResult)
    requires c in w.cancels
    ensures var x, w' := w.cancels[c], GoCancel(w, c, write);
            && c in w'.cancels
            && (x.pc.Asked? ==>
                  w'.wire == w.wire && w'.conn == w.conn
                  && w'.cancels[c].pc == if !w.conn.closed && w.conn.active == Some(x.id) then Cleared else Finished(false))
            && (x.pc.Cleared? ==>
                  && w'.wire == (if write.Whole? || write.sent then w.wire + [CancelRequest(x.id)] else w.wire)
                  && w'.conn.closed == (w.conn.closed || write.OsError?)
                  && (w'.cancels[c].pc.Raised? <==> !write.Whole?)
                  && (write.Whole? && w.variant.WORKER? ==> w'.cancels[c].pc == Finished(true)))
            && (x.pc.Closing? ==> w'.conn.closed && w'.cancels[c].pc == Finished(true))
  {}

  /** Nothing a peer answers is invented, repeated or forgotten: every written request is still on its
      way, was answered once, or was lost with its write or its handler. The session runs at most one
      handler. */
  lemma RequestsConserved(w: World, es: seq<Step>)
    requires Start(w)
    ensures var w' := Run(w, es);
            && Tally(w'.log, WRITTEN) == Pending(w') + Tally(w'.log, ANSWERED) + Tally(w'.log, LOST)
            && |w'.session.handlers| <= 1
  {
    EveryRunKeepsInv(w, es);
  }

  // ---- With unique request ids ----

  lemma {:induction false} TallyWitness(log: seq<Entry>, k: Kind, id: Rid) returns (i: nat)
    requires Tally(log, k)[id] >= 1
    ensures i < |log| && KindOf(log[i]) == k && IdOf(log[i]) == id
  {
    var last := |log| - 1;
    if KindOf(log[last]) == k && IdOf(log[last]) == id { return last; }
    i := TallyWitness(log[..last], k, id);
  }

  lemma {:induction false} TallyAtMostOnce(log: seq<Entry>, k: Kind, id: Rid)
    requires forall i, j | 0 <= i < j < |log| && KindOf(log[i]) == KindOf(log[j]) == k :: !(IdOf(log[i]) == IdOf(log[j]) == id)
    ensures Tally(log, k)[id] <= 1
  {
    if log != [] {
      var last := |log| - 1;
      var init := log[..last];
      assert forall i | 0 <= i < last :: init[i] == log[i];
      TallyAtMostOnce(init, k, id);
      assert Tally(log, k) == Tally(init, k) + if KindOf(log[last]) == k then multiset{IdOf(log[last])} else multiset{};
      hide Tally;
      if KindOf(log[last]) == k && IdOf(log[last]) == id && Tally(init, k)[id] >= 1 {
        var i := TallyWitness(init, k, id);
      }
    }
  }

  lemma NextKeepsIds(w: World, e: Step)
    ensures Next(w, e).threads.Keys == w.threads.Keys
    ensures forall t | t in w.threads :: Next(w, e).threads[t].id == w.threads[t].id
  {
    if e.Go? && e.t in w.threads { GoThreadEvolves(w, e.t, e.write, e.timedOut); }
    if e.CancelGo? && e.c in w.cancels { CancelFlow(w, e.c, e.write); }
    if e.Read? && w.wire != [] { ReadFlow(w, e.writeOk); }
    hide GoThread, GoCancel, ReadStep;
  }

  lemma {:induction false} RunKeepsIds(w: World, es: seq<Step>)
    ensures Run(w, es).threads.Keys == w.threads.Keys
    ensures forall t | t in w.threads :: Run(w, es).threads[t].id == w.threads[t].id
    decreases es
  {
    if es != [] {
      NextKeepsIds(w, es[0]);
      hide Next;
      RunKeepsIds(Next(w, es[0]), es[1..]);
    }
  }

  lemma WrittenOnce(w: World, id: Rid)
    requires Inv(w) && UniqueIds(w)
    ensures Tally(w.log, WRITTEN)[id] <= 1
  {
    hide Conserved, SessionOk, LockOk, ThreadOk;
    forall i, j | 0 <= i < j < |w.log| && KindOf(w.log[i]) == KindOf(w.log[j]) == WRITTEN
      ensures !(IdOf(w.log[i]) == IdOf(w.log[j]) == id)
    {
      assert EntryOk(w, i) && EntryOk(w, j);
    }
    TallyAtMostOnce(w.log, WRITTEN, id);
  }

  predicate GaveUp(pc: Pc) { pc == Done(TimedOut) || pc == Done(Disconnected) || pc == Done(WriteRaised) }

  /** Armed, and possibly written. */
  predicate Waits(pc: Pc) { pc.Await? || pc.Failing? || pc.Raising? }

  /** The one exchange behind a pending request is still waiting for it or gave it up. */
  lemma PendingOwner(w: World, id: Rid) returns (t: Tid)
    requires Inv(w) && UniqueIds(w) && Pending(w)[id] >= 1
    ensures t in w.threads && w.threads[t].id == id && (Waits(w.threads[t].pc) || GaveUp(w.threads[t].pc))
    ensures Pending(w)[id] == 1 && Tally(w.log, ANSWERED)[id] == 0
  {
    hide Pending, Tally, LockOk, SessionOk;
    WrittenOnce(w, id);
    var i := TallyWitness(w.log, WRITTEN, id);
    assert EntryOk(w, i);
    t := w.log[i].t;
    assert ThreadOk(w, t);
    var x := w.threads[t];
    if r: Reply :| r.id == id && DeliveredSince(w.log, x.armedAt, r) {
      var j :| x.armedAt <= j < |w.log| && w.log[j] == Delivered(r);
      TallyHas(w.log, j);
      assert false;
    }
  }

  /** A well-behaved peer's reply is rejected, and the connection dropped, only when the exchange that
      asked for it had already timed out, been disconnected or left because its write raised. */
  lemma RejectedIsLate(w: World, es: seq<Step>)
    requires Start(w) && UniqueIds(w)
    ensures var w' := Run(w, es);
            w'.replies != [] && !DeliverBlock(w'.conn, w'.replies[0]).1.Stored? ==>
              exists t :: t in w'.threads && w'.threads[t].id == w'.replies[0].id && GaveUp(w'.threads[t].pc)
  {
    var w' := Run(w, es);
    EveryRunKeepsInv(w, es);
    RunKeepsIds(w, es);
    if w'.replies != [] && !DeliverBlock(w'.conn, w'.replies[0]).1.Stored? {
      ReplyPop(w'.replies);
      var t := PendingOwner(w', w'.replies[0].id);
      assert ThreadOk(w', t);
    }
  }

  /** No reply comes before its request was written, and with unique ids the reply an exchange returns was
      delivered after this exchange's own write. */
  lemma RepliesFollowWrites(w: World, es: seq<Step>, j: nat, t: Tid)
    requires Start(w)
    ensures var w' := Run(w, es);
            && (j < |w'.log| && KindOf(w'.log[j]) == ANSWERED ==>
                  exists i :: 0 <= i < j && w'.log[i].Wrote? && w'.log[i].id == IdOf(w'.log[j]))
            && (UniqueIds(w) && t in w'.threads && ReplyOf(w'.threads[t].pc).Some? ==>
                  var r := ReplyOf(w'.threads[t].pc).value;
                  exists i, k :: 0 <= i < k < |w'.log| && w'.log[i] == Wrote(t, r.id) && w'.log[k] == Delivered(r))
  {
    var w' := Run(w, es);
    EveryRunKeepsInv(w, es);
    RunKeepsIds(w, es);
    hide Run, Tally, Pending, LockOk, SessionOk, Conserved, ThreadOk;
    if j < |w'.log| { assert EntryOk(w', j); }
    if UniqueIds(w) && t in w'.threads && ReplyOf(w'.threads[t].pc).Some? { OwnWriteFirst(w', t); }
  }

  lemma OwnWriteFirst(w: World, t: Tid)
    requires Inv(w) && UniqueIds(w) && t in w.threads && ReplyOf(w.threads[t].pc).Some?
    ensures var r := ReplyOf(w.threads[t].pc).value;
            exists i, k :: 0 <= i < k < |w.log| && w.log[i] == Wrote(t, r.id) && w.log[k] == Delivered(r)
  {
    hide Tally, Pending, LockOk, SessionOk, Conserved;
    var r := ReplyOf(w.threads[t].pc).value;
    assert ThreadOk(w, t);
    var k :| w.threads[t].armedAt <= k < |w.log| && w.log[k] == Delivered(r);
    hide ThreadOk;
    assert EntryOk(w, k);
    var i :| 0 <= i < k && w.log[i].Wrote? && w.log[i].id == r.id;
    assert EntryOk(w, i);
    assert w.log[i] == Wrote(t, r.id);
  }

  /** Each request is answered at most once. */
  lemma AnsweredOnce(w: World, es: seq<Step>, i: nat, j: nat)
    requires Start(w) && UniqueIds(w)
    ensures var log := Run(w, es).log;
            i < j < |log| && KindOf(log[i]) == KindOf(log[j]) == ANSWERED ==> IdOf(log[i]) != IdOf(log[j])
  {
    var w' := Run(w, es);
    EveryRunKeepsInv(w, es);
    RunKeepsIds(w, es);
    if i < j < |w'.log| && KindOf(w'.log[i]) == KindOf(w'.log[j]) == ANSWERED && IdOf(w'.log[i]) == IdOf(w'.log[j]) {
      TallyTwo(w'.log, i, j);
      WrittenOnce(w', IdOf(w'.log[i]));
      hide Tally, Pending;
      assert false;
    }
  }

  /** The session answers busy only while its handler has answered but not ended yet, or when the running
      or the refused request was given up by its exchange. */
  lemma BusyMeansTaken(w: World, es: seq<Step>)
    requires Start(w) && UniqueIds(w)
    ensures var w' := Run(w, es);
            w'.wire != [] && w'.wire[0].Request? && w'.session.active.Some? ==>
              && |w'.session.handlers| == 1
              && (w'.session.handlers[0].answered
                  || exists t :: t in w'.threads && GaveUp(w'.threads[t].pc)
                         && w'.threads[t].id in {w'.wire[0].id, w'.session.handlers[0].id})
  {
    var w' := Run(w, es);
    EveryRunKeepsInv(w, es);
    RunKeepsIds(w, es);
    if w'.wire != [] && w'.wire[0].Request? && w'.session.active.Some? && !w'.session.handlers[0].answered {
      var x, y := w'.wire[0].id, w'.session.handlers[0].id;
      WirePop(w'.wire);
      hide WireIds, ReplyIds;
      var t := PendingOwner(w', x);
      var u := PendingOwner(w', y);
      assert ThreadOk(w', t) && ThreadOk(w', u);
    }
  }

  // ---- What fails ----

  function Call(id: Rid): Exchange { Exchange(id, Enter, false, 0) }

  function TwoCalls(v: Variant, id1: Rid, id2: Rid): World {
    World(v, Conn(false, None, None), None, map[1 := Call(id1), 2 := Call(id2)], map[], true, [], Session(None, []), [], [])
  }

  const GO1: Step := Go(1, Whole, false)
  const GO2: Step := Go(2, Whole, false)

  lemma RunPush(w: World, es: seq<Step>, e: Step)
    ensures Run(w, es + [e]) == Next(Run(w, es), e)
    decreases es
  {
    if es == [] {
      assert [e][1..] == [];
    } else {
      assert (es + [e])[1..] == es[1..] + [e];
      hide Next;
      RunPush(Next(w, es[0]), es[1..], e);
    }
  }

  /** From its first look at the abandon flag to the written request. */
  lemma CallWrites(w0: World, before: seq<Step>, t: Tid) returns (es: seq<Step>)
    requires var w := Run(w0, before);
             t in w.threads && w.threads[t] == Call(w.threads[t].id) && w.lock.None? && !w.conn.closed
    ensures var w := Run(w0, before);
            var x := w.threads[t];
            Run(w0, es)
            == w.(conn := Conn(false, Some(x.id), None), lock := Some(t),
                  threads := w.threads[t := x.(pc := Await, armedAt := |w.log|)],
                  wire := w.wire + [Request(x.id)], log := w.log + [ArmedBy(t)] + [Wrote(t, x.id)])
  {
    var g := Go(t, Whole, false);
    var w := Run(w0, before);
    var x := w.threads[t];
    var w1 := Next(w, g);
    assert w1.threads[t] == x.(pc := Wait);
    var w2 := Next(w1, g);
    assert w2.threads[t] == x.(pc := Held) && w2.lock == Some(t);
    var w3 := Next(w2, g);
    assert w3.threads[t] == x.(pc := Armed, armedAt := |w.log|);
    var w4 := Next(w3, g);
    assert w4.threads[t] == x.(pc := Writing, armedAt := |w.log|);
    var w5 := Next(w4, g);
    assert w5.threads == w.threads[t := x.(pc := Await, armedAt := |w.log|)];
    hide Run, Next;
    RunPush(w0, before, g);
    RunPush(w0, before + [g], g);
    RunPush(w0, before + [g] + [g], g);
    RunPush(w0, before + [g] + [g] + [g], g);
    RunPush(w0, before + [g] + [g] + [g] + [g], g);
    es := before + [g] + [g] + [g] + [g] + [g];
  }

  lemma CallRaises(w: World, t: Tid)
    requires t in w.threads && w.threads[t] == Call(w.threads[t].id) && w.lock.None? && !w.conn.closed
    ensures var x, g := w.threads[t], Go(t, Whole, false);
            Next(Next(Next(Next(Next(Next(w, g), g), g), g), Go(t, OtherError(false), false)), g)
            == w.(conn := Conn(false, Some(x.id), None), lock := None,
                  threads := w.threads[t := x.(pc := Done(WriteRaised), armedAt := |w.log|)],
                  log := w.log + [ArmedBy(t)] + [RaisedBy(t)])
  {
    var x, g := w.threads[t], Go(t, Whole, false);
    var w2 := Next(Next(w, g), g);
    assert w2 == w.(lock := Some(t), threads := w.threads[t := x.(pc := Held)]);
    var w4 := Next(Next(w2, g), g);
    assert w4 == w.(conn := Conn(false, Some(x.id), None), lock := Some(t),
                    threads := w.threads[t := x.(pc := Writing, armedAt := |w.log|)], log := w.log + [ArmedBy(t)]);
    var w5 := Next(w4, Go(t, OtherError(false), false));
    assert w5 == w4.(threads := w.threads[t := x.(pc := Raising, armedAt := |w.log|)]);
    var w6 := Next(w5, g);
    assert w6.threads == w.threads[t := x.(pc := Done(WriteRaised), armedAt := |w.log|)];
  }

  /** A write that raises anything but OSError leaves its id armed on an open connection: a cancel for the
      dead exchange is still let through, and the next exchange can start. */
  lemma RaisedWriteStaysArmed(v: Variant) returns (es: seq<Step>)
    ensures var w := Run(TwoCalls(v, 10, 20), es);
            && w.conn == Conn(false, Some(10), None) && w.lock.None? && MayCancel(w.conn, 10)
            && w.threads.Keys == {1, 2} && w.threads[1].pc == Done(WriteRaised) && w.threads[2] == Call(20)
            && w.log == [ArmedBy(1), RaisedBy(1)] && w.wire == []
  {
    var w0 := TwoCalls(v, 10, 20);
    CallRaises(w0, 1);
    assert Run(w0, []) == w0;
    hide Run, Next;
    es := Then(w0, [], GO1);
    es := Then(w0, es, GO1);
    es := Then(w0, es, GO1);
    es := Then(w0, es, GO1);
    es := Then(w0, es, Go(1, OtherError(false), false));
    es := Then(w0, es, GO1);
  }

  /** A waiting exchange whose request reaches an idle session gets its answer; the slot stays taken. */
  lemma CallAnswered(w: World, t: Tid, body: nat)
    requires t in w.threads && w.threads[t].pc.Await? && w.lock == Some(t) && w.conn == Conn(false, Some(w.threads[t].id), None)
    requires w.wire == [Request(w.threads[t].id)] && w.session == Session(None, []) && w.replies == [] && w.reading
    ensures var x := w.threads[t];
            var r := Reply(x.id, false, body);
            Next(Next(Next(Next(w, Read(true)), Answer(0, false, true, body)), Deliver), Go(t, Whole, false))
            == w.(conn := Conn(false, None, None), lock := None, threads := w.threads[t := x.(pc := Done(Returned(r)))],
                  wire := [], session := Session(Some(x.id), [Handler(x.id, true)]), log := w.log + [Delivered(r)])
  {
    var x := w.threads[t];
    var w1 := Next(w, Read(true));
    assert w1 == w.(wire := [], session := Session(Some(x.id), [Handler(x.id, false)]));
    var w2 := Next(w1, Answer(0, false, true, body));
    var r := Reply(x.id, false, body);
    assert w2 == w.(wire := [], session := Session(Some(x.id), [Handler(x.id, true)]), replies := [r]);
    var w3 := Next(w2, Deliver);
    assert w3 == w2.(conn := Conn(false, Some(x.id), Some(r)), replies := [], log := w.log + [Delivered(r)]);
  }

  lemma CallRefused(w: World, t: Tid)
    requires t in w.threads && w.threads[t].pc.Await? && w.lock == Some(t) && w.conn == Conn(false, Some(w.threads[t].id), None)
    requires w.wire == [Request(w.threads[t].id)] && w.session.active.Some? && w.replies == [] && w.reading
    ensures var x := w.threads[t];
            var r := Reply(x.id, true, 0);
            Next(Next(Next(w, Read(true)), Deliver), Go(t, Whole, false))
            == w.(conn := Conn(false, None, None), lock := None, threads := w.threads[t := x.(pc := Done(Returned(r)))],
                  wire := [], log := w.log + [Delivered(r)])
  {
    var x := w.threads[t];
    var r := Reply(x.id, true, 0);
    var w1 := Next(w, Read(true));
    assert w1 == w.(wire := [], replies := [r]);
    var w2 := Next(w1, Deliver);
    assert w2 == w.(wire := [], conn := Conn(false, Some(x.id), Some(r)), log := w.log + [Delivered(r)]);
  }

  /** A request sent as soon as the previous one was answered can still be refused as busy: the session
      frees its slot only after it wrote the reply. Nobody timed out. */
  lemma BusyAfterAnswer() returns (es: seq<Step>)
    ensures var w := Run(TwoCalls(WORKER, 10, 20), es);
            && w.threads.Keys == {1, 2}
            && w.threads[1].pc == Done(Returned(Reply(10, false, 1)))
            && w.threads[2].pc == Done(Returned(Reply(20, true, 0)))
  {
    var w0 := TwoCalls(WORKER, 10, 20);
    es := CallWrites(w0, [], 1);
    hide Run, Next;
    CallAnswered(Run(w0, es), 1, 1);
    es := Then(w0, es, Read(true));
    es := Then(w0, es, Answer(0, false, true, 1));
    es := Then(w0, es, Deliver);
    es := Then(w0, es, GO1);
    es := CallWrites(w0, es, 2);
    CallRefused(Run(w0, es), 2);
    es := Then(w0, es, Read(true));
    es := Then(w0, es, Deliver);
    es := Then(w0, es, GO2);
  }

  lemma CallTimesOut(w: World, t: Tid)
    requires t in w.threads && w.threads[t].pc.Await? && w.lock == Some(t) && w.conn == Conn(false, Some(w.threads[t].id), None)
    requires w.wire == [Request(w.threads[t].id)] && w.session == Session(None, [])
    ensures var x := w.threads[t];
            Next(Next(w, Read(true)), Go(t, Whole, true))
            == w.(conn := Conn(false, None, None), lock := None, threads := w.threads[t := x.(pc := Done(TimedOut))],
                  wire := [], session := Session(Some(x.id), [Handler(x.id, false)]))
  {
    var x := w.threads[t];
    var w1 := Next(w, Read(true));
    assert w1 == w.(wire := [], session := Session(Some(x.id), [Handler(x.id, false)]));
  }

  lemma LateAnswerTaken(w: World, t: Tid, body: nat)
    requires t in w.threads && w.threads[t].pc.Await? && w.lock == Some(t) && w.conn == Conn(false, Some(w.threads[t].id), None)
    requires w.session == Session(Some(w.threads[t].id), [Handler(w.threads[t].id, false)]) && w.replies == [] && w.reading
    ensures var x := w.threads[t];
            var r := Reply(x.id, false, body);
            Next(Next(Next(w, Answer(0, false, true, body)), Deliver), Go(t, Whole, false))
            == w.(conn := Conn(false, None, None), lock := None, threads := w.threads[t := x.(pc := Done(Returned(r)))],
                  session := Session(Some(x.id), [Handler(x.id, true)]), log := w.log + [Delivered(r)])
  {
    var x := w.threads[t];
    var r := Reply(x.id, false, body);
    var w1 := Next(w, Answer(0, false, true, body));
    assert w1 == w.(session := Session(Some(x.id), [Handler(x.id, true)]), replies := [r]);
    var w2 := Next(w1, Deliver);
    assert w2 == w1.(conn := Conn(false, Some(x.id), Some(r)), replies := [], log := w.log + [Delivered(r)]);
  }

  /** Uniqueness is needed: after a time-out, a second exchange with the same request id returns the reply
      to the first, before the peer has even read its own request. */
  lemma ReusedIdTakesLateReply(v: Variant) returns (es: seq<Step>)
    ensures var w := Run(TwoCalls(v, 10, 10), es);
            && w.threads.Keys == {1, 2}
            && w.threads[1].pc == Done(TimedOut)
            && w.threads[2].pc == Done(Returned(Reply(10, false, 1)))
            && w.wire == [Request(10)] && w.session.handlers == [Handler(10, true)]
  {
    var w0 := TwoCalls(v, 10, 10);
    es := CallWrites(w0, [], 1);
    hide Run, Next;
    CallTimesOut(Run(w0, es), 1);
    es := Then(w0, es, Read(true));
    es := Then(w0, es, Go(1, Whole, true));
    es := CallWrites(w0, es, 2);
    LateAnswerTaken(Run(w0, es), 2, 1);
    es := Then(w0, es, Answer(0, false, true, 1));
    es := Then(w0, es, Deliver);
    es := Then(w0, es, GO2);
  }

  lemma Then(w: World, es: seq<Step>, e: Step) returns (all: seq<Step>)
    ensures Run(w, all) == Next(Run(w, es), e)
  {
    RunPush(w, es, e);
    all := es + [e];
  }
}
