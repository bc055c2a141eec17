/** The registry of the one live Worker or Helper connection: generations, connection epochs, heartbeats,
    expiry, and an ACL probe that runs outside the lock. */
module PeerRegistry {
  import opened Wrappers

  type Time = int
  type Epoch = nat
  type Client = nat
  type Tid = nat

  datatype Kind = WORKER | HELPER

  datatype Registration = Registration(registrationId: nat, generation: int, sessionId: nat, username: string)
  datatype Heartbeat = Heartbeat(registrationId: nat, sequence: int, sessionId: nat, username: string)

  datatype Connection = Connection(
    epoch: Epoch, registration: Registration, client: Client, heartbeatAt: Time, sequence: int, hasProbe: bool)

  datatype Registry = Registry(connection: Option<Connection>, nextEpoch: Epoch)

  const EMPTY: Registry := Registry(None, 1)

  // ---- Lock-held blocks ----

  /** `accept_registration`; false is RegistrationConflictError. */
  predicate Accepts(current: Option<Connection>, candidate: Registration) {
    current.Some? ==> candidate.generation > current.value.registration.generation
  }

  function RegisterBlock(r: Registry, reg: Registration, client: Client, hasProbe: bool, now: Time): (Registry, bool) {
    if !Accepts(r.connection, reg) then (r, false)
    else (Registry(Some(Connection(r.nextEpoch, reg, client, now, -1, hasProbe)), r.nextEpoch + 1), true)
  }

  /** A Helper heartbeat carries no session or user. */
  predicate Matches(kind: Kind, h: Heartbeat, reg: Registration) {
    && h.registrationId == reg.registrationId
    && (kind.WORKER? ==> h.sessionId == reg.sessionId && h.username == reg.username)
  }

  /** False is StaleHeartbeatError. */
  function HeartbeatBlock(kind: Kind, r: Registry, h: Heartbeat, now: Time): (Registry, bool) {
    if r.connection.None? then (r, false)
    else
      var c := r.connection.value;
      if !Matches(kind, h, c.registration) || h.sequence <= c.sequence then (r, false)
      else (r.(connection := Some(c.(heartbeatAt := now, sequence := h.sequence))), true)
  }

  predicate ExpiredAt(c: Connection, now: Time, offlineAfter: int) { now - c.heartbeatAt >= offlineAfter }

  /** `_current_connection_locked`: drops an expired connection. */
  function CurrentBlock(r: Registry, now: Time, offlineAfter: int): (Registry, Option<Connection>) {
    if r.connection.Some? && ExpiredAt(r.connection.value, now, offlineAfter) then (r.(connection := None), None)
    else (r, r.connection)
  }

  function DisconnectBlock(r: Registry, client: Client): Registry {
    if r.connection.Some? && r.connection.value.client == client then r.(connection := None) else r
  }

  datatype ProbeStart = Offline | Unverified | Probe(connection: Connection)

  function ProbeBegin(r: Registry, now: Time, offlineAfter: int): (Registry, ProbeStart) {
    var (r', c) := CurrentBlock(r, now, offlineAfter);
    (r', if c.None? then Offline else if !c.value.hasProbe then Unverified else Probe(c.value))
  }

  /** False: the probe's result is thrown away and "offline" reported. */
  function ProbeEnd(r: Registry, probed: Connection, now: Time, offlineAfter: int): (Registry, bool) {
    var (r', c) := CurrentBlock(r, now, offlineAfter);
    (r', c.Some? && c.value.epoch == probed.epoch && c.value.client == probed.client)
  }

  class PeerRegistryState {
    const kind: Kind
    const offlineAfter: int
    var connection: Option<Connection>
    var nextEpoch: Epoch

    function View(): Registry reads this { Registry(connection, nextEpoch) }

    constructor (kind: Kind, offlineAfter: int)
      ensures this.kind == kind && this.offlineAfter == offlineAfter && View() == EMPTY
    {
      this.kind, this.offlineAfter := kind, offlineAfter;
      connection, nextEpoch := None, 1;
    }

    method Register(reg: Registration, client: Client, hasProbe: bool, now: Time) returns (accepted: bool)
      modifies this
      ensures (View(), accepted) == RegisterBlock(old(View()), reg, client, hasProbe, now)
    {
      if connection != None && reg.generation <= connection.value.registration.generation { return false; }
      connection := Some(Connection(nextEpoch, reg, client, now, -1, hasProbe));
      nextEpoch := nextEpoch + 1;
      return true;
    }

    method Beat(h: Heartbeat, now: Time) returns (accepted: bool)
      modifies this
      ensures (View(), accepted) == HeartbeatBlock(kind, old(View()), h, now)
    {
      if connection == None { return false; }
      var c := connection.value;
      if !Matches(kind, h, c.registration) || h.sequence <= c.sequence { return false; }
      connection := Some(Connection(c.epoch, c.registration, c.client, now, h.sequence, c.hasProbe));
      return true;
    }

    method Current(now: Time) returns (c: Option<Connection>)
      modifies this
      ensures (View(), c) == CurrentBlock(old(View()), now, offlineAfter)
    {
      if connection == None { return None; }
      if now - connection.value.heartbeatAt >= offlineAfter {
        connection := None;
        return None;
      }
      return connection;
    }

    method Disconnect(client: Client)
      modifies this
      ensures View() == DisconnectBlock(old(View()), client)
    {
      if connection != None && connection.value.client == client { connection := None; }
    }

    method BeginProbe(now: Time) returns (p: ProbeStart)
      modifies this
      ensures (View(), p) == ProbeBegin(old(View()), now, offlineAfter)
    {
      var c := Current(now);
      if c == None { return Offline; }
      if !c.value.hasProbe { return Unverified; }
      return Probe(c.value);
    }

    method EndProbe(probed: Connection, now: Time) returns (kept: bool)
      modifies this
      ensures (View(), kept) == ProbeEnd(old(View()), probed, now, offlineAfter)
    {
      var c := Current(now);
      return c != None && c.value.epoch == probed.epoch && c.value.client == probed.client;
    }
  }

  // ---- Any number of threads ----

  datatype ProbePc =
    | Idle
    | Probing(connection: Connection, since: nat)
    | Told(connection: Connection, since: nat, until: nat)   // returned the probe's own result
    | ToldOffline | ToldUnverified

  datatype Event =
    | Register(registration: Registration, client: Client, hasProbe: bool, now: Time)
    | Beat(heartbeat: Heartbeat, now: Time)
    | Look(now: Time)
    | Disconnect(client: Client)
    | Probe1(t: Tid, now: Time)
    | Probe2(t: Tid, now: Time)

  /** `history[k]` is the registered connection after the k-th event. */
  datatype World = World(
    kind: Kind, offlineAfter: int, registry: Registry, probes: map<Tid, ProbePc>, history: seq<Option<Connection>>)

  function Start(kind: Kind, offlineAfter: int): World { World(kind, offlineAfter, EMPTY, map[], [None]) }

  function PcOf(w: World, t: Tid): ProbePc { if t in w.probes then w.probes[t] else Idle }

  function After(w: World, r: Registry): World { w.(registry := r, history := w.history + [r.connection]) }

  function Next(w: World, e: Event): World {
    match e
    case Register(reg, client, hasProbe, now) => After(w, RegisterBlock(w.registry, reg, client, hasProbe, now).0)
    case Beat(h, now) => After(w, HeartbeatBlock(w.kind, w.registry, h, now).0)
    case Look(now) => After(w, CurrentBlock(w.registry, now, w.offlineAfter).0)
    case Disconnect(client) => After(w, DisconnectBlock(w.registry, client))
    case Probe1(t, now) =>
      if !PcOf(w, t).Idle? then w
      else
        var (r, p) := ProbeBegin(w.registry, now, w.offlineAfter);
        After(w, r).(probes := w.probes[t := match p
                                             case Offline => ToldOffline
                                             case Unverified => ToldUnverified
                                             case Probe(c) => Probing(c, |w.history|)])
    case Probe2(t, now) =>
      if !PcOf(w, t).Probing? then w
      else
        var pc := PcOf(w, t);
        var (r, kept) := ProbeEnd(w.registry, pc.connection, now, w.offlineAfter);
        After(w, r).(probes := w.probes[t := if kept then Told(pc.connection, pc.since, |w.history|) else ToldOffline])
  }

  function Run(w: World, es: seq<Event>): World
    decreases es
  {
    if es == [] then w else Run(Next(w, es[0]), es[1..])
  }

  // ---- The invariant ----

  /** One connection seen twice: only heartbeats came between. */
  predicate Same(a: Connection, b: Connection) {
    && b.epoch == a.epoch && b.registration == a.registration && b.client == a.client && b.hasProbe == a.hasProbe
    && (b == a || b.sequence > a.sequence)
  }

  /** How the registered connection may change. */
  ghost predicate Adjacent(h: seq<Option<Connection>>, k: nat)
    requires k + 1 < |h|
  {
    || h[k + 1].None?
    || (h[k].Some? && Same(h[k].value, h[k + 1].value))
    || ((forall m | 0 <= m <= k && h[m].Some? :: h[m].value.epoch < h[k + 1].value.epoch)
        && Accepts(h[k], h[k + 1].value.registration))
  }

  ghost predicate ProbeOk(w: World, t: Tid)
    requires t in w.probes
  {
    match w.probes[t]
    case Probing(c, since) => since < |w.history| && w.history[since] == Some(c)
    case Told(c, since, until) =>
      && since <= until < |w.history| && w.history[since] == Some(c)
      && w.history[until].Some? && w.history[until].value.epoch == c.epoch
    case _ => true
  }

  ghost predicate Inv(w: World) {
    && |w.history| > 0 && w.history[|w.history| - 1] == w.registry.connection
    && (forall k | 0 <= k < |w.history| && w.history[k].Some? :: w.history[k].value.epoch < w.registry.nextEpoch)
    && (forall k | 0 <= k < |w.history| - 1 :: Adjacent(w.history, k))
    && (forall t | t in w.probes :: ProbeOk(w, t))
  }

  lemma AfterKeeps(w: World, r: Registry)
    requires Inv(w) && r.nextEpoch >= w.registry.nextEpoch
    requires r.connection.Some? ==>
               || (w.registry.connection.Some? && Same(w.registry.connection.value, r.connection.value))
               || (r.connection.value.epoch == w.registry.nextEpoch < r.nextEpoch
                   && Accepts(w.registry.connection, r.connection.value.registration))
    ensures Inv(After(w, r))
  {
    var w' := After(w, r);
    forall k | 0 <= k < |w'.history| - 1 ensures Adjacent(w'.history, k) {
      if k < |w.history| - 1 { assert Adjacent(w.history, k); }
    }
    forall t | t in w'.probes ensures ProbeOk(w', t) { assert ProbeOk(w, t); }
  }

  lemma NextKeepsInv(w: World, e: Event)
    requires Inv(w)
    ensures Inv(Next(w, e))
  {
    var w' := Next(w, e);
    if w' != w {
      AfterKeeps(w, w'.registry);
      hide Adjacent;
      forall t | t in w'.probes ensures ProbeOk(w', t) {
        if t in w.probes { assert ProbeOk(w, t); assert ProbeOk(After(w, w'.registry), t); }
      }
    }
  }

  lemma {:induction false} RunKeepsInv(w: World, es: seq<Event>)
    requires Inv(w)
    ensures Inv(Run(w, es))
    decreases es
  {
    if es != [] {
      NextKeepsInv(w, es[0]);
      RunKeepsInv(Next(w, es[0]), es[1..]);
    }
  }

  lemma {:induction false} IntervalsOf(h: seq<Option<Connection>>, i: nat, k: nat, j: nat)
    requires i <= k <= j < |h| && h[i].Some? && h[j].Some? && h[i].value.epoch == h[j].value.epoch
    requires forall m | 0 <= m < |h| - 1 :: Adjacent(h, m)
    ensures h[k].Some? && Same(h[i].value, h[k].value) && Same(h[k].value, h[j].value)
    decreases j
  {
    if i < j {
      assert Adjacent(h, j - 1);
      IntervalsOf(h, i, if k < j then k else j - 1, j - 1);
    }
  }

  // ---- Safety over every run ----

  /** An epoch that was registered at two moments of a run was registered at every moment between, for one
      client and one registration, with only heartbeats in between. */
  lemma EpochsAreIntervals(kind: Kind, offlineAfter: int, es: seq<Event>, i: nat, k: nat, j: nat)
    ensures var h := Run(Start(kind, offlineAfter), es).history;
            i <= k <= j < |h| && h[i].Some? && h[j].Some? && h[i].value.epoch == h[j].value.epoch ==>
              h[k].Some? && Same(h[i].value, h[k].value) && Same(h[k].value, h[j].value)
  {
    RunKeepsInv(Start(kind, offlineAfter), es);
    var h := Run(Start(kind, offlineAfter), es).history;
    if i <= k <= j < |h| && h[i].Some? && h[j].Some? && h[i].value.epoch == h[j].value.epoch { IntervalsOf(h, i, k, j); }
  }

  /** `pipe_acl_state` returns a probe's result only if the probed connection was the registered one at
      every moment from before the probe until after it. */
  lemma ProbedConnectionStayed(kind: Kind, offlineAfter: int, es: seq<Event>, t: Tid, k: nat)
    ensures var w := Run(Start(kind, offlineAfter), es);
            t in w.probes && w.probes[t].Told? ==>
              var c := w.probes[t].connection;
              && w.probes[t].until < |w.history|
              && (w.probes[t].since <= k <= w.probes[t].until ==>
                    && w.history[k].Some? && w.history[k].value.epoch == c.epoch
                    && w.history[k].value.client == c.client && w.history[k].value.registration == c.registration)
  {
    RunKeepsInv(Start(kind, offlineAfter), es);
    var w := Run(Start(kind, offlineAfter), es);
    if t in w.probes && w.probes[t].Told? {
      assert ProbeOk(w, t);
      if w.probes[t].since <= k <= w.probes[t].until {
        IntervalsOf(w.history, w.probes[t].since, k, w.probes[t].until);
      }
    }
  }

  /** Epochs are never reused, and within one epoch a changed connection means a higher heartbeat sequence. */
  lemma EpochsNeverReused(kind: Kind, offlineAfter: int, es: seq<Event>, i: nat, j: nat)
    ensures var h := Run(Start(kind, offlineAfter), es).history;
            i <= j < |h| && h[i].Some? && h[j].Some? ==>
              && h[i].value.epoch <= h[j].value.epoch
              && (h[i].value.epoch == h[j].value.epoch ==>
                    && h[i].value.client == h[j].value.client && h[i].value.registration == h[j].value.registration
                    && (h[i].value == h[j].value || h[i].value.sequence < h[j].value.sequence))
  {
    RunKeepsInv(Start(kind, offlineAfter), es);
    var h := Run(Start(kind, offlineAfter), es).history;
    if i <= j < |h| && h[i].Some? && h[j].Some? {
      if h[i].value.epoch == h[j].value.epoch { IntervalsOf(h, i, j, j); }
      EpochsGrow(h, i, j);
    }
  }

  lemma {:induction false} EpochsGrow(h: seq<Option<Connection>>, i: nat, j: nat)
    requires i <= j < |h| && h[i].Some? && h[j].Some?
    requires forall m | 0 <= m < |h| - 1 :: Adjacent(h, m)
    ensures h[i].value.epoch <= h[j].value.epoch
    decreases j
  {
    if i < j {
      assert Adjacent(h, j - 1);
      if h[j - 1].Some? { EpochsGrow(h, i, j - 1); }
    }
  }

  /** A registered connection leaves only by its own client's disconnect, by expiry seen by a reader, or
      for a strictly newer generation; disconnecting any other client leaves it as it is. */
  lemma LeavesOnlyLikeThis(w: World, e: Event)
    requires w.registry.connection.Some?
    ensures var c := w.registry.connection.value;
            var after := Next(w, e).registry.connection;
            || (after.Some? && Same(c, after.value) && (after.value != c ==> e.Beat? && Matches(w.kind, e.heartbeat, c.registration)))
            || (after.Some? && e.Register? && after.value.registration.generation > c.registration.generation)
            || (after.None? && e == Disconnect(c.client))
            || (after.None? && (e.Look? || e.Probe1? || e.Probe2?) && ExpiredAt(c, e.now, w.offlineAfter))
  {}

  /** What each event makes of the registered connection, in full: a registration is accepted if and only if there
      is no connection or its generation is higher; a heartbeat if and only if there is one, its registration is
      the one named, for a Worker with the same session and user, and its sequence is higher; a reader sees the
      connection if and only if its last sign of life is less than the limit ago, and drops it otherwise. */
  lemma RegistryExact(w: World, e: Event)
    ensures var was, after := w.registry.connection, Next(w, e).registry.connection;
            match e
            case Register(reg, client, hasProbe, now) =>
              after == if was.None? || reg.generation > was.value.registration.generation
                       then Some(Connection(w.registry.nextEpoch, reg, client, now, -1, hasProbe)) else was
            case Beat(h, now) =>
              after == if was.Some? && h.registrationId == was.value.registration.registrationId
                          && (w.kind.WORKER? ==> h.sessionId == was.value.registration.sessionId
                                                 && h.username == was.value.registration.username)
                          && h.sequence > was.value.sequence
                       then Some(was.value.(heartbeatAt := now, sequence := h.sequence)) else was
            case Disconnect(client) => after == if was.Some? && was.value.client == client then None else was
            case Look(now) =>
              after == CurrentBlock(w.registry, now, w.offlineAfter).1
              && after == if was.Some? && now - was.value.heartbeatAt < w.offlineAfter then was else None
            case Probe1(t, now) =>
              PcOf(w, t).Idle? ==>
                && after == (if was.Some? && now - was.value.heartbeatAt < w.offlineAfter then was else None)
                && PcOf(Next(w, e), t) == (if after.None? then ToldOffline
                                           else if !after.value.hasProbe then ToldUnverified else Probing(after.value, |w.history|))
            case Probe2(t, now) =>
              PcOf(w, t).Probing? ==>
                && after == (if was.Some? && now - was.value.heartbeatAt < w.offlineAfter then was else None)
                && var pc := PcOf(w, t);
                   PcOf(Next(w, e), t) == if after.Some? && after.value.epoch == pc.connection.epoch && after.value.client == pc.connection.client
                                          then Told(pc.connection, pc.since, |w.history|) else ToldOffline
  {}

  /** For a running probe the client test is implied by the epoch: the result is told if and only if the probed
      connection is still registered and has not expired. */
  lemma ProbeToldIff(kind: Kind, offlineAfter: int, es: seq<Event>, t: Tid, now: Time)
    ensures var w := Run(Start(kind, offlineAfter), es);
            PcOf(w, t).Probing? ==>
              var was := w.registry.connection;
              PcOf(Next(w, Probe2(t, now)), t).Told? <==>
                was.Some? && was.value.epoch == PcOf(w, t).connection.epoch && now - was.value.heartbeatAt < offlineAfter
  {
    RunKeepsInv(Start(kind, offlineAfter), es);
    RunKeepsConfig(Start(kind, offlineAfter), es);
    var w := Run(Start(kind, offlineAfter), es);
    hide Run;
    if PcOf(w, t).Probing? && w.registry.connection.Some? {
      assert ProbeOk(w, t);
      var pc := PcOf(w, t);
      if w.registry.connection.value.epoch == pc.connection.epoch {
        IntervalsOf(w.history, pc.since, |w.history| - 1, |w.history| - 1);
      }
    }
  }

  lemma {:induction false} RunKeepsConfig(w: World, es: seq<Event>)
    ensures Run(w, es).kind == w.kind && Run(w, es).offlineAfter == w.offlineAfter
    decreases es
  {
    if es != [] { RunKeepsConfig(Next(w, es[0]), es[1..]); }
  }

  // ---- What fails ----

  /** The event reads the connection, and would drop an expired one. */
  predicate Reads(w: World, e: Event) {
    e.Look? || (e.Probe1? && PcOf(w, e.t).Idle?) || (e.Probe2? && PcOf(w, e.t).Probing?)
  }

  /** Events that neither replace the connection nor refresh it. */
  predicate Bystander(kind: Kind, c: Connection, e: Event) {
    match e
    case Look(_) => true
    case Probe1(_, _) => true
    case Probe2(_, _) => true
    case Disconnect(client) => client != c.client
    case Beat(h, _) => !Matches(kind, h, c.registration) || h.sequence <= c.sequence
    case Register(_, _, _, _) => false
  }

  /** Somebody reads the connection at a moment when it has expired. */
  predicate ExpiryNoticed(w: World, c: Connection, es: seq<Event>)
    decreases es
  {
    es != [] && ((Reads(w, es[0]) && ExpiredAt(c, es[0].now, w.offlineAfter)) || ExpiryNoticed(Next(w, es[0]), c, es[1..]))
  }

  /** Expiry is noticed only by readers: whatever else happens in between and however late it comes, the
      next matching heartbeat is accepted if and only if nobody read the connection while it was expired. */
  lemma {:induction false} LateHeartbeat(w: World, es: seq<Event>, c: Connection, h: Heartbeat, late: Time)
    requires w.registry.connection == Some(c) && forall i | 0 <= i < |es| :: Bystander(w.kind, c, es[i])
    requires Matches(w.kind, h, c.registration) && h.sequence > c.sequence
    ensures HeartbeatBlock(w.kind, Run(w, es).registry, h, late).1 <==> !ExpiryNoticed(w, c, es)
    ensures Run(w, es).registry.connection == if ExpiryNoticed(w, c, es) then None else Some(c)
    decreases es
  {
    if es != [] {
      var w1 := Next(w, es[0]);
      assert Bystander(w.kind, c, es[0]);
      NextBystander(w, c, es[0]);
      hide Next;
      forall i | 0 <= i < |es[1..]| ensures Bystander(w1.kind, c, es[1..][i]) { assert es[1..][i] == es[i + 1]; }
      if w1.registry.connection.None? { StaysEmpty(w1, c, es[1..]); } else { LateHeartbeat(w1, es[1..], c, h, late); }
    }
  }

  lemma NextBystander(w: World, c: Connection, e: Event)
    requires w.registry.connection == Some(c) && Bystander(w.kind, c, e)
    ensures Next(w, e).kind == w.kind
    ensures Next(w, e).registry.connection == if Reads(w, e) && ExpiredAt(c, e.now, w.offlineAfter) then None else Some(c)
  {}

  lemma {:induction false} StaysEmpty(w: World, c: Connection, es: seq<Event>)
    requires w.registry.connection.None? && forall i | 0 <= i < |es| :: Bystander(w.kind, c, es[i])
    ensures Run(w, es).registry.connection.None?
    decreases es
  {
    if es != [] {
      assert Bystander(w.kind, c, es[0]);
      var w1 := Next(w, es[0]);
      assert w1.registry.connection.None? && w1.kind == w.kind;
      hide Next;
      forall i | 0 <= i < |es[1..]| ensures Bystander(w1.kind, c, es[1..][i]) { assert es[1..][i] == es[i + 1]; }
      StaysEmpty(w1, c, es[1..]);
    }
  }

  /** Both can happen to one heartbeat, long after the deadline. */
  lemma LateHeartbeatRuns(kind: Kind, offlineAfter: int, reg: Registration, client: Client, h: Heartbeat, late: Time)
    requires 0 < offlineAfter <= late && h.sequence >= 0 && Matches(kind, h, reg)
    ensures var up := Next(Start(kind, offlineAfter), Register(reg, client, true, 0));
            && Next(up, Beat(h, late)).registry.connection == Some(Connection(1, reg, client, late, h.sequence, true))
            && Next(Next(up, Look(late)), Beat(h, late)).registry.connection == None
  {}

  /** The generation order binds only against a live connection: after a disconnect an older one registers. */
  lemma OlderGenerationReturns(kind: Kind, offlineAfter: int, newer: Registration, older: Registration)
    requires older.generation < newer.generation
    ensures var up := Next(Start(kind, offlineAfter), Register(newer, 1, false, 0));
            && Next(up, Register(older, 2, false, 0)).registry == up.registry
            && Next(Next(up, Disconnect(1)), Register(older, 2, false, 0)).registry.connection.value.registration == older
  {}
}
