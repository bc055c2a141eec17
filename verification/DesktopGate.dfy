/** The desktop mutation gate: any number of threads mutate one desktop under one occupied flag while a
    persistent emergency marker may appear at any moment, and survives restarts of the worker. */
module DesktopGate {
  import opened Wrappers

  type Tid = nat

  datatype Outcome = Finished | EmergencyStop | Busy | Failed

  // ---- The two blocks under the gate's condition ----

  /** A refusal, or None: the thread entered if the gate was free, and waits on otherwise. */
  function EnterBlock(occupied: bool, marker: bool, timedOut: bool): (bool, Option<Outcome>)  {
    if marker then (occupied, Some(EmergencyStop))
    else if !occupied then (true, None)
    else (occupied, if timedOut then Some(Busy) else None)
  }

  class DesktopMutationGate {
    var occupied: bool

    constructor ()
      ensures !occupied
    {
      occupied := false;
    }

    /** One turn of the waiting loop; it entered when the gate was free and is not any more. */
    method TryEnter(marker: bool, timedOut: bool) returns (refused: Option<Outcome>)
      modifies this
      ensures (occupied, refused) == EnterBlock(old(occupied), marker, timedOut)
    {
      if occupied {
        if marker { return Some(EmergencyStop); }
        if timedOut { return Some(Busy); }
        return None;
      }
      if marker { return Some(EmergencyStop); }
      occupied := true;
      return None;
    }

    method Release()
      modifies this
      ensures !occupied
    {
      occupied := false;
    }
  }

  // ---- Threads ----

  datatype Pc =
    | Waiting                    // in the gate's wait loop
    | Admitted                   // found the gate free and saw no marker; holds the condition, takes the gate next
    | Entered                    // occupies the gate; validates next
    | Validated                  // looks at the marker once more next
    | Mutating                   // between batches
    | Cleared                    // this batch's boundary check saw no marker; it validates and sends next
    | Leaving(outcome: Outcome)
    | Done(outcome: Outcome)

  datatype Entry = Stopped | Passed(t: Tid) | Came(t: Tid) | Batch(t: Tid) | Restarted

  datatype World = World(marker: bool, occupied: bool, threads: map<Tid, Pc>, log: seq<Entry>)

  const START: World := World(false, false, map[], [])

  /** The marker is a file made outside the condition: `Stop` may come between any two of these. */
  datatype Step =
    | Call(t: Tid)
    | TryEnter(t: Tid, timedOut: bool)
    | Take(t: Tid)
    | Validate(t: Tid, ok: bool)
    | LookAgain(t: Tid)
    | Boundary(t: Tid)               // refused or cleared; a refused mutation may go on to a repair batch
    | SendInput(t: Tid, validated: bool)
    | Finish(t: Tid, outcome: Outcome)
    | Leave(t: Tid)
    | Stop
    | Restart

  function At(w: World, t: Tid, pc: Pc): World { w.(threads := w.threads[t := pc]) }

  predicate Is(w: World, t: Tid, pc: Pc) { t in w.threads && w.threads[t] == pc }

  /** Somebody is between the check and taking the gate, and so holds the condition. */
  predicate ConditionHeld(w: World) { exists t | t in w.threads :: w.threads[t].Admitted? }

  function Next(w: World, e: Step): World {
    match e
    case Call(t) => if t in w.threads then w else At(w, t, Waiting)
    case TryEnter(t, timedOut) =>
      if !Is(w, t, Waiting) || ConditionHeld(w) then w
      else
        var (occupied, refused) := EnterBlock(w.occupied, w.marker, timedOut);
        if refused.Some? then At(w, t, Done(refused.value))
        else if occupied == w.occupied then w
        else At(w, t, Admitted).(log := w.log + [Passed(t)])
    case Take(t) => if !Is(w, t, Admitted) then w else At(w, t, Entered).(occupied := true, log := w.log + [Came(t)])
    case Validate(t, ok) => if !Is(w, t, Entered) then w else At(w, t, if ok then Validated else Leaving(Failed))
    case LookAgain(t) => if !Is(w, t, Validated) then w else At(w, t, if w.marker then Leaving(EmergencyStop) else Mutating)
    case Boundary(t) => if !Is(w, t, Mutating) || w.marker then w else At(w, t, Cleared)
    case SendInput(t, validated) =>
      if !Is(w, t, Cleared) then w
      else if !validated then At(w, t, Mutating)
      else At(w, t, Mutating).(log := w.log + [Batch(t)])
    case Finish(t, outcome) => if !Is(w, t, Mutating) then w else At(w, t, Leaving(outcome))
    case Leave(t) =>
      if t in w.threads && w.threads[t].Leaving? && !ConditionHeld(w)
      then At(w, t, Done(w.threads[t].outcome)).(occupied := false) else w
    case Stop => w.(marker := true, log := w.log + [Stopped])
    case Restart => World(w.marker, false, map[], w.log + [Restarted])
  }

  function Run(w: World, es: seq<Step>): World
    decreases es
  {
    if es == [] then w else Run(Next(w, es[0]), es[1..])
  }

  // ---- The invariant ----

  predicate Inside(pc: Pc) { pc.Entered? || pc.Validated? || pc.Mutating? || pc.Cleared? || pc.Leaving? }

  ghost predicate Exclusive(w: World) {
    && (forall t, u | t in w.threads && u in w.threads && (Inside(w.threads[t]) || w.threads[t].Admitted?)
                      && (Inside(w.threads[u]) || w.threads[u].Admitted?) :: t == u)
    && (w.occupied <==> exists t | t in w.threads :: Inside(w.threads[t]))
  }

  ghost predicate AfterStop(log: seq<Entry>, j: nat) {
    j < |log| && exists i | 0 <= i < j :: log[i] == Stopped
  }

  /** What a check from before the marker may still lead to. */
  predicate Late(e: Entry) { e.Came? || e.Batch? }

  predicate OnTheWay(pc: Pc) { pc.Admitted? || pc.Cleared? }

  ghost predicate StopKept(w: World) {
    && (w.marker <==> Stopped in w.log)
    && (forall j | 0 <= j < |w.log| && AfterStop(w.log, j) :: !w.log[j].Passed?)
    && (forall j, k | 0 <= j < k < |w.log| && AfterStop(w.log, j) :: !(Late(w.log[j]) && Late(w.log[k])))
    && (forall j | 0 <= j < |w.log| && AfterStop(w.log, j) && Late(w.log[j]) ::
          forall t | t in w.threads :: !OnTheWay(w.threads[t]))
  }

  lemma NextKeepsExclusive(w: World, e: Step)
    requires Exclusive(w)
    ensures Exclusive(Next(w, e))
  {
    var w' := Next(w, e);
    if w'.occupied {
      if w.occupied {
        var t :| t in w.threads && Inside(w.threads[t]);
        assert t in w'.threads && Inside(w'.threads[t]);
      } else {
        assert Inside(w'.threads[e.t]);
      }
    }
  }

  lemma LogPush(w: World, w': World, e: Entry)
    requires StopKept(w) && w'.log == w.log + [e] && (w'.marker <==> w.marker || e == Stopped)
    requires w.marker ==> !e.Passed? && forall t | t in w'.threads && OnTheWay(w'.threads[t]) :: t in w.threads && OnTheWay(w.threads[t])
    requires Late(e) ==> (exists t | t in w.threads :: OnTheWay(w.threads[t])) && (forall t | t in w'.threads :: !OnTheWay(w'.threads[t]))
    ensures StopKept(w')
  {
    forall j | 0 <= j < |w'.log| && AfterStop(w'.log, j)
      ensures (j < |w.log| ==> AfterStop(w.log, j)) && w.marker
    {
      var i :| 0 <= i < j && w'.log[i] == Stopped;
      assert w.log[i] == Stopped;
    }
  }

  lemma NextKeepsStop(w: World, e: Step)
    requires Exclusive(w) && StopKept(w)
    ensures StopKept(Next(w, e))
  {
    var w' := Next(w, e);
    if w'.log != w.log {
      var entry := w'.log[|w.log|];
      if Late(entry) { assert OnTheWay(w.threads[e.t]); }
      LogPush(w, w', entry);
    } else {
      assert forall j | 0 <= j < |w.log| && AfterStop(w.log, j) :: w.marker;
    }
  }

  lemma {:induction false} RunKeepsInv(w: World, es: seq<Step>)
    requires Exclusive(w) && StopKept(w)
    ensures Exclusive(Run(w, es)) && StopKept(Run(w, es))
    decreases es
  {
    if es != [] {
      NextKeepsExclusive(w, es[0]);
      NextKeepsStop(w, es[0]);
      hide Exclusive, StopKept, Next;
      RunKeepsInv(Next(w, es[0]), es[1..]);
    }
  }

  /** One turn of the wait loop, in full: with the marker the thread is turned away; a free gate is its own; at an
      occupied one it gives up exactly when its time is over. */
  lemma TurnExact(w: World, t: Tid, timedOut: bool)
    requires Is(w, t, Waiting) && !ConditionHeld(w)
    ensures var w' := Next(w, TryEnter(t, timedOut));
            && w'.marker == w.marker && w'.occupied == w.occupied
            && w'.threads == w.threads[t := if w.marker then Done(EmergencyStop) else if !w.occupied then Admitted
                                            else if timedOut then Done(Busy) else Waiting]
  {}

  // ---- Safety over every run ----

  /** At most one mutation is inside the gate, and the gate is free exactly when none is. */
  lemma OneMutationAtATime(es: seq<Step>, t: Tid, u: Tid)
    ensures var w := Run(START, es);
            && (t in w.threads && u in w.threads && Inside(w.threads[t]) && Inside(w.threads[u]) ==> t == u)
            && (w.occupied <==> exists x | x in w.threads :: Inside(w.threads[x]))
  {
    RunKeepsInv(START, es);
  }

  /** Once the marker exists it stays, across restarts too, and nobody passes the entry check any more. Of all
      that checks from before the marker may still lead to, taking the gate or sending a batch, repairs
      included, at most one thing happens: so at most one more batch is sent, and none if a thread still took
      the gate. */
  lemma AtMostOneBatchAfterStop(es: seq<Step>, i: nat, j: nat, k: nat)
    ensures var w := Run(START, es);
            && (i < |w.log| && w.log[i] == Stopped ==> w.marker)
            && (i < j < |w.log| && w.log[i] == Stopped ==> !w.log[j].Passed?)
            && (i < j < k < |w.log| && w.log[i] == Stopped && (w.log[j].Batch? || w.log[j].Came?) ==>
                  !w.log[k].Batch? && !w.log[k].Came?)
  {
    RunKeepsInv(START, es);
    var w := Run(START, es);
    if i < j < |w.log| && w.log[i] == Stopped { assert AfterStop(w.log, j); }
  }

  lemma RunPush(w: World, es: seq<Step>, e: Step)
    ensures Run(w, es + [e]) == Next(Run(w, es), e)
    decreases es
  {
    if es == [] {
      assert [e][1..] == [];
    } else {
      assert (es + [e])[1..] == es[1..] + [e];
      hide Next;
      RunPush(Next(w, es[0]), es[1..], e);
    }
  }

  lemma Then(es: seq<Step>, e: Step) returns (all: seq<Step>)
    ensures Run(START, all) == Next(Run(START, es), e)
  {
    RunPush(START, es, e);
    all := es + [e];
  }

  /** That one batch is real: its boundary check came before the marker. */
  lemma OneBatchMayFollow(t: Tid) returns (es: seq<Step>)
    ensures Run(START, es).log == [Passed(t), Came(t), Stopped, Batch(t)]
  {
    es := Then([], Call(t));
    es := Then(es, TryEnter(t, false));
    assert Run(START, es) == World(false, false, map[t := Admitted], [Passed(t)]);
    es := Then(es, Take(t));
    assert Run(START, es) == World(false, true, map[t := Entered], [Passed(t), Came(t)]);
    es := Then(es, Validate(t, true));
    es := Then(es, LookAgain(t));
    es := Then(es, Boundary(t));
    assert Run(START, es) == World(false, true, map[t := Cleared], [Passed(t), Came(t)]);
    es := Then(es, Stop);
    es := Then(es, SendInput(t, true));
  }

  /** A thread may also take the gate just after the marker appeared; it is turned away by its second look. */
  lemma EntryMayFollow(t: Tid) returns (es: seq<Step>)
    ensures Run(START, es).log == [Passed(t), Stopped, Came(t)] && Run(START, es).threads == map[t := Done(EmergencyStop)]
  {
    es := Then([], Call(t));
    es := Then(es, TryEnter(t, false));
    assert Run(START, es) == World(false, false, map[t := Admitted], [Passed(t)]);
    es := Then(es, Stop);
    es := Then(es, Take(t));
    assert Run(START, es) == World(true, true, map[t := Entered], [Passed(t), Stopped, Came(t)]);
    es := Then(es, Validate(t, true));
    es := Then(es, LookAgain(t));
    assert Run(START, es) == World(true, true, map[t := Leaving(EmergencyStop)], [Passed(t), Stopped, Came(t)]);
    es := Then(es, Leave(t));
  }
}
