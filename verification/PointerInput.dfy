/** Pointer and keyboard input through a `SendInput` that may insert any prefix of a batch, a cursor that
    may be read anywhere or nowhere, and a boundary check that may refuse at any time: what a mutation
    may report about it. */
module PointerInput {
  import opened Wrappers
  import opened Utf8

  // ---- Absolute coordinates ----

  function Max(a: int, b: int): int { if a >= b then a else b }

  function Offset(pixel: int, origin: int, span: int): int { Max(0, Min(span - 1, pixel - origin)) }

  function AbsoluteCoordinate(pixel: int, origin: int, span: int): int {
    var denominator := Max(span - 1, 1);
    Min((Offset(pixel, origin, span) * 65535 + denominator - 1) / denominator, 65535)
  }

  /** The pixel offset the system maps an absolute coordinate to. */
  function Mapped(c: int, span: int): int { c * (span - 1) / 65535 }

  lemma Scaled(a: int, b: int, n: int)
    requires 0 <= n
    ensures a <= b ==> a * n <= b * n
  {}

  lemma Ceiling(o: int, n: int)
    requires 0 <= o <= n && 1 <= n
    ensures var c := (o * 65535 + n - 1) / n;
            0 <= c <= 65535 && o * 65535 <= c * n < o * 65535 + n
  {
    var c := (o * 65535 + n - 1) / n;
    assert c * n + (o * 65535 + n - 1) % n == o * 65535 + n - 1;
    Scaled(65536, c, n);
  }

  lemma FloorAtLeast(a: int, k: int)
    ensures a / 65535 >= k <==> a >= k * 65535
  {}

  /** The coordinate is the least one mapped at or past the clamped pixel offset. */
  lemma CoordinateIsLeast(pixel: int, origin: int, span: int, d: int)
    requires span >= 1
    ensures var c := AbsoluteCoordinate(pixel, origin, span);
            var o := Offset(pixel, origin, span);
            && 0 <= c <= 65535 && o <= Mapped(c, span)
            && (0 <= d < c ==> Mapped(d, span) < o)
  {
    var n, o := span - 1, Offset(pixel, origin, span);
    var c := AbsoluteCoordinate(pixel, origin, span);
    if n > 0 {
      Ceiling(o, n);
      FloorAtLeast(c * n, o);
      FloorAtLeast(d * n, o);
      Scaled(d, c - 1, n);
    }
  }

  lemma MappedMonotone(c: int, d: int, span: int)
    requires span >= 1 && c <= d
    ensures Mapped(c, span) <= Mapped(d, span)
  {
    Scaled(c, d, span - 1);
    FloorAtLeast(d * (span - 1), Mapped(c, span));
    FloorAtLeast(c * (span - 1), Mapped(c, span));
  }

  /** It hits the pixel exactly when any coordinate in range does. */
  lemma CoordinateHitsIffReachable(pixel: int, origin: int, span: int)
    requires span >= 1
    ensures var o := Offset(pixel, origin, span);
            Mapped(AbsoluteCoordinate(pixel, origin, span), span) == o <==> exists d :: 0 <= d <= 65535 && Mapped(d, span) == o
  {
    var o := Offset(pixel, origin, span);
    var c := AbsoluteCoordinate(pixel, origin, span);
    CoordinateIsLeast(pixel, origin, span, 0);
    if d :| 0 <= d <= 65535 && Mapped(d, span) == o {
      CoordinateIsLeast(pixel, origin, span, d);
      MappedMonotone(c, d, span);
    }
  }

  lemma NarrowHits(pixel: int, origin: int, span: int)
    requires 1 <= span <= 65536
    ensures Mapped(AbsoluteCoordinate(pixel, origin, span), span) == Offset(pixel, origin, span)
  {
    var n, o := span - 1, Offset(pixel, origin, span);
    var c := AbsoluteCoordinate(pixel, origin, span);
    if 1 <= n {
      Ceiling(o, n);
      FloorAtLeast(c * n, o);
      FloorAtLeast(c * n, o + 1);
    }
  }

  /** On a wider desktop the last pixel but one is missed. */
  lemma WideMisses(origin: int, span: int)
    requires span > 65536
    ensures Mapped(AbsoluteCoordinate(origin + span - 2, origin, span), span) == span - 1
  {
    var n := span - 1;
    var c := AbsoluteCoordinate(origin + span - 2, origin, span);
    Ceiling(n - 1, n);
    assert (n - 1) * 65535 == n * 65535 - 65535 && (n - 1) * 65535 > 65534 * n - 1;
    Scaled(c, 65534, n);
    assert c == 65535 || c * n == (n - 1) * 65535 == 65534 * n;
  }

  /** Every pixel of the desktop can be hit exactly when it spans at most 65536 of them. */
  lemma EveryPixelHitIff(origin: int, span: int)
    requires span >= 1
    ensures span <= 65536 <==>
              forall pixel | origin <= pixel < origin + span ::
                Mapped(AbsoluteCoordinate(pixel, origin, span), span) == pixel - origin
  {
    if span <= 65536 {
      forall pixel | origin <= pixel < origin + span
        ensures Mapped(AbsoluteCoordinate(pixel, origin, span), span) == pixel - origin
      {
        NarrowHits(pixel, origin, span);
      }
    } else {
      WideMisses(origin, span);
      assert origin <= origin + span - 2 < origin + span;
    }
  }

  lemma CoordinateMonotone(p: int, q: int, origin: int, span: int)
    requires span >= 1 && p <= q
    ensures AbsoluteCoordinate(p, origin, span) <= AbsoluteCoordinate(q, origin, span)
  {
    var c, d := AbsoluteCoordinate(p, origin, span), AbsoluteCoordinate(q, origin, span);
    CoordinateIsLeast(p, origin, span, d);
    CoordinateIsLeast(q, origin, span, d);
  }

  // ---- Events ----

  datatype Point = Point(x: int, y: int)

  datatype Button = LEFT | RIGHT | MIDDLE

  datatype Event =
    | Move(dx: int, dy: int)
    | Press(button: Button) | Release(button: Button)
    | KeyDown(code: nat) | KeyUp(code: nat)
    | UnicodeDown(scan: nat) | UnicodeUp(scan: nat)
    | Wheel(horizontal: bool, delta: int)

  datatype Held = HeldButton(button: Button) | HeldKey(code: nat) | HeldUnicode(scan: nat)

  function Apply(held: set<Held>, e: Event): set<Held> {
    match e
    case Press(b) => held + {HeldButton(b)}
    case Release(b) => held - {HeldButton(b)}
    case KeyDown(c) => held + {HeldKey(c)}
    case KeyUp(c) => held - {HeldKey(c)}
    case UnicodeDown(u) => held + {HeldUnicode(u)}
    case UnicodeUp(u) => held - {HeldUnicode(u)}
    case Move(_, _) => held
    case Wheel(_, _) => held
  }

  /** What is pressed after the events, in order. */
  function HeldAfter(events: seq<Event>): set<Held> {
    if events == [] then {} else Apply(HeldAfter(events[..|events| - 1]), events[|events| - 1])
  }

  // ---- The environment: answers that depend on everything that happened before ----

  datatype Code = LIMITATION | EMERGENCY_STOP | STATE_CONFLICT | STATE_UNCERTAIN

  datatype Entry = Checked(refused: Option<Code>) | Sent(events: seq<Event>, inserted: nat) | Saw(at: Option<Point>)

  type Log = seq<Entry>

  datatype Metrics = Metrics(left: int, top: int, width: int, height: int)

  datatype Env = Env(
    stopped: Log -> bool,               // the emergency marker exists
    validate: Log -> Option<Code>,      // the desktop and foreground checks
    insert: Log -> nat,                 // SendInput; never more than it was given
    cursor: Log -> Option<Point>,       // GetCursorPos
    metrics: Log -> Metrics,            // GetSystemMetrics
    polls: Log -> nat)                  // readings before the 0.1 s deadline

  /** What `_validate` can raise. */
  ghost predicate Plausible(env: Env) {
    forall log :: env.validate(log) in {None, Some(LIMITATION), Some(STATE_CONFLICT)}
  }

  /** `boundary_check`. */
  function BoundaryCheck(env: Env, log: Log): Option<Code> {
    if env.stopped(log) then Some(EMERGENCY_STOP) else env.validate(log)
  }

  datatype Error = Error(code: Code, before: Option<Point>, observed: Option<Point>, target: Option<Point>)

  datatype Result<T> = Ok(value: T) | Raise(error: Error)

  function Plain(code: Code): Error { Error(code, None, None, None) }

  // ---- The backend's steps ----

  function CursorStep(env: Env, log: Log): (Log, Result<Point>) {
    var at := env.cursor(log);
    (log + [Saw(at)], if at.Some? then Ok(at.value) else Raise(Plain(LIMITATION)))
  }

  function InsertStep(env: Env, log: Log, events: seq<Event>): (Log, Result<nat>) {
    var refused := BoundaryCheck(env, log);
    var log1 := log + [Checked(refused)];
    if refused.Some? then (log1, Raise(Plain(refused.value)))
    else
      var inserted := Min(env.insert(log1), |events|);
      (log1 + [Sent(events, inserted)], Ok(inserted))
  }

  function WaitStep(env: Env, log: Log, target: Point, polls: nat): (Log, Result<Point>)
    decreases polls
  {
    var (log1, at) := CursorStep(env, log);
    if at.Raise? || polls == 0 || at.value == target then (log1, at) else WaitStep(env, log1, target, polls - 1)
  }

  function MoveTo(env: Env, log: Log, p: Point): Event {
    var m := env.metrics(log);
    Move(AbsoluteCoordinate(p.x, m.left, m.width), AbsoluteCoordinate(p.y, m.top, m.height))
  }

  /** Sends the repair batch and waits for the cursor to come back. */
  function RestoreStep(env: Env, log: Log, repair: seq<Event>, before: Point, observed: Option<Point>, target: Point)
    : (Log, Error)
  {
    var uncertain := Error(STATE_UNCERTAIN, Some(before), observed, Some(target));
    var (log1, repaired) := InsertStep(env, log, repair);
    if repaired.Raise? then (log1, uncertain)
    else
      var (log2, restored) := WaitStep(env, log1, before, env.polls(log1));
      if restored.Raise? then (log2, uncertain)
      else
        var code := if repaired.value == |repair| && restored.value == before then LIMITATION else STATE_UNCERTAIN;
        (log2, Error(code, Some(before), Some(restored.value), Some(target)))
  }

  function CompensateStep(env: Env, log: Log, before: Point, observed: Option<Point>, target: Point): (Log, Error) {
    RestoreStep(env, log, [MoveTo(env, log, before)], before, observed, target)
  }

  function RepairStep(env: Env, log: Log, before: Point, target: Point, button: Button, inserted: nat): (Log, Error) {
    var (log1, at) := CursorStep(env, log);
    var observed := if at.Ok? then Some(at.value) else None;
    var repair := (if inserted % 2 == 1 then [Release(button)] else []) + [MoveTo(env, log1, before)];
    RestoreStep(env, log1, repair, before, observed, target)
  }

  function MoveStep(env: Env, log: Log, target: Point): (Log, Result<Point>) {
    var (log1, before) := CursorStep(env, log);
    if before.Raise? then (log1, before)
    else
      var (log2, inserted) := InsertStep(env, log1, [MoveTo(env, log1, target)]);
      if inserted.Raise? then (log2, Raise(inserted.error))
      else if inserted.value == 0 then (log2, Raise(Plain(LIMITATION)))
      else
        var (log3, observed) := WaitStep(env, log2, target, env.polls(log2));
        if observed == Ok(target) then (log3, before)
        else
          var seen := if observed.Ok? then Some(observed.value) else None;
          var (log4, error) := CompensateStep(env, log3, before.value, seen, target);
          (log4, Raise(error))
  }

  function ClickEvents(button: Button, clicks: nat): seq<Event> {
    if clicks == 0 then [] else ClickEvents(button, clicks - 1) + [Press(button), Release(button)]
  }

  datatype Mutation =
    | MovePointer(point: Point)
    | ClickPointer(point: Point, button: Button, clicks: nat)
    | ScrollWheel(dx: int, dy: int)
    | TypeText(units: seq<nat>)          // UTF-16 code units
    | Hotkey(keys: seq<nat>)
    | PressKey(key: nat, presses: nat)

  function ClickStep(env: Env, log: Log, point: Point, button: Button, clicks: nat): (Log, Result<Point>) {
    var (log1, before) := MoveStep(env, log, point);
    if before.Raise? then (log1, before)
    else
      var events := ClickEvents(button, clicks);
      var (log2, inserted) := InsertStep(env, log1, events);
      if inserted.Raise? || inserted.value != |events| then
        var (log3, error) := RepairStep(env, log2, before.value, point, button, if inserted.Ok? then inserted.value else 0);
        (log3, Raise(error))
      else
        var (log3, observed) := WaitStep(env, log2, point, env.polls(log2));
        if observed == Ok(point) then (log3, observed)
        else
          var seen := if observed.Ok? then Some(observed.value) else None;
          var (log4, error) := CompensateStep(env, log3, before.value, seen, point);
          (log4, Raise(error))
  }

  function KeyDowns(keys: seq<nat>): seq<Event> {
    if keys == [] then [] else KeyDowns(keys[..|keys| - 1]) + [KeyDown(keys[|keys| - 1])]
  }

  /** Released in the reverse order. */
  function KeyUps(keys: seq<nat>): seq<Event> {
    if keys == [] then [] else [KeyUp(keys[|keys| - 1])] + KeyUps(keys[..|keys| - 1])
  }

  function PressEvents(key: nat, presses: nat): seq<Event> {
    if presses == 0 then [] else PressEvents(key, presses - 1) + [KeyDown(key), KeyUp(key)]
  }

  function TextEvents(units: seq<nat>): seq<Event> {
    if units == [] then []
    else TextEvents(units[..|units| - 1]) + [UnicodeDown(units[|units| - 1]), UnicodeUp(units[|units| - 1])]
  }

  /** The single batch of a mutation without a pointer target. */
  function Batch(m: Mutation): seq<Event> {
    match m
    case ScrollWheel(dx, dy) =>
      (if dx != 0 then [Wheel(true, dx)] else []) + (if dy != 0 then [Wheel(false, dy)] else [])
    case TypeText(units) => TextEvents(units)
    case Hotkey(keys) => KeyDowns(keys) + KeyUps(keys)
    case PressKey(key, presses) => PressEvents(key, presses)
    case _ => []
  }

  /** None: `send` returned. */
  function SendStep(env: Env, log: Log, m: Mutation): (Log, Option<Error>) {
    match m
    case MovePointer(p) =>
      var (log1, r) := MoveStep(env, log, p);
      (log1, if r.Ok? then None else Some(r.error))
    case ClickPointer(p, button, clicks) =>
      var (log1, r) := ClickStep(env, log, p, button, clicks);
      (log1, if r.Ok? then None else Some(r.error))
    case _ =>
      var (log1, inserted) := InsertStep(env, log, Batch(m));
      (log1, if inserted.Raise? then Some(inserted.error)
             else if inserted.value == 0 then Some(Plain(LIMITATION))
             else if inserted.value != |Batch(m)| then Some(Plain(STATE_UNCERTAIN))
             else None)
  }

  // ---- The backend as it runs ----

  class Win32InputBackend {
    const env: Env
    var log: Log

    constructor (env: Env)
      ensures this.env == env && log == []
    {
      this.env, log := env, [];
    }

    method CursorPosition() returns (r: Result<Point>)
      modifies this
      ensures (log, r) == CursorStep(env, old(log))
    {
      var at := env.cursor(log);
      log := log + [Saw(at)];
      if at == None { return Raise(Plain(LIMITATION)); }
      return Ok(at.value);
    }

    method Insert(events: seq<Event>) returns (r: Result<nat>)
      modifies this
      ensures (log, r) == InsertStep(env, old(log), events)
    {
      var refused := BoundaryCheck(env, log);
      log := log + [Checked(refused)];
      if refused != None { return Raise(Plain(refused.value)); }
      var inserted := Min(env.insert(log), |events|);
      log := log + [Sent(events, inserted)];
      return Ok(inserted);
    }

    method WaitForCursor(target: Point) returns (r: Result<Point>)
      modifies this
      ensures (log, r) == WaitStep(env, old(log), target, env.polls(old(log)))
    {
      var polls := env.polls(log);
      while polls > 0
        invariant WaitStep(env, log, target, polls) == WaitStep(env, old(log), target, env.polls(old(log)))
      {
        r := CursorPosition();
        if r.Raise? || r.value == target { return; }
        polls := polls - 1;
      }
      r := CursorPosition();
    }

    method Restore(repair: seq<Event>, before: Point, observed: Option<Point>, target: Point) returns (error: Error)
      modifies this
      ensures (log, error) == RestoreStep(env, old(log), repair, before, observed, target)
    {
      error := Error(STATE_UNCERTAIN, Some(before), observed, Some(target));
      var repaired := Insert(repair);
      if repaired.Raise? { return; }
      var restored := WaitForCursor(before);
      if restored.Raise? { return; }
      var code := if repaired.value == |repair| && restored.value == before then LIMITATION else STATE_UNCERTAIN;
      return Error(code, Some(before), Some(restored.value), Some(target));
    }

    method RepairFailedClick(before: Point, target: Point, button: Button, inserted: nat) returns (error: Error)
      modifies this
      ensures (log, error) == RepairStep(env, old(log), before, target, button, inserted)
    {
      var at := CursorPosition();
      var observed := if at.Ok? then Some(at.value) else None;
      var repair := if inserted % 2 == 1 then [Release(button)] else [];
      repair := repair + [MoveTo(env, log, before)];
      error := Restore(repair, before, observed, target);
    }

    method MoveVerified(target: Point) returns (r: Result<Point>)
      modifies this
      ensures (log, r) == MoveStep(env, old(log), target)
    {
      var before := CursorPosition();
      if before.Raise? { return before; }
      var inserted := Insert([MoveTo(env, log, target)]);
      if inserted.Raise? { return Raise(inserted.error); }
      if inserted.value == 0 { return Raise(Plain(LIMITATION)); }
      var observed := WaitForCursor(target);
      if observed == Ok(target) { return before; }
      var seen := if observed.Ok? then Some(observed.value) else None;
      var error := Restore([MoveTo(env, log, before.value)], before.value, seen, target);
      return Raise(error);
    }

    method Click(point: Point, button: Button, clicks: nat) returns (r: Result<Point>)
      modifies this
      ensures (log, r) == ClickStep(env, old(log), point, button, clicks)
    {
      var before := MoveVerified(point);
      if before.Raise? { return before; }
      var events := ClickEvents(button, clicks);
      var inserted := Insert(events);
      if inserted.Raise? || inserted.value != |events| {
        var error := RepairFailedClick(before.value, point, button, if inserted.Ok? then inserted.value else 0);
        return Raise(error);
      }
      var observed := WaitForCursor(point);
      if observed == Ok(point) { return observed; }
      var seen := if observed.Ok? then Some(observed.value) else None;
      var error := Restore([MoveTo(env, log, before.value)], before.value, seen, point);
      return Raise(error);
    }

    method Send(m: Mutation) returns (failed: Option<Error>)
      modifies this
      ensures (log, failed) == SendStep(env, old(log), m)
    {
      if m.MovePointer? {
        var r := MoveVerified(m.point);
        return if r.Ok? then None else Some(r.error);
      }
      if m.ClickPointer? {
        var r := Click(m.point, m.button, m.clicks);
        return if r.Ok? then None else Some(r.error);
      }
      var inserted := Insert(Batch(m));
      if inserted.Raise? { return Some(inserted.error); }
      if inserted.value == 0 { return Some(Plain(LIMITATION)); }
      if inserted.value != |Batch(m)| { return Some(Plain(STATE_UNCERTAIN)); }
      return None;
    }
  }

  // ---- What was inserted ----

  function Inserted(log: Log): seq<Event> {
    if log == [] then [] else Inserted(log[..|log| - 1]) + InsertedBy(log[|log| - 1])
  }

  /** Every batch is sent right after a boundary check of its own that let it through. */
  ghost predicate Guarded(log: Log) {
    forall i | 0 <= i < |log| && log[i].Sent? :: i > 0 && log[i - 1] == Checked(None)
  }

  function InsertedBy(e: Entry): seq<Event> {
    if e.Sent? && e.inserted <= |e.events| then e.events[..e.inserted] else []
  }

  lemma InsertedPush(log: Log, e: Entry)
    ensures Inserted(log + [e]) == Inserted(log) + InsertedBy(e)
  {
    assert (log + [e])[..|log|] == log;
    hide InsertedBy;
  }

  lemma GuardedPush(log: Log, e: Entry)
    requires Guarded(log) && (e.Sent? ==> log != [] && log[|log| - 1] == Checked(None))
    ensures Guarded(log + [e])
  {}

  predicate EndsAt(log: Log, p: Point) { log != [] && log[|log| - 1] == Saw(Some(p)) }

  /** The last cursor reading, None when it failed or there was none. */
  function LastSeen(log: Log): Option<Point> {
    if log == [] then None
    else match log[|log| - 1] case Saw(at) => at case _ => LastSeen(log[..|log| - 1])
  }

  lemma SeenAtEnd(log: Log)
    ensures forall p :: EndsAt(log, p) ==> LastSeen(log) == Some(p)
  {}

  lemma CursorEffect(env: Env, log: Log)
    ensures var (log', r) := CursorStep(env, log);
            && Inserted(log') == Inserted(log) && (Guarded(log) ==> Guarded(log'))
            && (r.Ok? ==> EndsAt(log', r.value) && env.cursor(log) == Some(r.value))
            && (r.Raise? ==> r.error == Plain(LIMITATION) && log' == log + [Saw(None)])
  {
    InsertedPush(log, Saw(env.cursor(log)));
    if Guarded(log) { GuardedPush(log, Saw(env.cursor(log))); }
    hide Inserted, Guarded;
  }

  lemma InsertEffect(env: Env, log: Log, events: seq<Event>)
    requires Plausible(env)
    ensures var (log', r) := InsertStep(env, log, events);
            && (r.Ok? ==> r.value <= |events| && Inserted(log') == Inserted(log) + events[..r.value]
                          && log' == log + [Checked(None)] + [Sent(events, r.value)])
            && (r.Raise? ==> Inserted(log') == Inserted(log) && r.error == Plain(r.error.code) && r.error.code != STATE_UNCERTAIN)
            && (Guarded(log) ==> Guarded(log'))
  {
    hide Inserted, Guarded;
    var refused := BoundaryCheck(env, log);
    var log1 := log + [Checked(refused)];
    InsertedPush(log, Checked(refused));
    if Guarded(log) { GuardedPush(log, Checked(refused)); }
    if refused.None? {
      var inserted := Min(env.insert(log1), |events|);
      InsertedPush(log1, Sent(events, inserted));
      if Guarded(log) { GuardedPush(log1, Sent(events, inserted)); }
    }
  }

  lemma {:induction false} WaitEffect(env: Env, log: Log, target: Point, polls: nat)
    ensures var (log', r) := WaitStep(env, log, target, polls);
            && Inserted(log') == Inserted(log) && (Guarded(log) ==> Guarded(log')) && log <= log'
            && (r.Ok? ==> EndsAt(log', r.value)) && (r.Raise? ==> r.error == Plain(LIMITATION) && log' != [] && log'[|log'| - 1] == Saw(None))
    decreases polls
  {
    CursorEffect(env, log);
    if polls > 0 { WaitEffect(env, CursorStep(env, log).0, target, polls - 1); }
  }

  /** A repair that reports anything but uncertainty did all of its batch and saw the cursor back. */
  lemma RestoreEffect(env: Env, log: Log, repair: seq<Event>, before: Point, observed: Option<Point>, target: Point)
    requires Plausible(env)
    ensures var (log', e) := RestoreStep(env, log, repair, before, observed, target);
            && e.code in {LIMITATION, STATE_UNCERTAIN} && e.before == Some(before) && e.target == Some(target)
            && (e.code == LIMITATION ==> Inserted(log') == Inserted(log) + repair && EndsAt(log', before) && e.observed == Some(before))
            && (repair != [] && Inserted(log') == Inserted(log) + repair && EndsAt(log', before) ==> e.code == LIMITATION)
            && (Guarded(log) ==> Guarded(log'))
  {
    InsertEffect(env, log, repair);
    var (log1, repaired) := InsertStep(env, log, repair);
    WaitEffect(env, log1, before, env.polls(log1));
    var (log2, restored) := WaitStep(env, log1, before, env.polls(log1));
    assert repair[..|repair|] == repair;
    hide InsertStep, WaitStep, Inserted, Guarded;
  }

  lemma RestoreInserts(env: Env, log: Log, repair: seq<Event>, before: Point, observed: Option<Point>, target: Point)
    returns (n: nat)
    requires Plausible(env)
    ensures n <= |repair|
    ensures Inserted(RestoreStep(env, log, repair, before, observed, target).0) == Inserted(log) + repair[..n]
  {
    InsertEffect(env, log, repair);
    var (log1, repaired) := InsertStep(env, log, repair);
    WaitEffect(env, log1, before, env.polls(log1));
    hide InsertStep, WaitStep, Inserted, Guarded;
    n := if repaired.Ok? then repaired.value else 0;
  }

  predicate IsMove(e: Event) { e.Move? }

  /** `e` was sent as a batch of its own, and is the move to `p` under the metrics of the moment it was made. */
  ghost predicate AimsAt(env: Env, log: Log, e: Event, p: Point) {
    exists k | 0 <= k && k + 1 < |log| :: log[k + 1].Sent? && log[k + 1].events == [e] && e == MoveTo(env, log[..k], p)
  }

  lemma AimsMove(env: Env, log: Log, e: Event, p: Point)
    requires AimsAt(env, log, e, p)
    ensures IsMove(e)
  {}

  lemma AimsGrows(env: Env, a: Log, b: Log, e: Event, p: Point)
    requires a <= b && AimsAt(env, a, e, p)
    ensures AimsAt(env, b, e, p)
  {
    hide MoveTo;
    var k :| 0 <= k && k + 1 < |a| && a[k + 1].Sent? && a[k + 1].events == [e] && e == MoveTo(env, a[..k], p);
    assert b[..k] == a[..k] && b[k + 1] == a[k + 1];
  }

  lemma MoveAims(env: Env, log: Log, p: Point, inserted: nat)
    ensures var e := MoveTo(env, log, p);
            AimsAt(env, log + [Checked(None)] + [Sent([e], inserted)], e, p)
  {
    hide MoveTo;
    var e := MoveTo(env, log, p);
    var more := log + [Checked(None)] + [Sent([e], inserted)];
    assert more[..|log|] == log && more[|log| + 1] == Sent([e], inserted);
  }

  /** A move event names coordinates that the desktop of its metrics maps to exactly its point. */
  lemma MoveToLands(env: Env, log: Log, p: Point)
    requires var m := env.metrics(log);
             && 1 <= m.width <= 65536 && 1 <= m.height <= 65536
             && m.left <= p.x < m.left + m.width && m.top <= p.y < m.top + m.height
    ensures var m, e := env.metrics(log), MoveTo(env, log, p);
            && e.Move? && 0 <= e.dx <= 65535 && 0 <= e.dy <= 65535
            && m.left + Mapped(e.dx, m.width) == p.x && m.top + Mapped(e.dy, m.height) == p.y
  {
    var m := env.metrics(log);
    hide AbsoluteCoordinate, Mapped;
    NarrowHits(p.x, m.left, m.width);
    NarrowHits(p.y, m.top, m.height);
    CoordinateIsLeast(p.x, m.left, m.width, 0);
    CoordinateIsLeast(p.y, m.top, m.height, 0);
  }

  /** What a failed move or click may leave behind and still not be called uncertain: nothing, or a pointer
      brought back by a batch that also released the button. */
  ghost predicate Undone(events: seq<Event>, middle: seq<Event>) {
    && |events| == |middle| + 2 && IsMove(events[0]) && events[1..|events| - 1] == middle && IsMove(events[|events| - 1])
  }

  lemma MoveEffect(env: Env, log: Log, target: Point)
    requires Plausible(env) && Inserted(log) == [] && Guarded(log)
    ensures var (log', r) := MoveStep(env, log, target);
            && Guarded(log')
            && (r.Ok? ==> EndsAt(log', target) && |Inserted(log')| == 1 && AimsAt(env, log', Inserted(log')[0], target)
                          && Some(r.value) == env.cursor(log))
            && (r.Raise? && r.error.code != STATE_UNCERTAIN ==>
                  || (Inserted(log') == [] && r.error == Plain(r.error.code))
                  || (r.error.code == LIMITATION && Undone(Inserted(log'), [])
                      && env.cursor(log).Some? && EndsAt(log', env.cursor(log).value) && r.error.before == env.cursor(log)))
            && (r.Raise? && r.error.code == STATE_UNCERTAIN ==>
                  0 < |Inserted(log')| <= 2 && env.cursor(log).Some?
                  && !(Undone(Inserted(log'), []) && EndsAt(log', env.cursor(log).value)))
  {
    hide CursorStep, InsertStep, WaitStep, RestoreStep, Inserted, Guarded, EndsAt, Plausible, MoveTo;
    CursorEffect(env, log);
    var (log1, before) := CursorStep(env, log);
    if before.Raise? { return; }
    var move := MoveTo(env, log1, target);
    InsertEffect(env, log1, [move]);
    var (log2, inserted) := InsertStep(env, log1, [move]);
    if inserted.Raise? || inserted.value == 0 { return; }
    assert Inserted(log2) == [move] && IsMove(move) by { MoveToMoves(env, log1, target); }
    WaitEffect(env, log2, target, env.polls(log2));
    var (log3, observed) := WaitStep(env, log2, target, env.polls(log2));
    if observed == Ok(target) {
      MoveAims(env, log1, target, 1);
      AimsGrows(env, log2, log3, move, target);
      return;
    }
    var seen := if observed.Ok? then Some(observed.value) else None;
    var back := MoveTo(env, log3, before.value);
    MoveToMoves(env, log3, before.value);
    RestoreEffect(env, log3, [back], before.value, seen, target);
    var n := RestoreInserts(env, log3, [back], before.value, seen, target);
    assert Undone([move] + [back], []);
  }

  lemma MoveToMoves(env: Env, log: Log, p: Point)
    ensures IsMove(MoveTo(env, log, p))
  {}

  lemma {:induction false} ClickLength(button: Button, clicks: nat)
    ensures |ClickEvents(button, clicks)| == 2 * clicks
  {
    if clicks > 0 { ClickLength(button, clicks - 1); }
  }

  /** The first k events of a click, and the release that an odd k leaves owing. */
  function ReleasedClick(button: Button, clicks: nat, k: nat): seq<Event>
    requires k <= |ClickEvents(button, clicks)|
  {
    ClickEvents(button, clicks)[..k] + if k % 2 == 1 then [Release(button)] else []
  }

  /** A click that left a trace but is not called uncertain: k of its events, released and taken back. */
  ghost predicate ClickUndone(events: seq<Event>, button: Button, clicks: nat) {
    exists k: nat | k <= |ClickEvents(button, clicks)| :: Undone(events, ReleasedClick(button, clicks, k))
  }

  /** Once the first move is in, an undone click ends with the move back, so its repair went in whole. */
  lemma UndoneMeansWhole(events: seq<Event>, middle: seq<Event>, repair: seq<Event>, n: nat, before: seq<Event>)
    requires n <= |repair| && repair != [] && |before| >= 1
    requires forall e | e in before[1..] :: !IsMove(e)
    requires forall e | e in repair[..|repair| - 1] :: !IsMove(e)
    requires events == before + repair[..n] && Undone(events, middle)
    ensures n == |repair|
  {}

  lemma UndoneThere(move: Event, middle: seq<Event>, back: Event)
    requires IsMove(move) && IsMove(back)
    ensures Undone([move] + middle + [back], middle)
  {
    assert ([move] + middle + [back])[1..|middle| + 1] == middle;
  }

  lemma WholeOrNot(sent: seq<Event>, repair: seq<Event>, n: nat, button: Button, clicks: nat)
    requires n <= |repair| && repair != [] && sent != []
    requires forall e | e in sent[1..] :: !IsMove(e)
    requires forall e | e in repair[..|repair| - 1] :: !IsMove(e)
    ensures ClickUndone(sent + repair[..n], button, clicks) ==> n == |repair|
  {
    hide Undone, ClickEvents;
    if ClickUndone(sent + repair[..n], button, clicks) {
      var k: nat :| k <= |ClickEvents(button, clicks)| && Undone(sent + repair[..n], ReleasedClick(button, clicks, k));
      UndoneMeansWhole(sent + repair[..n], ReleasedClick(button, clicks, k), repair, n, sent);
    }
  }

  lemma {:induction false} ClickHoldsNoMove(button: Button, clicks: nat)
    ensures forall e | e in ClickEvents(button, clicks) :: !IsMove(e)
  {
    if clicks > 0 { ClickHoldsNoMove(button, clicks - 1); }
  }

  lemma RepairEffect(env: Env, log: Log, before: Point, target: Point, button: Button, clicks: nat, k: nat, move: Event)
    requires Plausible(env) && k <= |ClickEvents(button, clicks)| && IsMove(move)
    requires Inserted(log) == [move] + ClickEvents(button, clicks)[..k]
    ensures var (log', e) := RepairStep(env, log, before, target, button, k);
            && (Guarded(log) ==> Guarded(log')) && e.code in {LIMITATION, STATE_UNCERTAIN} && e.before == Some(before)
            && Inserted(log') != []
            && (e.code == LIMITATION <==> EndsAt(log', before) && ClickUndone(Inserted(log'), button, clicks))
  {
    hide CursorStep, RestoreStep, Inserted, Guarded, EndsAt, Plausible, MoveTo, ClickEvents, Undone;
    CursorEffect(env, log);
    var (log1, at) := CursorStep(env, log);
    var back := MoveTo(env, log1, before);
    MoveToMoves(env, log1, before);
    var repair := (if k % 2 == 1 then [Release(button)] else []) + [back];
    var seen := if at.Ok? then Some(at.value) else None;
    RestoreEffect(env, log1, repair, before, seen, target);
    var n := RestoreInserts(env, log1, repair, before, seen, target);
    var middle, events := ReleasedClick(button, clicks, k), ClickEvents(button, clicks)[..k];
    assert [move] + events + repair == [move] + middle + [back];
    UndoneThere(move, middle, back);
    ClickHoldsNoMove(button, clicks);
    WholeOrNot([move] + events, repair, n, button, clicks);
    assert repair[..|repair|] == repair;
  }

  lemma ShortMeansBare(events: seq<Event>, button: Button, clicks: nat)
    requires |events| <= 2
    ensures ClickUndone(events, button, clicks) <==> Undone(events, [])
  {
    if Undone(events, []) { assert ReleasedClick(button, clicks, 0) == []; }
  }

  lemma ClickEffect(env: Env, log: Log, point: Point, button: Button, clicks: nat)
    requires Plausible(env) && Inserted(log) == [] && Guarded(log)
    ensures var (log', r) := ClickStep(env, log, point, button, clicks);
            && Guarded(log')
            && (r.Ok? ==> EndsAt(log', point) && |Inserted(log')| > 0 && AimsAt(env, log', Inserted(log')[0], point)
                          && Inserted(log')[1..] == ClickEvents(button, clicks))
            && (r.Raise? && r.error.code != STATE_UNCERTAIN ==>
                  || (Inserted(log') == [] && r.error == Plain(r.error.code))
                  || (r.error.code == LIMITATION && ClickUndone(Inserted(log'), button, clicks)
                      && env.cursor(log).Some? && EndsAt(log', env.cursor(log).value) && r.error.before == env.cursor(log)))
            && (r.Raise? && r.error.code == STATE_UNCERTAIN ==>
                  Inserted(log') != [] && env.cursor(log).Some?
                  && !(ClickUndone(Inserted(log'), button, clicks) && EndsAt(log', env.cursor(log).value)))
  {
    hide CursorStep, InsertStep, WaitStep, RestoreStep, MoveStep, RepairStep, Inserted, Guarded, EndsAt, Plausible, MoveTo, ClickEvents;
    var events := ClickEvents(button, clicks);
    assert events[..0] == [] && events[..|events|] == events;
    MoveEffect(env, log, point);
    var (log1, before) := MoveStep(env, log, point);
    if before.Raise? {
      ShortMeansBare(Inserted(log1), button, clicks);
      return;
    }
    var move := Inserted(log1)[0];
    AimsMove(env, log1, move, point);
    assert Inserted(log1) == [move] == [move] + events[..0];
    InsertEffect(env, log1, events);
    var (log2, inserted) := InsertStep(env, log1, events);
    if inserted.Raise? || inserted.value != |events| {
      RepairEffect(env, log2, before.value, point, button, clicks, if inserted.Ok? then inserted.value else 0, move);
      return;
    }
    assert Inserted(log2) == [move] + events;
    WaitEffect(env, log2, point, env.polls(log2));
    var (log3, observed) := WaitStep(env, log2, point, env.polls(log2));
    if observed == Ok(point) {
      AimsGrows(env, log1, log3, move, point);
      return;
    }
    CompensatedClick(env, log3, before.value, if observed.Ok? then Some(observed.value) else None, point, button, clicks, move);
  }

  lemma CompensatedClick(env: Env, log: Log, before: Point, seen: Option<Point>, target: Point, button: Button, clicks: nat, move: Event)
    requires Plausible(env) && IsMove(move) && Inserted(log) == [move] + ClickEvents(button, clicks)
    ensures var (log', e) := CompensateStep(env, log, before, seen, target);
            && (Guarded(log) ==> Guarded(log')) && e.code in {LIMITATION, STATE_UNCERTAIN} && e.before == Some(before)
            && Inserted(log') != []
            && (e.code == LIMITATION <==> EndsAt(log', before) && ClickUndone(Inserted(log'), button, clicks))
  {
    hide RestoreStep, Inserted, Guarded, EndsAt, Plausible, MoveTo, ClickEvents, Undone;
    var events := ClickEvents(button, clicks);
    ClickLength(button, clicks);
    var back := MoveTo(env, log, before);
    MoveToMoves(env, log, before);
    RestoreEffect(env, log, [back], before, seen, target);
    var n := RestoreInserts(env, log, [back], before, seen, target);
    assert events[..|events|] == events;
    assert ReleasedClick(button, clicks, |events|) == events + [] == events;
    UndoneThere(move, events, back);
    ClickHoldsNoMove(button, clicks);
    WholeOrNot([move] + events, [back], n, button, clicks);
    assert [back][..1] == [back];
    assert ClickUndone([move] + events + [back], button, clicks);
  }

  // ---- Nothing stays pressed ----

  lemma HeldPush(events: seq<Event>, e: Event)
    ensures HeldAfter(events + [e]) == Apply(HeldAfter(events), e)
  {
    assert (events + [e])[..|events|] == events;
  }

  lemma {:induction false} HeldClicks(s: seq<Event>, button: Button, clicks: nat, k: nat)
    requires HeldAfter(s) == {} && k <= |ClickEvents(button, clicks)|
    ensures HeldAfter(s + ClickEvents(button, clicks)[..k]) == if k % 2 == 1 then {HeldButton(button)} else {}
  {
    hide HeldAfter, ClickEvents;
    var events := ClickEvents(button, clicks);
    if k == 0 {
      assert s + events[..0] == s;
    } else {
      HeldClicks(s, button, clicks, k - 1);
      ClickAt(button, clicks, k - 1);
      OneMore(s, events, k);
      HeldPush(s + events[..k - 1], events[k - 1]);
    }
  }

  lemma OneMore(s: seq<Event>, events: seq<Event>, k: nat)
    requires 0 < k <= |events|
    ensures s + events[..k] == s + events[..k - 1] + [events[k - 1]]
  {
    assert events[..k] == events[..k - 1] + [events[k - 1]];
  }

  lemma {:induction false} ClickAt(button: Button, clicks: nat, i: nat)
    requires i < |ClickEvents(button, clicks)|
    ensures ClickEvents(button, clicks)[i] == if i % 2 == 0 then Press(button) else Release(button)
  {
    ClickLength(button, clicks - 1);
    if i < 2 * (clicks - 1) { ClickAt(button, clicks - 1, i); }
  }

  lemma UndoneHoldsNothing(events: seq<Event>, button: Button, clicks: nat)
    requires ClickUndone(events, button, clicks)
    ensures HeldAfter(events) == {}
  {
    hide HeldAfter, ClickEvents;
    var k: nat :| k <= |ClickEvents(button, clicks)| && Undone(events, ReleasedClick(button, clicks, k));
    HeldNothing();
    var first, last := events[0], events[|events| - 1];
    var part := ClickEvents(button, clicks)[..k];
    HeldPush([], first);
    assert [] + [first] == [first];
    HeldClicks([first], button, clicks, k);
    HeldPush([first] + part, Release(button));
    var middle := ReleasedClick(button, clicks, k);
    var all := [first] + middle;
    assert all == if k % 2 == 1 then [first] + part + [Release(button)] else [first] + part;
    HeldPush(all, last);
    assert events[1..|events| - 1] == middle;
    assert events == all + [last];
  }

  function KeySet(keys: seq<nat>): set<Held> { set k | k in keys :: HeldKey(k) }

  lemma KeySetPush(init: seq<nat>, last: nat)
    ensures KeySet(init + [last]) == KeySet(init) + {HeldKey(last)}
  {}

  lemma {:induction false} HeldDowns(s: seq<Event>, keys: seq<nat>)
    requires HeldAfter(s) == {}
    ensures HeldAfter(s + KeyDowns(keys)) == KeySet(keys)
  {
    hide HeldAfter;
    if keys == [] {
      assert s + [] == s;
    } else {
      var init, last := keys[..|keys| - 1], keys[|keys| - 1];
      assert keys == init + [last];
      KeySetPush(init, last);
      HeldDowns(s, init);
      HeldPush(s + KeyDowns(init), KeyDown(last));
      assert s + KeyDowns(keys) == s + KeyDowns(init) + [KeyDown(last)];
      hide KeySet, KeyDowns;
    }
  }

  lemma {:induction false} HeldUps(s: seq<Event>, keys: seq<nat>)
    requires HeldAfter(s) <= KeySet(keys)
    ensures HeldAfter(s + KeyUps(keys)) == {}
    decreases keys
  {
    hide HeldAfter;
    if keys == [] {
      assert s + [] == s;
    } else {
      var init, last := keys[..|keys| - 1], keys[|keys| - 1];
      assert keys == init + [last];
      KeySetPush(init, last);
      HeldPush(s, KeyUp(last));
      HeldUps(s + [KeyUp(last)], init);
      assert s + KeyUps(keys) == s + [KeyUp(last)] + KeyUps(init);
    }
  }

  lemma {:induction false} HeldPresses(key: nat, presses: nat)
    ensures HeldAfter(PressEvents(key, presses)) == {}
  {
    if presses > 0 {
      var init := PressEvents(key, presses - 1);
      HeldPresses(key, presses - 1);
      HeldPush(init, KeyDown(key));
      HeldPush(init + [KeyDown(key)], KeyUp(key));
      assert PressEvents(key, presses) == init + [KeyDown(key)] + [KeyUp(key)];
    }
  }

  lemma {:induction false} HeldText(units: seq<nat>)
    ensures HeldAfter(TextEvents(units)) == {}
  {
    if units != [] {
      var init, u := units[..|units| - 1], units[|units| - 1];
      HeldText(init);
      HeldPush(TextEvents(init), UnicodeDown(u));
      HeldPush(TextEvents(init) + [UnicodeDown(u)], UnicodeUp(u));
      assert TextEvents(units) == TextEvents(init) + [UnicodeDown(u)] + [UnicodeUp(u)];
    }
  }

  /** A whole batch, a chord with repeated keys included, leaves nothing pressed. */
  lemma WholeBatchReleases(m: Mutation)
    ensures HeldAfter(Batch(m)) == {}
  {
    match m
    case TypeText(units) => HeldText(units);
    case PressKey(key, presses) => HeldPresses(key, presses);
    case Hotkey(keys) =>
      HeldDowns([], keys);
      assert [] + KeyDowns(keys) == KeyDowns(keys);
      HeldUps(KeyDowns(keys), keys);
    case ScrollWheel(dx, dy) =>
      HeldPush([], Wheel(true, dx));
      HeldPush([], Wheel(false, dy));
      HeldPush([Wheel(true, dx)], Wheel(false, dy));
      assert [Wheel(true, dx)] + [Wheel(false, dy)] == [Wheel(true, dx), Wheel(false, dy)];
      assert [] + [Wheel(true, dx)] == [Wheel(true, dx)] && [] + [Wheel(false, dy)] == [Wheel(false, dy)];
    case _ =>
  }

  // ---- What the batches spell ----

  lemma {:induction false} TextSpells(units: seq<nat>, i: nat)
    ensures |TextEvents(units)| == 2 * |units|
    ensures i < |units| ==> TextEvents(units)[2 * i] == UnicodeDown(units[i]) && TextEvents(units)[2 * i + 1] == UnicodeUp(units[i])
  {
    if units != [] {
      var init := units[..|units| - 1];
      TextSpells(init, if i < |init| then i else 0);
    }
  }

  lemma {:induction false} ChordSpells(keys: seq<nat>, i: nat)
    ensures |KeyDowns(keys)| == |KeyUps(keys)| == |keys|
    ensures i < |keys| ==> KeyDowns(keys)[i] == KeyDown(keys[i]) && KeyUps(keys)[i] == KeyUp(keys[|keys| - 1 - i])
  {
    if keys != [] {
      var init := keys[..|keys| - 1];
      ChordSpells(init, if i < |init| then i else 0);
      if 0 < i < |keys| { ChordSpells(init, i - 1); }
    }
  }

  lemma {:induction false} PressSpells(key: nat, presses: nat, i: nat)
    ensures |PressEvents(key, presses)| == 2 * presses
    ensures i < presses ==> PressEvents(key, presses)[2 * i] == KeyDown(key) && PressEvents(key, presses)[2 * i + 1] == KeyUp(key)
  {
    if presses > 0 { PressSpells(key, presses - 1, if i < presses - 1 then i else 0); }
  }

  /** What each batch says, event by event: every unit of the text pressed and released in turn; the chord pressed
      in order and released in the reverse order; the key as often as asked; the horizontal wheel by dx and then
      the vertical one by dy, each only if it turns. */
  lemma BatchSpells(m: Mutation, i: nat)
    ensures match m
            case TypeText(units) =>
              && |Batch(m)| == 2 * |units|
              && (i < |units| ==> Batch(m)[2 * i] == UnicodeDown(units[i]) && Batch(m)[2 * i + 1] == UnicodeUp(units[i]))
            case Hotkey(keys) =>
              && |Batch(m)| == 2 * |keys|
              && (i < |keys| ==> Batch(m)[i] == KeyDown(keys[i]) && Batch(m)[2 * |keys| - 1 - i] == KeyUp(keys[i]))
            case PressKey(key, presses) =>
              && |Batch(m)| == 2 * presses
              && (i < presses ==> Batch(m)[2 * i] == KeyDown(key) && Batch(m)[2 * i + 1] == KeyUp(key))
            case ScrollWheel(dx, dy) =>
              && (dx != 0 && dy != 0 ==> Batch(m) == [Wheel(true, dx), Wheel(false, dy)])
              && (dx != 0 && dy == 0 ==> Batch(m) == [Wheel(true, dx)])
              && (dx == 0 && dy != 0 ==> Batch(m) == [Wheel(false, dy)])
              && (dx == 0 && dy == 0 ==> Batch(m) == [])
            case _ => true
  {
    match m
    case TypeText(units) => TextSpells(units, i);
    case Hotkey(keys) => ChordSpells(keys, i); if i < |keys| { ChordSpells(keys, |keys| - 1 - i); }
    case PressKey(key, presses) => PressSpells(key, presses, i);
    case _ =>
  }

  // ---- What send may report ----

  function TargetOf(m: Mutation): Option<Point> {
    match m
    case MovePointer(p) => Some(p)
    case ClickPointer(p, _, _) => Some(p)
    case _ => None
  }

  /** All of the mutation was inserted, and a pointer mutation left the cursor at its target. */
  ghost predicate Performed(env: Env, log: Log, m: Mutation) {
    var events := Inserted(log);
    match m
    case MovePointer(p) => EndsAt(log, p) && |events| == 1 && AimsAt(env, log, events[0], p)
    case ClickPointer(p, button, clicks) =>
      EndsAt(log, p) && |events| > 0 && AimsAt(env, log, events[0], p) && events[1..] == ClickEvents(button, clicks)
    case _ => events == Batch(m) && events != []
  }

  /** Nothing is pressed, and the cursor was not moved or was last seen where it had been first. */
  ghost predicate Clean(env: Env, start: Log, log: Log) {
    && HeldAfter(Inserted(log)) == {}
    && ((forall e | e in Inserted(log) :: !IsMove(e)) || (env.cursor(start).Some? && LastSeen(log) == env.cursor(start)))
  }

  /** What `send` may have done, given how it ended. */
  ghost predicate Honest(env: Env, start: Log, m: Mutation, log: Log, failed: Option<Error>) {
    && (failed.None? ==> Performed(env, log, m) && HeldAfter(Inserted(log)) == {})
    && (failed.Some? && failed.value.code != STATE_UNCERTAIN ==> Clean(env, start, log))
    && (failed.Some? && failed.value.code in {EMERGENCY_STOP, STATE_CONFLICT} ==> Inserted(log) == [])
  }

  lemma MoveHonest(env: Env, start: Log, p: Point)
    requires Plausible(env) && Inserted(start) == [] && Guarded(start)
    ensures var (log, failed) := SendStep(env, start, MovePointer(p));
            Guarded(log) && Honest(env, start, MovePointer(p), log, failed)
  {
    hide MoveStep, Inserted, Guarded, EndsAt, Plausible, HeldAfter;
    MoveEffect(env, start, p);
    HeldNothing();
    var (log, failed) := SendStep(env, start, MovePointer(p));
    SeenAtEnd(log);
    if failed.None? || Undone(Inserted(log), []) { HeldMoves(Inserted(log)); }
    var r := MoveStep(env, start, p).1;
    assert failed.Some? ==> r.Raise? && failed.value == r.error;
  }

  lemma ClickHonest(env: Env, start: Log, p: Point, button: Button, clicks: nat)
    requires Plausible(env) && Inserted(start) == [] && Guarded(start)
    ensures var (log, failed) := SendStep(env, start, ClickPointer(p, button, clicks));
            Guarded(log) && Honest(env, start, ClickPointer(p, button, clicks), log, failed)
  {
    hide ClickStep, Inserted, Guarded, EndsAt, Plausible, HeldAfter, ClickUndone, ClickEvents;
    ClickEffect(env, start, p, button, clicks);
    HeldNothing();
    var (log, failed) := SendStep(env, start, ClickPointer(p, button, clicks));
    SeenAtEnd(log);
    if failed.None? { ClickReleases(Inserted(log), button, clicks); }
    if ClickUndone(Inserted(log), button, clicks) { UndoneHoldsNothing(Inserted(log), button, clicks); }
    var r := ClickStep(env, start, p, button, clicks).1;
    assert failed.Some? ==> r.Raise? && failed.value == r.error;
  }

  lemma BatchHonest(env: Env, start: Log, m: Mutation)
    requires Plausible(env) && Inserted(start) == [] && Guarded(start) && TargetOf(m).None?
    ensures var (log, failed) := SendStep(env, start, m);
            Guarded(log) && Honest(env, start, m, log, failed)
  {
    hide InsertStep, Inserted, Guarded, EndsAt, Plausible, HeldAfter, Batch;
    var events := Batch(m);
    InsertEffect(env, start, events);
    HeldNothing();
    WholeBatchReleases(m);
    assert events[..0] == [] && events[..|events|] == events;
    var inserted := InsertStep(env, start, events).1;
    var (log, failed) := SendStep(env, start, m);
    if inserted.Ok? { assert Inserted(log) == [] + events[..inserted.value] == events[..inserted.value]; }
    assert inserted.Raise? ==> failed == Some(inserted.error);
  }

  /** For every insertion count, cursor reading and refusal: `send` returns only when the whole mutation
      was performed and nothing is left pressed; any failure but state_uncertain leaves nothing pressed
      and the cursor untouched or back; and a refusal of the boundary check itself means that nothing was
      inserted. Every batch went out right behind its own boundary check. */
  lemma SendHonest(env: Env, start: Log, m: Mutation)
    requires Plausible(env) && Inserted(start) == [] && Guarded(start)
    ensures var (log, failed) := SendStep(env, start, m);
            && Guarded(log)
            && (failed.None? ==> Performed(env, log, m) && HeldAfter(Inserted(log)) == {})
            && (failed.Some? && failed.value.code != STATE_UNCERTAIN ==> Clean(env, start, log))
            && (failed.Some? && failed.value.code in {EMERGENCY_STOP, STATE_CONFLICT} ==> Inserted(log) == [])
  {
    hide SendStep, Performed, Clean, Guarded, Inserted, HeldAfter, Plausible;
    match m
    case MovePointer(p) => MoveHonest(env, start, p);
    case ClickPointer(p, button, clicks) => ClickHonest(env, start, p, button, clicks);
    case _ => BatchHonest(env, start, m);
  }

  lemma HeldNothing()
    ensures HeldAfter([]) == {}
  {}

  lemma {:induction false} HeldMoves(events: seq<Event>)
    requires forall i | 0 <= i < |events| :: IsMove(events[i])
    ensures HeldAfter(events) == {}
  {
    if events != [] { HeldMoves(events[..|events| - 1]); }
  }

  lemma ClickReleases(events: seq<Event>, button: Button, clicks: nat)
    requires |events| > 0 && IsMove(events[0]) && events[1..] == ClickEvents(button, clicks)
    ensures HeldAfter(events) == {}
  {
    ClickLength(button, clicks);
    HeldMoves([events[0]]);
    HeldClicks([events[0]], button, clicks, 2 * clicks);
    assert ClickEvents(button, clicks)[..2 * clicks] == ClickEvents(button, clicks);
    assert events == [events[0]] + events[1..];
  }

  /** A mutation without a pointer target is one batch, and its outcome follows the number of events that went in:
      refused by its check, it gets the check's code; none of them, or none to send, is a limitation; some is
      uncertain; all is success. */
  lemma BatchOutcome(env: Env, start: Log, m: Mutation)
    requires TargetOf(m).None?
    ensures var (log, failed) := SendStep(env, start, m);
            var refused := BoundaryCheck(env, start);
            if refused.Some? then log == start + [Checked(refused)] && failed == Some(Plain(refused.value))
            else
              exists n: nat ::
                && n == Min(env.insert(start + [Checked(None)]), |Batch(m)|)
                && log == start + [Checked(None)] + [Sent(Batch(m), n)]
                && failed == (if n == 0 then Some(Plain(LIMITATION)) else if n < |Batch(m)| then Some(Plain(STATE_UNCERTAIN)) else None)
  {
    hide Batch;
    var n: nat := Min(env.insert(start + [Checked(None)]), |Batch(m)|);
  }

  /** A desktop that refuses nothing, takes whole batches and has its cursor at `p` once something was sent. */
  ghost predicate Cooperative(env: Env, p: Point, atLeast: nat) {
    forall log ::
      && !env.stopped(log) && env.validate(log).None? && env.insert(log) >= atLeast && env.cursor(log).Some?
      && (Batches(log) > 0 ==> env.cursor(log) == Some(p))
  }

  lemma CooperativeWait(env: Env, p: Point, n: nat, log: Log, polls: nat)
    requires Cooperative(env, p, n) && Batches(log) > 0
    ensures WaitStep(env, log, p, polls) == (log + [Saw(Some(p))], Ok(p)) && Batches(log + [Saw(Some(p))]) > 0
  {
    BatchesPush(log, Saw(Some(p)));
  }

  lemma CooperativeMove(env: Env, p: Point, n: nat, log: Log)
    requires Cooperative(env, p, n) && n >= 1
    ensures MoveStep(env, log, p).1.Ok? && Batches(MoveStep(env, log, p).0) > 0
  {
    hide MoveTo, WaitStep;
    var (log1, before) := CursorStep(env, log);
    var move := MoveTo(env, log1, p);
    var (log2, inserted) := InsertStep(env, log1, [move]);
    BatchesPush(log1 + [Checked(None)], Sent([move], 1));
    assert inserted == Ok(inserted.value) && inserted.value == 1;
    CooperativeWait(env, p, n, log2, env.polls(log2));
  }

  /** On such a desktop every move and every click succeeds. */
  lemma CooperativeSucceeds(env: Env, start: Log, m: Mutation)
    requires TargetOf(m).Some? && Cooperative(env, TargetOf(m).value, if m.ClickPointer? then 2 * m.clicks + 1 else 1)
    ensures SendStep(env, start, m).1.None?
  {
    var p := TargetOf(m).value;
    var n := if m.ClickPointer? then 2 * m.clicks + 1 else 1;
    CooperativeMove(env, p, n, start);
    if m.ClickPointer? {
      hide MoveStep, ClickEvents, WaitStep;
      ClickLength(m.button, m.clicks);
      var log1 := MoveStep(env, start, p).0;
      var events := ClickEvents(m.button, m.clicks);
      var (log2, inserted) := InsertStep(env, log1, events);
      BatchesPush(log1, Checked(None));
      BatchesPush(log1 + [Checked(None)], Sent(events, |events|));
      assert inserted.Ok? && inserted.value == |events|;
      CooperativeWait(env, p, n, log2, env.polls(log2));
    }
  }

  /** Waiting reads at most once more than the deadline allows polls, stops at the first reading that fails or
      shows the target, and gives up off target only after all of them. */
  lemma {:induction false} WaitExact(env: Env, log: Log, target: Point, polls: nat)
    ensures var (log', r) := WaitStep(env, log, target, polls);
            && log <= log' && 1 <= |log'| - |log| <= polls + 1
            && (forall i | |log| <= i < |log'| - 1 :: log'[i].Saw? && log'[i].at.Some? && log'[i].at != Some(target))
            && (r.Ok? && r.value != target ==> |log'| - |log| == polls + 1)
            && log'[|log'| - 1] == Saw(if r.Ok? then Some(r.value) else None)
    decreases polls
  {
    var (log1, at) := CursorStep(env, log);
    if !(at.Raise? || polls == 0 || at.value == target) {
      WaitExact(env, log1, target, polls - 1);
      assert log1[|log|] == Saw(Some(at.value));
    }
  }

  // ---- The controller around it, inside the gate ----

  function StopStep(env: Env, log: Log): (Log, Option<Code>) {
    var refused := if env.stopped(log) then Some(EMERGENCY_STOP) else None;
    (log + [Checked(refused)], refused)
  }

  function ValidateStep(env: Env, log: Log): (Log, Option<Code>) {
    var refused := env.validate(log);
    (log + [Checked(refused)], refused)
  }

  /** The checks before the mutation itself: the gate's own two, and those of the callback it runs.
      `mapped` is None when the coordinates belong to no current observation. */
  function ChecksStep(env: Env, log: Log, mapped: Option<Mutation>): (Log, Option<Code>) {
    var (log1, c1) := StopStep(env, log);
    if c1.Some? then (log1, c1)
    else
      var (log2, c2) := ValidateStep(env, log1);
      if c2.Some? then (log2, c2)
      else
        var (log3, c3) := StopStep(env, log2);
        if c3.Some? then (log3, c3)
        else if mapped.None? then (log3, Some(STATE_CONFLICT))
        else ValidateStep(env, log3)
  }

  /** `mutate` with the lock held. */
  function MutateStep(env: Env, log: Log, mapped: Option<Mutation>): (Log, Option<Error>) {
    var (log1, refused) := ChecksStep(env, log, mapped);
    if refused.Some? || mapped.None? then (log1, Some(Plain(if refused.Some? then refused.value else STATE_CONFLICT)))
    else
      var (log2, failed) := SendStep(env, log1, mapped.value);
      if failed.Some? then (log2, failed)
      else
        var (log3, late) := ValidateStep(env, log2);
        // A foreground change seen after the input is no promise that it may be sent again.
        (log3, if late == Some(STATE_CONFLICT) then Some(Plain(STATE_UNCERTAIN))
               else if late.Some? then Some(Plain(late.value)) else None)
  }

  class DesktopInputController {
    const backend: Win32InputBackend

    constructor (backend: Win32InputBackend)
      ensures this.backend == backend
    {
      this.backend := backend;
    }

    method Stop() returns (refused: Option<Code>)
      modifies backend
      ensures (backend.log, refused) == StopStep(backend.env, old(backend.log))
    {
      refused := if backend.env.stopped(backend.log) then Some(EMERGENCY_STOP) else None;
      backend.log := backend.log + [Checked(refused)];
    }

    method Validate() returns (refused: Option<Code>)
      modifies backend
      ensures (backend.log, refused) == ValidateStep(backend.env, old(backend.log))
    {
      refused := backend.env.validate(backend.log);
      backend.log := backend.log + [Checked(refused)];
    }

    method Mutate(mapped: Option<Mutation>) returns (failed: Option<Error>)
      modifies backend
      ensures (backend.log, failed) == MutateStep(backend.env, old(backend.log), mapped)
    {
      hide SendStep;
      var refused := Stop();
      if refused != None { return Some(Plain(refused.value)); }
      refused := Validate();
      if refused != None { return Some(Plain(refused.value)); }
      refused := Stop();
      if refused != None { return Some(Plain(refused.value)); }
      if mapped == None { return Some(Plain(STATE_CONFLICT)); }
      refused := Validate();
      if refused != None { return Some(Plain(refused.value)); }
      failed := backend.Send(mapped.value);
      if failed != None { return; }
      refused := Validate();
      if refused == Some(STATE_CONFLICT) { return Some(Plain(STATE_UNCERTAIN)); }
      if refused != None { return Some(Plain(refused.value)); }
      return None;
    }
  }

  /** Everything was delivered, and then the last validation refused. */
  ghost predicate DeliveredThenRefused(env: Env, log: Log, m: Mutation) {
    log != [] && log[|log| - 1] == Checked(Some(LIMITATION)) && Performed(env, log[..|log| - 1], m)
  }

  lemma ChecksInsertNothing(log: Log, refused: Option<Code>)
    requires Inserted(log) == [] && Guarded(log)
    ensures Inserted(log + [Checked(refused)]) == [] && Guarded(log + [Checked(refused)])
  {
    InsertedPush(log, Checked(refused));
    GuardedPush(log, Checked(refused));
  }

  lemma ChecksEffect(env: Env, mapped: Option<Mutation>)
    requires Plausible(env)
    ensures var (log, refused) := ChecksStep(env, [], mapped);
            Inserted(log) == [] && Guarded(log) && refused != Some(STATE_UNCERTAIN)
  {
    assert Inserted([]) == [] && Guarded([]);
    hide Inserted, Guarded;
    var (log1, c1) := StopStep(env, []);
    ChecksInsertNothing([], c1);
    var (log2, c2) := ValidateStep(env, log1);
    ChecksInsertNothing(log1, c2);
    var (log3, c3) := StopStep(env, log2);
    ChecksInsertNothing(log2, c3);
    ChecksInsertNothing(log3, env.validate(log3));
  }

  /** The mutation returned, and the validation behind it refuses with a limitation. */
  predicate LateRefusal(env: Env, mapped: Option<Mutation>) {
    var (start, refused) := ChecksStep(env, [], mapped);
    && refused.None? && mapped.Some?
    && var (log, failed) := SendStep(env, start, mapped.value);
       failed.None? && env.validate(log) == Some(LIMITATION)
  }

  /** `mutate` reports success only after the whole mutation. A code other than state_uncertain means that
      nothing is pressed; and it means that the cursor is untouched or back if and only if it was not a
      pointer mutation that had returned before the last validation refused, its target elsewhere than the
      cursor had been. */
  lemma MutateHonest(env: Env, mapped: Option<Mutation>)
    requires Plausible(env)
    ensures var start := ChecksStep(env, [], mapped).0;
            var (log, failed) := MutateStep(env, [], mapped);
            && Guarded(log)
            && (failed.None? ==> mapped.Some? && log != [] && Performed(env, log[..|log| - 1], mapped.value))
            && (failed.None? || failed.value.code != STATE_UNCERTAIN ==> HeldAfter(Inserted(log)) == {})
            && (LateRefusal(env, mapped) ==>
                  failed == Some(Plain(LIMITATION)) && DeliveredThenRefused(env, log, mapped.value))
            && (failed.Some? && failed.value.code != STATE_UNCERTAIN ==>
                  (Clean(env, start, log) <==>
                     !(LateRefusal(env, mapped) && TargetOf(mapped.value).Some? && TargetOf(mapped.value) != env.cursor(start))))
            && (failed.Some? && failed.value.code in {EMERGENCY_STOP, STATE_CONFLICT} ==> Inserted(log) == [])
  {
    ChecksEffect(env, mapped);
    HeldNothing();
    hide ChecksStep, SendStep, Inserted, Guarded, HeldAfter, Performed, LastSeen;
    var (start, refused) := ChecksStep(env, [], mapped);
    if refused.None? && mapped.Some? {
      SendHonest(env, start, mapped.value);
      var (log2, failed) := SendStep(env, start, mapped.value);
      if failed.None? {
        LastValidation(env, log2);
        DisplacedIff(env, start, log2, ValidateStep(env, log2).0, mapped.value);
      }
      hide Clean;
    }
  }

  /** What a refusal behind a performed mutation makes of it. */
  lemma DisplacedIff(env: Env, start: Log, log: Log, log': Log, m: Mutation)
    requires Performed(env, log, m) && HeldAfter(Inserted(log)) == {}
    requires Inserted(log') == Inserted(log) && LastSeen(log') == LastSeen(log)
    ensures Clean(env, start, log') <==> !(TargetOf(m).Some? && TargetOf(m) != env.cursor(start))
  {
    hide Inserted, HeldAfter, LastSeen, EndsAt, ClickEvents, AimsAt, Batch;
    SeenAtEnd(log);
    var events := Inserted(log);
    match m
    case MovePointer(p) => AimsMove(env, log, events[0], p); assert events[0] in events;
    case ClickPointer(p, _, _) => AimsMove(env, log, events[0], p); assert events[0] in events;
    case _ => NoMoves(m);
  }

  lemma {:induction false} NoKeyMoves(keys: seq<nat>)
    ensures forall e | e in KeyDowns(keys) || e in KeyUps(keys) || e in TextEvents(keys) :: !IsMove(e)
  {
    if keys != [] { NoKeyMoves(keys[..|keys| - 1]); }
  }

  lemma {:induction false} NoPressMoves(key: nat, presses: nat)
    ensures forall e | e in PressEvents(key, presses) :: !IsMove(e)
  {
    if presses > 0 { NoPressMoves(key, presses - 1); }
  }

  lemma NoMoves(m: Mutation)
    ensures forall e | e in Batch(m) :: !IsMove(e)
  {
    match m
    case TypeText(units) => NoKeyMoves(units);
    case Hotkey(keys) => NoKeyMoves(keys);
    case PressKey(key, presses) => NoPressMoves(key, presses);
    case _ =>
  }

  lemma LastValidation(env: Env, log: Log)
    requires Guarded(log)
    ensures var log' := ValidateStep(env, log).0;
            && log' != [] && log'[|log'| - 1] == Checked(env.validate(log)) && log'[..|log'| - 1] == log
            && Inserted(log') == Inserted(log) && Guarded(log') && LastSeen(log') == LastSeen(log)
  {
    InsertedPush(log, Checked(env.validate(log)));
    GuardedPush(log, Checked(env.validate(log)));
    assert Inserted(log) + [] == Inserted(log);
  }

  /** Nothing is sent unless the marker was absent twice and the desktop valid twice before it, in this order, and
      the coordinates belonged to the current observation; the first of these to fail is what is reported. */
  lemma ChecksExact(env: Env, mapped: Option<Mutation>)
    ensures var c := Checked(None);
            var (log, failed) := MutateStep(env, [], mapped);
            && (env.stopped([]) ==> log == [Checked(Some(EMERGENCY_STOP))] && failed == Some(Plain(EMERGENCY_STOP)))
            && (!env.stopped([]) && env.validate([c]).Some? ==>
                  log == [c, Checked(env.validate([c]))] && failed == Some(Plain(env.validate([c]).value)))
            && (!env.stopped([]) && env.validate([c]).None? && env.stopped([c, c]) ==>
                  log == [c, c, Checked(Some(EMERGENCY_STOP))] && failed == Some(Plain(EMERGENCY_STOP)))
            && (!env.stopped([]) && env.validate([c]).None? && !env.stopped([c, c]) && mapped.None? ==>
                  log == [c, c, c] && failed == Some(Plain(STATE_CONFLICT)))
            && (!env.stopped([]) && env.validate([c]).None? && !env.stopped([c, c]) && mapped.Some? && env.validate([c, c, c]).Some? ==>
                  log == [c, c, c, Checked(env.validate([c, c, c]))] && failed == Some(Plain(env.validate([c, c, c]).value)))
            && (!env.stopped([]) && env.validate([c]).None? && !env.stopped([c, c]) && mapped.Some? && env.validate([c, c, c]).None? ==>
                  var (sent, result) := SendStep(env, [c, c, c, c], mapped.value);
                  if result.Some? then failed == result && log == sent
                  else failed == match env.validate(sent)
                                 case None => None
                                 case Some(STATE_CONFLICT) => Some(Plain(STATE_UNCERTAIN))
                                 case Some(code) => Some(Plain(code)))
  {
    hide SendStep;
    var c := Checked(None);
    assert [] + [c] == [c] && [c] + [c] == [c, c] && [c, c] + [c] == [c, c, c] && [c, c, c] + [c] == [c, c, c, c];
  }

  // ---- What limitation does not promise ----

  function Batches(log: Log): nat {
    if log == [] then 0 else Batches(log[..|log| - 1]) + if log[|log| - 1].Sent? then 1 else 0
  }

  /** A desktop whose cursor follows the first batch from `home` to `p`, and that locks itself then. */
  function MovingDesktop(p: Point, home: Point): Env {
    Env(log => false, (log: Log) => if Batches(log) > 0 then Some(LIMITATION) else None, log => 1,
        (log: Log) => Some(if Batches(log) > 0 then p else home), log => Metrics(0, 0, 1920, 1080), log => 0)
  }

  lemma BatchesPush(log: Log, e: Entry)
    ensures Batches(log + [e]) == Batches(log) + if e.Sent? then 1 else 0
  {
    assert (log + [e])[..|log|] == log;
  }

  /** The exception is real: the cursor is first seen at `home`, is moved to `p` and stays there, and a plain
      limitation is reported. */
  lemma LimitationAfterDelivery(p: Point, home: Point)
    requires p != home
    ensures var env := MovingDesktop(p, home);
            var start := ChecksStep(env, [], Some(MovePointer(p))).0;
            var (log, failed) := MutateStep(env, [], Some(MovePointer(p)));
            && Plausible(env) && failed == Some(Plain(LIMITATION)) && DeliveredThenRefused(env, log, MovePointer(p))
            && env.cursor(start) == Some(home) && LastSeen(log) == Some(p) && !Clean(env, start, log)
  {
    var env, m := MovingDesktop(p, home), MovePointer(p);
    var c := Checked(None);
    var start := [] + [c] + [c] + [c] + [c];
    BatchesPush([], c);
    BatchesPush([] + [c], c);
    BatchesPush([] + [c] + [c], c);
    BatchesPush([] + [c] + [c] + [c], c);
    assert Batches(start) == 0 && ChecksStep(env, [], Some(m)) == (start, None);
    var log := MoveOnMovingDesktop(p, home, start);
    hide ChecksStep, SendStep, Batches, Inserted, HeldAfter, Guarded, Performed, Clean, LastSeen;
    MutateHonest(env, Some(m));
    ChecksEffect(env, Some(m));
    SendHonest(env, start, m);
    assert LastSeen(log) == Some(p) by { PerformedSeen(env, log, p); }
    LastValidation(env, log);
  }

  lemma PerformedSeen(env: Env, log: Log, p: Point)
    requires Performed(env, log, MovePointer(p))
    ensures LastSeen(log) == Some(p)
  {
    SeenAtEnd(log);
  }

  lemma MoveOnMovingDesktop(p: Point, home: Point, start: Log) returns (log: Log)
    requires Batches(start) == 0
    ensures SendStep(MovingDesktop(p, home), start, MovePointer(p)) == (log, None) && Batches(log) == 1
  {
    var env := MovingDesktop(p, home);
    var log1 := start + [Saw(Some(home))];
    BatchesPush(start, Saw(Some(home)));
    var events := [MoveTo(env, log1, p)];
    var log2 := log1 + [Checked(None)];
    BatchesPush(log1, Checked(None));
    var log3 := log2 + [Sent(events, 1)];
    BatchesPush(log2, Sent(events, 1));
    log := log3 + [Saw(Some(p))];
    BatchesPush(log3, Saw(Some(p)));
    assert WaitStep(env, log3, p, 0) == (log, Ok(p));
  }

  /** A click delivered in full whose cursor then strayed and was brought back. */
  function StrayingDesktop(p: Point, home: Point): Env {
    Env(log => false, log => None, log => 9,
        (log: Log) => Some(if Batches(log) == 1 then p else home), log => Metrics(0, 0, 1920, 1080), log => 0)
  }

  lemma StrayingMove(p: Point, home: Point) returns (log3: Log, move: Event)
    requires p != home
    ensures MoveStep(StrayingDesktop(p, home), [], p) == (log3, Ok(home))
    ensures Inserted(log3) == [move] && IsMove(move) && Batches(log3) == 1
  {
    var env := StrayingDesktop(p, home);
    assert Batches([]) == 0 && Inserted([]) == [];
    var log1 := SawOn(env, [], home);
    move := MoveTo(env, log1, p);
    MoveToMoves(env, log1, p);
    var log2 := SentOn(env, log1, [move]);
    log3 := SawOn(env, log2, p);
    assert WaitStep(env, log2, p, 0) == (log3, Ok(p));
    hide WaitStep, CursorStep, InsertStep, Batches, MoveTo, Inserted;
  }

  lemma StrayingReturn(p: Point, home: Point, log5: Log) returns (log7: Log, back: Event)
    requires Batches(log5) == 2
    ensures CompensateStep(StrayingDesktop(p, home), log5, home, Some(home), p)
         == (log7, Error(LIMITATION, Some(home), Some(home), Some(p)))
    ensures Inserted(log7) == Inserted(log5) + [back] && IsMove(back)
  {
    var env := StrayingDesktop(p, home);
    back := MoveTo(env, log5, home);
    MoveToMoves(env, log5, home);
    var log6 := SentOn(env, log5, [back]);
    log7 := SawOn(env, log6, home);
    assert WaitStep(env, log6, home, 0) == (log7, Ok(home));
    hide WaitStep, CursorStep, InsertStep, Batches, MoveTo, Inserted;
  }

  /** Nor does a limitation with the cursor back mean that the click did not happen: here all of it was
      delivered at the target. */
  lemma LimitationAfterWholeClick(p: Point, home: Point, button: Button)
    requires p != home
    ensures var env := StrayingDesktop(p, home);
            var (log, failed) := SendStep(env, [], ClickPointer(p, button, 1));
            && Plausible(env) && failed.Some? && failed.value.code == LIMITATION
            && Undone(Inserted(log), [Press(button), Release(button)])
  {
    hide ClickStep, InsertStep, CompensateStep, Batches, MoveStep, Inserted, ClickEvents, WaitStep, StrayingDesktop, IsMove, Plausible, Undone;
    var env := StrayingDesktop(p, home);
    StrayingPlausible(p, home);
    OneClick(button);
    var log3, move := StrayingMove(p, home);
    var log4, log5 := StrayingClick(p, home, log3, ClickEvents(button, 1));
    var log7, back := StrayingReturn(p, home, log5);
    ClickStrays(env, p, home, button, 1, log3, log4, log5, log7, Error(LIMITATION, Some(home), Some(home), Some(p)));
    TookBack(Inserted(log7), move, button, back);
  }

  lemma StrayingPlausible(p: Point, home: Point)
    ensures Plausible(StrayingDesktop(p, home))
  {}

  lemma OneClick(button: Button)
    ensures ClickEvents(button, 1) == [Press(button), Release(button)]
  {
    assert ClickEvents(button, 0) == [];
  }

  lemma TookBack(events: seq<Event>, move: Event, button: Button, back: Event)
    requires IsMove(move) && IsMove(back) && events == [move] + [Press(button), Release(button)] + [back]
    ensures Undone(events, [Press(button), Release(button)])
  {}

  lemma ClickStrays(env: Env, p: Point, home: Point, button: Button, clicks: nat, log3: Log, log4: Log, log5: Log, log7: Log, e: Error)
    requires MoveStep(env, [], p) == (log3, Ok(home)) && p != home
    requires var events := ClickEvents(button, clicks);
             var r := InsertStep(env, log3, events);
             r.0 == log4 && r.1.Ok? && r.1.value == |events|
    requires WaitStep(env, log4, p, env.polls(log4)) == (log5, Ok(home))
    requires CompensateStep(env, log5, home, Some(home), p) == (log7, e)
    ensures ClickStep(env, [], p, button, clicks) == (log7, Raise(e))
  {
    hide InsertStep, CompensateStep, MoveStep, ClickEvents, WaitStep;
  }

  lemma StrayingClick(p: Point, home: Point, log3: Log, events: seq<Event>) returns (log4: Log, log5: Log)
    requires p != home && Batches(log3) == 1 && |events| <= 9
    ensures var env := StrayingDesktop(p, home);
            && InsertStep(env, log3, events).0 == log4 && InsertStep(env, log3, events).1.Ok?
            && InsertStep(env, log3, events).1.value == |events|
            && WaitStep(env, log4, p, env.polls(log4)) == (log5, Ok(home))
            && Inserted(log5) == Inserted(log3) + events && Batches(log5) == 2
  {
    var env := StrayingDesktop(p, home);
    log4 := SentOn(env, log3, events);
    log5 := SawOn(env, log4, home);
    assert WaitStep(env, log4, p, 0) == (log5, Ok(home));
    hide WaitStep, CursorStep, InsertStep, Batches, Inserted;
  }

  /** One unrefused batch of a desktop that inserts everything. */
  lemma SentOn(env: Env, log: Log, events: seq<Event>) returns (log': Log)
    requires env.stopped(log) == false && env.validate(log) == None && |events| <= env.insert(log + [Checked(None)])
    ensures InsertStep(env, log, events).0 == log' && InsertStep(env, log, events).1.Ok? && InsertStep(env, log, events).1.value == |events|
    ensures Inserted(log') == Inserted(log) + events && Batches(log') == Batches(log) + 1
  {
    BatchesPush(log, Checked(None));
    BatchesPush(log + [Checked(None)], Sent(events, |events|));
    InsertedPush(log, Checked(None));
    InsertedPush(log + [Checked(None)], Sent(events, |events|));
    assert events[..|events|] == events;
    log' := log + [Checked(None)] + [Sent(events, |events|)];
  }

  lemma SawOn(env: Env, log: Log, at: Point) returns (log': Log)
    requires env.cursor(log) == Some(at)
    ensures CursorStep(env, log) == (log', Ok(at)) && Inserted(log') == Inserted(log) && Batches(log') == Batches(log)
  {
    InsertedPush(log, Saw(Some(at)));
    BatchesPush(log, Saw(Some(at)));
    log' := log + [Saw(Some(at))];
  }
}
