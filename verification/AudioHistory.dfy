/** What the A2DP retry loop does, told over its own history: every decision is a
    question about what has happened so far. `AudioService` (its own module) keeps
    counters instead; it is proved to follow this account step for step. */
module AudioHistory {
  import opened Prelude
  import opened Backoff

  const CHECK_INTERVAL := 60.0
  const RETRY_BASE := 10.0
  const RETRY_MAX := 60.0
  const FLAP_WINDOW := 20.0
  const FLAP_LIMIT := 3
  const FLAP_COOLDOWN := 120.0
  const FAILURE_LIMIT := 5
  const FAILURE_COOLDOWN := 300.0
  const STANDBY_RECHECK := 300.0
  const POST_CONNECT_SETTLE := 5.0

  datatype Hold = Gate | FlapCooldown | FailureCooldown | Backoff

  datatype Event =
    | Up(at: Time)                          // audio became ready, and subscribers were told
    | Down(at: Time)                        // audio went away, and subscribers were told
    | Linked                                // the loop takes the link as up: the ladder starts over
    | Attempt(state: Option<SpeakerState>)  // ConnectProfile issued
    | Rescue                                // the attempt failed but the speaker connected by itself
    | Failure                               // an outright failure
    | Held(hold: Hold)                      // a wait begins
    | Released(hold: Hold, woken: bool)     // it ends, cut short by a strong wake or not
    | Pin                                   // the volume actuator was called
    | Forgot                                // the sink address was cleared
    | Resumed                               // an address is back

  datatype History = Start | Then(past: History, last: Event)

  // ---- Questions about a history ------------------------------------------

  function ReadySince(h: History): Option<Time> {
    if h.Start? then None
    else
      match h.last
      case Up(t) => Some(t)
      case Down(_) => None
      case _ => ReadySince(h.past)
  }

  predicate Ready(h: History) {
    ReadySince(h).Some?
  }

  predicate Short(since: Option<Time>, until: Time) {
    since.Some? && until - since.value < FLAP_WINDOW
  }

  /** Short connections since the last long one, cool-down or standby gate. */
  function Flaps(h: History): nat {
    if h.Start? then 0
    else
      match h.last
      case Down(t) => if Short(ReadySince(h.past), t) then Flaps(h.past) + 1 else 0
      case Held(Gate) => 0
      case Held(FlapCooldown) => 0
      case _ => Flaps(h.past)
  }

  /** Events that end a run of outright failures. */
  predicate EndsFailures(e: Event) {
    e.Linked? || e.Rescue? || e == Held(Gate) || e == Held(FailureCooldown) || e.Forgot? || e.Resumed?
  }

  /** Outright failures in the current run. */
  function Failures(h: History): nat {
    if h.Start? || EndsFailures(h.last) then 0
    else if h.last.Failure? then Failures(h.past) + 1
    else Failures(h.past)
  }

  /** The wait the next outright failure earns. */
  function Delay(h: History): real {
    if h.Start? then RETRY_BASE
    else
      match h.last
      case Released(Backoff, woken) => if woken then RETRY_BASE else Min(2.0 * Delay(h.past), RETRY_MAX)
      case Released(FlapCooldown, _) => RETRY_BASE
      case Released(FailureCooldown, _) => RETRY_BASE
      case Held(Gate) => RETRY_BASE
      case Linked => RETRY_BASE
      case Rescue => RETRY_BASE
      case Resumed => RETRY_BASE
      case _ => Delay(h.past)
  }

  function Count(h: History, pin: bool): nat {
    if h.Start? then 0
    else Count(h.past, pin) + if (if pin then h.last.Pin? else h.last.Up?) then 1 else 0
  }

  /** The readiness changes subscribers were told about, oldest first. */
  function Told(h: History): seq<bool> {
    if h.Start? then []
    else if h.last.Up? then Told(h.past) + [true]
    else if h.last.Down? then Told(h.past) + [false]
    else Told(h.past)
  }

  // ---- One turn of the loop -----------------------------------------------

  /** What other coroutines and the clock can do while the loop is suspended. */
  datatype Act =
    | Tick(d: Duration)
    | RetryNow
    | RecheckNow
    | UpdateAddress(address: string)
    | Forget
    | Join               // someone subscribes to readiness events
    | Take(who: nat)     // a subscriber takes its next event
    | Leave(who: nat)    // a subscriber leaves

  /** While a helper process is out, `forget` is not expected. */
  type InFlight = a: Act | !a.Forget? witness RetryNow

  datatype Reply = Reply(during: seq<InFlight>, ok: bool)

  /** Everything the outside world contributes to one turn. */
  datatype Turn = Turn(
    parked: seq<Act>,
    check: Reply,
    state: Option<SpeakerState>,
    connect: Reply,
    settle: seq<Act>,
    pin: seq<Act>,
    again: Reply,
    wait: seq<Act>)

  datatype World = World(h: History, clock: Time, address: Option<string>)

  function Log(w: World, e: Event): World {
    w.(h := Then(w.h, e))
  }

  function Rise(w: World): World {
    if Ready(w.h) then w else Log(w, Up(w.clock))
  }

  function Fall(w: World): World {
    if Ready(w.h) then Log(w, Down(w.clock)) else w
  }

  function Do(w: World, a: Act): World {
    match a
    case Tick(d) => w.(clock := w.clock + d)
    case UpdateAddress(s) => w.(address := Some(s))
    case Forget => Fall(Log(w.(address := None), Forgot))
    case _ => w
  }

  function DoAll(w: World, acts: seq<Act>): World
    decreases |acts|
  {
    if acts == [] then w else DoAll(Do(w, acts[0]), acts[1..])
  }

  /** Strong wakes cut any wait short; a recheck never counts as one. */
  predicate Strong(a: Act) {
    a.RetryNow? || a.UpdateAddress? || a.Forget?
  }

  predicate Woken(acts: seq<Act>) {
    exists i | 0 <= i < |acts| :: Strong(acts[i])
  }

  /** What happens during a wait of at most `delay`: everything up to the first strong
      wake, or the first recheck if the wait listens to those, or the timeout. */
  function Spent(delay: Duration, onRecheck: bool, acts: seq<Act>): seq<Act>
    decreases |acts|
  {
    if acts == [] then [Tick(delay)]
    else
      match acts[0]
      case Tick(d) =>
        if d >= delay then [Tick(delay)] else [acts[0]] + Spent(delay - d, onRecheck, acts[1..])
      case RecheckNow =>
        if onRecheck then [acts[0]] else [acts[0]] + Spent(delay, onRecheck, acts[1..])
      case _ => if Strong(acts[0]) then [acts[0]] else [acts[0]] + Spent(delay, onRecheck, acts[1..])
  }

  /** A sleep of exactly `delay` that nothing cuts short. */
  function Asleep(delay: Duration, acts: seq<Act>): seq<Act>
    decreases |acts|
  {
    if acts == [] || (acts[0].Tick? && acts[0].d >= delay) then [Tick(delay)]
    else [acts[0]] + Asleep(if acts[0].Tick? then delay - acts[0].d else delay, acts[1..])
  }

  function Length(w: World, hold: Hold): Duration {
    match hold
    case Gate => STANDBY_RECHECK
    case FlapCooldown => FLAP_COOLDOWN
    case FailureCooldown => FAILURE_COOLDOWN
    case Backoff => if Delay(w.h) > 0.0 then Delay(w.h) else 0.0
  }

  function HoldDuring(w: World, hold: Hold, acts: seq<Act>): World {
    Log(DoAll(Log(w, Held(hold)), acts), Released(hold, Woken(acts)))
  }

  function HoldFor(w: World, hold: Hold, acts: seq<Act>): World {
    HoldDuring(w, hold, Spent(Length(w, hold), false, acts))
  }

  function Step(w: World, t: Turn): World {
    if w.address.None? then StepParked(w, t)
    else
      var w := DoAll(w, t.check.during);
      if t.check.ok then StepConnected(w, t) else StepDisconnected(Fall(w), t)
  }

  function StepParked(w: World, t: Turn): World {
    var w := DoAll(Fall(w), t.parked);
    if w.address.None? then w else Log(w, Resumed)
  }

  function StepConnected(w: World, t: Turn): World {
    var up := Log(Rise(w), Linked);
    DoAll(if Ready(w.h) then up else DoAll(Log(up, Pin), t.pin), Spent(CHECK_INTERVAL, true, t.wait))
  }

  function StepDisconnected(w: World, t: Turn): World {
    if t.state == Some(Standby) then HoldFor(w, Gate, t.wait)
    else if Flaps(w.h) >= FLAP_LIMIT then HoldFor(w, FlapCooldown, t.wait)
    else
      var w := DoAll(Log(w, Attempt(t.state)), t.connect.during);
      if t.connect.ok then Connects(w, t)
      else
        var w := DoAll(w, t.again.during);
        if t.again.ok then Log(w, Rescue) else StepFailed(Log(w, Failure), t)
  }

  function Connects(w: World, t: Turn): World {
    DoAll(Log(DoAll(Log(Rise(w), Linked), Asleep(POST_CONNECT_SETTLE, t.settle)), Pin), t.pin)
  }

  function StepFailed(w: World, t: Turn): World {
    HoldFor(w, if Failures(w.h) >= FAILURE_LIMIT then FailureCooldown else Backoff, t.wait)
  }

  function Init(address: Option<string>, clock: Time): World {
    World(Start, clock, address)
  }

  function Run(w: World, turns: seq<Turn>): World {
    if turns == [] then w else Step(Run(w, turns[..|turns| - 1]), turns[|turns| - 1])
  }

  // ---- What every turn keeps ----------------------------------------------

  /** The backoff ladder, one rung per failure. */
  function Rung(k: nat): real {
    if k == 0 then 10.0 else if k == 1 then 20.0 else if k == 2 then 40.0 else 60.0
  }

  lemma {:induction false} RungMeaning(k: nat)
    ensures Rung(k) == Min(Grown(RETRY_BASE, 2.0, k), RETRY_MAX)
    ensures k >= 3 ==> Grown(RETRY_BASE, 2.0, k) >= 80.0
  {
    if k > 3 {
      RungMeaning(k - 1);
    } else {
      assert Grown(RETRY_BASE, 2.0, 1) == 20.0 && Grown(RETRY_BASE, 2.0, 2) == 40.0 && Grown(RETRY_BASE, 2.0, 3) == 80.0;
    }
  }

  /** Failures the ladder has forgotten because a strong wake restarted it mid-run. */
  function Forgiven(h: History): nat {
    if h.Start? || EndsFailures(h.last) then 0
    else if h.last == Released(Backoff, true) then Failures(h.past)
    else Forgiven(h.past)
  }

  /** The retry ladder at a loop head: one rung per failure since the last wake. */
  ghost predicate OnLadder(h: History) {
    && Forgiven(h) <= Failures(h) < FAILURE_LIMIT
    && Delay(h) == Rung(Failures(h) - Forgiven(h))
    && (Ready(h) ==> Failures(h) == 0)
    && (Flaps(h) >= FLAP_LIMIT ==> Failures(h) == 0)
  }

  ghost predicate Fresh(h: History) {
    Failures(h) == 0 && Forgiven(h) == 0 && Delay(h) == RETRY_BASE
  }

  /** Readiness changes are told once each, and a connect attempt starts only when
      audio is down, outside standby, with no three flaps pending. */
  ghost predicate Lawful(h: History) {
    h.Then? ==>
      && Lawful(h.past)
      && (h.last.Up? ==> !Ready(h.past))
      && (h.last.Down? ==> Ready(h.past))
      && (h.last.Attempt? ==> MayAttempt(h.past, h.last.state))
  }

  ghost predicate MayAttempt(h: History, state: Option<SpeakerState>) {
    !Ready(h) && Flaps(h) < FLAP_LIMIT && state != Some(Standby)
  }

  /** The actuator has been called once per rise. */
  ghost predicate Pinned(h: History) {
    Count(h, true) == Count(h, false)
  }

  ghost predicate AtHead(w: World) {
    OnLadder(w.h) && Lawful(w.h) && Pinned(w.h) && (w.address.None? ==> Failures(w.h) == 0)
  }

  /** What the actions of other coroutines leave alone. */
  ghost predicate Undisturbed(h: History, h': History) {
    && (Lawful(h) ==> Lawful(h'))
    && Count(h', true) == Count(h, true) && Count(h', false) == Count(h, false)
    && (Fresh(h) ==> Fresh(h')) && Delay(h') == Delay(h)
    && (Flaps(h) < FLAP_LIMIT && !Ready(h) ==> Flaps(h') < FLAP_LIMIT && !Ready(h'))
  }

  lemma {:induction false} FallKeeps(w: World)
    ensures var h := Fall(w).h;
            && Undisturbed(w.h, h) && !Ready(h)
            && Failures(h) == Failures(w.h) && Forgiven(h) == Forgiven(w.h) && Delay(h) == Delay(w.h)
            && (!Ready(w.h) ==> h == w.h)
  {
  }

  lemma {:induction false} DoKeeps(w: World, a: Act)
    ensures var h := Do(w, a).h;
            && Undisturbed(w.h, h)
            && (!a.Forget? ==> h == w.h)
            && (a.Forget? ==> Failures(h) == 0 && Forgiven(h) == 0 && !Ready(h))
  {
  }

  predicate Forgets(acts: seq<Act>) {
    exists i | 0 <= i < |acts| :: acts[i].Forget?
  }

  lemma {:induction false} DoAllKeeps(w: World, acts: seq<Act>)
    ensures Undisturbed(w.h, DoAll(w, acts).h)
    ensures !Forgets(acts) ==> DoAll(w, acts).h == w.h && (w.address.Some? ==> DoAll(w, acts).address.Some?)
    ensures Forgets(acts) ==>
              Woken(acts) && Failures(DoAll(w, acts).h) == 0 && Forgiven(DoAll(w, acts).h) == 0
    decreases |acts|
  {
    hide Failures, Forgiven, Lawful, Count, Fresh, Flaps, Ready;
    if acts != [] {
      DoKeeps(w, acts[0]);
      DoAllKeeps(Do(w, acts[0]), acts[1..]);
      UndisturbedTwice(w.h, Do(w, acts[0]).h, DoAll(w, acts).h);
      if Forgets(acts[1..]) {
        var i :| 0 <= i < |acts[1..]| && acts[1..][i].Forget?;
        assert acts[i + 1].Forget?;
      }
      if Forgets(acts) {
        var i :| 0 <= i < |acts| && acts[i].Forget?;
        assert Strong(acts[i]);
        assert i > 0 ==> acts[1..][i - 1].Forget?;
      }
    }
  }

  lemma UndisturbedTwice(a: History, b: History, c: History)
    requires Undisturbed(a, b) && Undisturbed(b, c)
    ensures Undisturbed(a, c)
  {
  }

  // ---- Every turn --------------------------------------------------------

  ghost predicate Quiet(w: World) {
    Lawful(w.h) && Pinned(w.h) && !Ready(w.h)
  }

  lemma {:induction false} HoldIsLawful(w: World, hold: Hold, acts: seq<Act>)
    requires Lawful(w.h) && Pinned(w.h)
    ensures Lawful(HoldDuring(w, hold, acts).h) && Pinned(HoldDuring(w, hold, acts).h)
  {
    DoAllKeeps(Log(w, Held(hold)), acts);
  }

  /** A gate or a cool-down ends with a fresh ladder. */
  lemma {:induction false} CoolDownKeeps(w: World, hold: Hold, acts: seq<Act>)
    requires Quiet(w) && hold != Backoff
    requires hold == FlapCooldown ==> Failures(w.h) == 0 && Forgiven(w.h) == 0
    ensures AtHead(HoldDuring(w, hold, acts)) && Fresh(HoldDuring(w, hold, acts).h)
  {
    HoldIsLawful(w, hold, acts);
    var held := Log(w, Held(hold));
    DoAllKeeps(held, acts);
    hide Lawful, Pinned, Flaps, Ready;
  }

  lemma FreshIsHead(w: World)
    requires Fresh(w.h) && Lawful(w.h) && Pinned(w.h)
    ensures AtHead(w)
  {
  }

  /** Helper processes run without `forget`: only the clock and the address move. */
  lemma InFlightKeeps(w: World, acts: seq<InFlight>)
    ensures DoAll(w, acts).h == w.h && (w.address.Some? ==> DoAll(w, acts).address.Some?)
  {
    hide Undisturbed;
    DoAllKeeps(w, acts);
  }

  lemma {:induction false} FailureKeeps(w: World, t: Turn)
    requires Quiet(w) && OnLadder(w.h) && Flaps(w.h) < FLAP_LIMIT && w.address.Some?
    ensures AtHead(StepFailed(Log(w, Failure), t))
  {
    var failed := Log(w, Failure);
    TryEffect(w.h, Failure);
    if Failures(failed.h) >= FAILURE_LIMIT {
      CoolDownKeeps(failed, FailureCooldown, Spent(Length(failed, FailureCooldown), false, t.wait));
    } else {
      BackoffKeeps(failed, Spent(Length(failed, Backoff), false, t.wait));
    }
    hide AtHead, HoldDuring, Spent, Failures, Flaps, Delay, Forgiven, Ready, Lawful, Count, Rung;
  }

  lemma {:induction false} TryEffect(h: History, e: Event)
    requires e.Attempt? || e.Failure?
    ensures var h' := Then(h, e);
            && Ready(h') == Ready(h) && Flaps(h') == Flaps(h) && Forgiven(h') == Forgiven(h) && Delay(h') == Delay(h)
            && ReadySince(h') == ReadySince(h) && Told(h') == Told(h)
            && Failures(h') == Failures(h) + (if e.Failure? then 1 else 0)
            && Count(h', true) == Count(h, true) && Count(h', false) == Count(h, false)
            && (Lawful(h) && (e.Attempt? ==> MayAttempt(h, e.state)) ==> Lawful(h'))
  {
  }

  lemma {:induction false} BackoffKeeps(w: World, acts: seq<Act>)
    requires Quiet(w) && Flaps(w.h) < FLAP_LIMIT && w.address.Some?
    requires Forgiven(w.h) < Failures(w.h) < FAILURE_LIMIT
    requires Delay(w.h) == Rung(Failures(w.h) - 1 - Forgiven(w.h))
    ensures AtHead(HoldDuring(w, Backoff, acts))
  {
    HoldIsLawful(w, Backoff, acts);
    DoAllKeeps(Log(w, Held(Backoff)), acts);
    hide Lawful, Pinned;
    var waited := DoAll(Log(w, Held(Backoff)), acts);
    var h := HoldDuring(w, Backoff, acts).h;
    assert Forgiven(h) == if Woken(acts) then Failures(waited.h) else Forgiven(waited.h);
    assert Delay(h) == if Woken(acts) then RETRY_BASE else Min(2.0 * Delay(waited.h), RETRY_MAX);
    assert OnLadder(h);
    assert waited.address.None? ==> Failures(h) == 0;
  }

  lemma {:induction false} DisconnectedKeeps(w: World, t: Turn)
    requires Quiet(w) && OnLadder(w.h) && w.address.Some?
    ensures AtHead(StepDisconnected(w, t))
  {
    if t.state == Some(Standby) {
      CoolDownKeeps(w, Gate, Spent(Length(w, Gate), false, t.wait));
    } else if Flaps(w.h) >= FLAP_LIMIT {
      CoolDownKeeps(w, FlapCooldown, Spent(Length(w, FlapCooldown), false, t.wait));
    } else {
      AttemptKeeps(w, t);
    }
    hide AtHead, HoldDuring, Spent, DoAll;
  }

  lemma {:induction false} AttemptKeeps(w: World, t: Turn)
    requires Quiet(w) && OnLadder(w.h) && w.address.Some? && Flaps(w.h) < FLAP_LIMIT && t.state != Some(Standby)
    ensures AtHead(StepDisconnected(w, t))
  {
    var attempt := Log(w, Attempt(t.state));
    AttemptIsLawful(w, t.state);
    InFlightKeeps(attempt, t.connect.during);
    var tried := DoAll(attempt, t.connect.during);
    if t.connect.ok {
      ConnectKeeps(tried, t);
    } else {
      InFlightKeeps(tried, t.again.during);
      var again := DoAll(tried, t.again.during);
      if t.again.ok {
        RescueKeeps(again);
      } else {
        FailureKeeps(again, t);
      }
    }
    hide AtHead, StepFailed, DoAll, Rise, OnLadder, Quiet;
  }

  lemma {:induction false} AttemptIsLawful(w: World, state: Option<SpeakerState>)
    requires Quiet(w) && OnLadder(w.h) && Flaps(w.h) < FLAP_LIMIT && state != Some(Standby)
    ensures var a := Log(w, Attempt(state)); Quiet(a) && OnLadder(a.h) && Flaps(a.h) < FLAP_LIMIT
  {
  }

  lemma {:induction false} RescueKeeps(w: World)
    requires Quiet(w)
    ensures AtHead(Log(w, Rescue))
  {
  }

  lemma {:induction false} RiseKeeps(w: World)
    requires Lawful(w.h)
    ensures var up := Rise(w).h;
            && Lawful(up) && Ready(up)
            && Count(up, true) == Count(w.h, true)
            && Count(up, false) == Count(w.h, false) + (if Ready(w.h) then 0 else 1)
  {
  }

  lemma {:induction false} MarkKeeps(h: History, e: Event)
    requires e in {Pin, Linked}
    ensures var h' := Then(h, e);
            && (Lawful(h) ==> Lawful(h')) && (Fresh(h) || e.Linked? ==> Fresh(h'))
            && Count(h', true) == Count(h, true) + (if e.Pin? then 1 else 0) && Count(h', false) == Count(h, false)
  {
  }

  lemma {:induction false} ConnectKeeps(w: World, t: Turn)
    requires Quiet(w)
    ensures AtHead(Connects(w, t))
  {
    var up := Log(Rise(w), Linked);
    var settled := Asleep(POST_CONNECT_SETTLE, t.settle);
    RiseKeeps(w);
    MarkKeeps(Rise(w).h, Linked);
    DoAllKeeps(up, settled);
    var pinned := Log(DoAll(up, settled), Pin);
    MarkKeeps(DoAll(up, settled).h, Pin);
    DoAllKeeps(pinned, t.pin);
    hide Lawful, Count, Fresh, Ready, DoAll;
    FreshIsHead(DoAll(pinned, t.pin));
  }

  lemma {:induction false} ConnectedKeeps(w: World, t: Turn)
    requires Lawful(w.h) && Pinned(w.h)
    ensures AtHead(StepConnected(w, t))
  {
    var up := Log(Rise(w), Linked);
    RiseKeeps(w);
    MarkKeeps(Rise(w).h, Linked);
    MarkKeeps(up.h, Pin);
    DoAllKeeps(Log(up, Pin), t.pin);
    var idle := if Ready(w.h) then up else DoAll(Log(up, Pin), t.pin);
    DoAllKeeps(idle, Spent(CHECK_INTERVAL, true, t.wait));
    hide Lawful, Count, Fresh, Ready, DoAll;
    FreshIsHead(DoAll(idle, Spent(CHECK_INTERVAL, true, t.wait)));
  }

  lemma {:induction false} ParkedKeeps(w: World, t: Turn)
    requires AtHead(w) && w.address.None?
    ensures AtHead(StepParked(w, t))
  {
    FallKeeps(w);
    DoAllKeeps(Fall(w), t.parked);
    var parked := DoAll(Fall(w), t.parked);
    assert Fresh(w.h);
    assert Fresh(parked.h) && Lawful(parked.h) && Pinned(parked.h);
    FreshIsHead(parked);
    ResumedKeeps(parked);
    hide AtHead, Undisturbed, Fresh, Lawful, Pinned, OnLadder, DoAll;
  }

  lemma {:induction false} ResumedKeeps(w: World)
    requires Lawful(w.h) && Pinned(w.h)
    ensures AtHead(Log(w, Resumed))
  {
  }

  lemma {:induction false} StepKeeps(w: World, t: Turn)
    requires AtHead(w)
    ensures AtHead(Step(w, t))
  {
    if w.address.None? {
      ParkedKeeps(w, t);
    } else {
      InFlightKeeps(w, t.check.during);
      var checked := DoAll(w, t.check.during);
      if t.check.ok {
        ConnectedKeeps(checked, t);
      } else {
        FallKeeps(checked);
        FallsOffLadder(checked);
        DisconnectedKeeps(Fall(checked), t);
      }
    }
    hide AtHead, StepConnected, StepDisconnected, StepParked, DoAll, Fall, Quiet, OnLadder, Undisturbed;
  }

  lemma {:induction false} FallsOffLadder(w: World)
    requires OnLadder(w.h)
    ensures OnLadder(Fall(w).h) && Fall(w).address == w.address
  {
  }

  /** Every run, from any start, under any interleaving: the loop is at a lawful
      head after every turn. */
  lemma {:induction false} RunKeeps(address: Option<string>, clock: Time, turns: seq<Turn>)
    ensures AtHead(Run(Init(address, clock), turns))
  {
    if turns == [] {
      FreshIsHead(Init(address, clock));
    } else {
      RunKeeps(address, clock, turns[..|turns| - 1]);
      StepKeeps(Run(Init(address, clock), turns[..|turns| - 1]), turns[|turns| - 1]);
      hide AtHead, Step;
    }
  }

  // ---- What a reader can rely on ------------------------------------------

  /** The moments of a history, up to and including now. */
  ghost predicate Prefix(p: History, h: History) {
    p == h || (h.Then? && Prefix(p, h.past))
  }

  predicate WakeFree(h: History) {
    h.Then? ==> h.last != Released(Backoff, true) && WakeFree(h.past)
  }

  lemma {:induction false} WakeFreeForgivesNothing(h: History)
    requires WakeFree(h)
    ensures Forgiven(h) == 0
  {
    if h.Then? {
      WakeFreeForgivesNothing(h.past);
    }
  }

  /** At every loop head: at most four failures are outstanding, the next wait is one
      of four rungs and never more than the failures earned, and it is exactly the
      rung they earned unless a strong wake restarted the ladder. */
  lemma {:induction false} LadderInvariant(address: Option<string>, clock: Time, turns: seq<Turn>)
    ensures var h := Run(Init(address, clock), turns).h;
            && Failures(h) <= 4
            && Delay(h) in {10.0, 20.0, 40.0, 60.0}
            && Delay(h) <= Min(Grown(RETRY_BASE, 2.0, Failures(h)), RETRY_MAX)
            && (WakeFree(h) ==> Delay(h) == Min(Grown(RETRY_BASE, 2.0, Failures(h)), RETRY_MAX))
  {
    RunKeeps(address, clock, turns);
    var h := Run(Init(address, clock), turns).h;
    RungMeaning(Failures(h));
    if WakeFree(h) {
      WakeFreeForgivesNothing(h);
    }
    hide Run, Delay, Failures, Forgiven, WakeFree, Lawful, Pinned, Flaps, Ready, Grown;
  }

  lemma {:induction false} LawfulPrefix(h: History, p: History)
    requires Lawful(h) && Prefix(p, h)
    ensures Lawful(p)
  {
    if p != h {
      LawfulPrefix(h.past, p);
    }
  }

  /** A moment of some run of the loop. */
  ghost predicate Reachable(h: History) {
    exists address: Option<string>, clock: Time, turns: seq<Turn> :: Prefix(h, Run(Init(address, clock), turns).h)
  }

  lemma ReachableLawful(h: History)
    requires Reachable(h)
    ensures Lawful(h)
  {
    var address: Option<string>, clock: Time, turns: seq<Turn> :| Prefix(h, Run(Init(address, clock), turns).h);
    RunKeeps(address, clock, turns);
    LawfulPrefix(Run(Init(address, clock), turns).h, h);
    hide Run, Lawful;
  }

  /** At no moment of any run does a connect attempt start with three short
      connections outstanding, while audio is up, or in standby. */
  lemma AttemptDiscipline(p: History)
    requires Reachable(p) && p.Then? && p.last.Attempt?
    ensures Flaps(p.past) < 3 && !Ready(p.past) && p.last.state != Some(Standby)
  {
    ReachableLawful(p);
  }

  /** After u the link has neither come up nor gone down. */
  ghost predicate StillUp(u: History, h: History) {
    u == h || (h.Then? && !h.last.Up? && !h.last.Down? && StillUp(u, h.past))
  }

  /** The connection that u began has lasted less than 20 s when it ends at t. */
  ghost predicate Flapped(u: History, h: History, t: Time) {
    u.Then? && u.last.Up? && StillUp(u, h) && t - u.last.at < 20.0
  }

  lemma {:induction false} ShortMeaning(h: History, t: Time)
    ensures Short(ReadySince(h), t) <==> exists u :: Flapped(u, h, t)
  {
    if h.Then? {
      if h.last.Up? {
        assert Flapped(h, h, t) <==> t - h.last.at < 20.0;
      } else if !h.last.Down? {
        ShortMeaning(h.past, t);
        if u :| Flapped(u, h.past, t) {
          assert Flapped(u, h, t);
        }
        if u :| Flapped(u, h, t) {
          assert Flapped(u, h.past, t);
        }
      }
    }
  }

  /** The moments at which the flap count starts over: the standby gate, a flap cool-down,
      and the end of a connection that lasted 20 s or more. */
  ghost predicate EndsFlapRun(h: History)
    requires h.Then?
  {
    h.last in {Held(Gate), Held(FlapCooldown)} || (h.last.Down? && !exists u :: Flapped(u, h.past, h.last.at))
  }

  ghost function LastReset(h: History): History {
    if h.Start? || EndsFlapRun(h) then h else LastReset(h.past)
  }

  /** Connections that ended after a given moment. */
  function Drops(h: History, since: History): nat {
    if h == since || h.Start? then 0 else Drops(h.past, since) + if h.last.Down? then 1 else 0
  }

  /** The flap count is exactly the number of connections, all of them short, that
      ended since the last long one, cool-down or gate. */
  lemma {:induction false} FlapsCountDrops(h: History)
    ensures Flaps(h) == Drops(h, LastReset(h))
  {
    if h.Then? {
      if h.last.Down? {
        ShortMeaning(h.past, h.last.at);
      }
      if !EndsFlapRun(h) {
        FlapsCountDrops(h.past);
        LastResetIsOlder(h.past);
      }
    }
  }

  lemma {:induction false} LastResetIsOlder(h: History)
    ensures LastReset(h) == h || LastReset(h) < h
  {
    if h.Then? {
      LastResetIsOlder(h.past);
    }
  }

  /** Subscribers hear up, down, up, down, ..., and the last word is the truth. */
  lemma ToldAlternates(h: History)
    requires Reachable(h)
    ensures forall i | 0 <= i < |Told(h)| :: Told(h)[i] == (i % 2 == 0)
    ensures Ready(h) <==> |Told(h)| % 2 == 1
  {
    ReachableLawful(h);
    LawfulAlternates(h);
    hide Lawful, Told, Ready;
  }

  lemma {:induction false} LawfulAlternates(h: History)
    requires Lawful(h)
    ensures forall i | 0 <= i < |Told(h)| :: Told(h)[i] == (i % 2 == 0)
    ensures Ready(h) <==> |Told(h)| % 2 == 1
  {
    if h.Then? {
      LawfulAlternates(h.past);
    }
  }

  /** At every loop head the volume has been pinned once per fresh connection. */
  lemma {:induction false} PinsMatchRises(address: Option<string>, clock: Time, turns: seq<Turn>)
    ensures var h := Run(Init(address, clock), turns).h; Count(h, true) == Count(h, false)
  {
    RunKeeps(address, clock, turns);
    hide Run, Lawful, OnLadder, Count;
  }
}
