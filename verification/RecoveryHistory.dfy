/** When DeviceManager power-cycles the Bluetooth adapter, told over its own history.
    Every decision is a question about what has happened; `DeviceManager` (its own
    module) keeps counters and timestamps instead and is proved to follow this. */
module RecoveryHistory {
  import opened Prelude
  import opened Backoff

  const RECONNECT_MAX := 60.0
  const WEDGE_CONNECT_FAILURES := 3
  const WEDGE_WINDOW := 600.0
  const WEDGE_UNREACHABLE_TIMEOUT := 600.0
  const WEDGE_SCAN_ERRORS := 5
  const RECLAIM_EMPTY_SCANS := 3
  const RECLAIM_COOLDOWN := 30.0
  const POWER_COMMAND_GRACE := 60.0
  const RECOVERY_COOLDOWN := 900.0
  const MANUAL_RECOVERY_COOLDOWN := 30.0

  datatype Why = DenseFailures | LongUnreachable | ScanErrors

  datatype Event =
    | ScanFailed(at: Time)
    | ScanClean(at: Time, found: bool, beacon: bool)
    | ClockStopped(at: Time)                   // a clean scan saw no beacon: the speaker is off
    | Connected(at: Time)
    | Dropped(at: Time)
    | GraceFailure(at: Time)                   // connect failure soon after a power command
    | ReclaimedFailure(at: Time)               // connect failure explained by a stale link
    | CountedFailure(asOf: Time, at: Time)     // connect failure, as of when it happened
    | Trouble(at: Time)                        // the unreachable clock was consulted
    | ReclaimHit(at: Time)
    | ReclaimMiss(asOf: Time, at: Time)        // as of when it was tried
    | PowerSent(at: Time)
    | Recovery(at: Time, why: Why)             // an automatic power-cycle begins
    | ManualBegan(at: Time)
    | ManualEnded(at: Time, ok: bool)
    | Slept(at: Time, delay: real)

  datatype History = Start | Then(past: History, last: Event)

  datatype Config = Config(base: Duration, canRecover: bool, canReclaim: bool)

  // ---- Questions about a history ------------------------------------------

  /** A connection is held from a successful connect until it drops. */
  predicate Held(h: History) {
    h.Then? && (h.last.Connected? || (!h.last.Dropped? && Held(h.past)))
  }

  function LastPower(h: History): Option<Time> {
    if h.Start? then None else if h.last.PowerSent? then Some(h.last.at) else LastPower(h.past)
  }

  predicate InGrace(h: History, t: Time) {
    LastPower(h).Some? && t - LastPower(h).value < POWER_COMMAND_GRACE
  }

  /** An automatic recovery begins, or a manual one succeeds. */
  predicate Cycled(e: Event) {
    e.Recovery? || (e.ManualEnded? && e.ok)
  }

  /** Events that make earlier connect failures irrelevant. */
  predicate EndsDenseRun(e: Event) {
    e.Connected? || Cycled(e)
  }

  /** When the last counted failure happened; the clock's zero before any. */
  function LastCounted(h: History): Time {
    if h.Start? then 0.0 else if h.last.CountedFailure? then h.last.asOf else LastCounted(h.past)
  }

  /** Counted failures in the current dense run. */
  function DenseRun(h: History): nat {
    if h.Start? || EndsDenseRun(h.last) then 0
    else if h.last.CountedFailure? then
      if h.last.asOf - LastCounted(h.past) > WEDGE_WINDOW then 1 else DenseRun(h.past) + 1
    else DenseRun(h.past)
  }

  /** When the current unreachable stretch began. */
  function UnreachableSince(h: History): Option<Time> {
    if h.Start? || h.last.Connected? || h.last.ClockStopped? then None
    else if h.last.Trouble? && UnreachableSince(h.past).None? then Some(h.last.at)
    else UnreachableSince(h.past)
  }

  /** Scans in a row that errored, since the last recovery. */
  function ErrorRun(h: History): nat {
    if h.Start? || h.last.ScanClean? || Cycled(h.last) then 0
    else if h.last.ScanFailed? then ErrorRun(h.past) + 1
    else ErrorRun(h.past)
  }

  /** Clean empty scans since one found the speaker, counted modulo the reclaim period. */
  function EmptyRun(h: History): nat {
    if h.Start? then 0
    else if h.last.ScanClean? then
      if h.last.found then 0
      else if EmptyRun(h.past) + 1 >= RECLAIM_EMPTY_SCANS then 0 else EmptyRun(h.past) + 1
    else EmptyRun(h.past)
  }

  function LastMiss(h: History): Option<Time> {
    if h.Start? || h.last.ReclaimHit? then None
    else if h.last.ReclaimMiss? then Some(h.last.asOf)
    else LastMiss(h.past)
  }

  /** The last recovery known to have touched the adapter: an automatic one as it
      begins, a manual one as it succeeds. */
  function LastRecovery(h: History): Option<Time> {
    if h.Start? then None
    else if Cycled(h.last) then Some(h.last.at)
    else LastRecovery(h.past)
  }

  predicate CooledDown(h: History, t: Time) {
    LastRecovery(h).None? || t - LastRecovery(h).value >= RECOVERY_COOLDOWN
  }

  predicate ManualBusy(h: History) {
    h.Then? && (h.last.ManualBegan? || (!h.last.ManualEnded? && ManualBusy(h.past)))
  }

  function LastManual(h: History): Option<Time> {
    if h.Start? then None else if h.last.ManualEnded? then Some(h.last.at) else LastManual(h.past)
  }

  /** Backoff sleeps since the last success. */
  function SleepsSinceReset(h: History): nat {
    if h.Start? || h.last.Connected? || h.last.ReclaimHit? then 0
    else if h.last.Slept? then SleepsSinceReset(h.past) + 1
    else SleepsSinceReset(h.past)
  }

  function RetryDelay(cfg: Config, h: History): Duration {
    AdvancedIsDuration(cfg.base, SleepsSinceReset(h));
    Advanced(cfg.base, 2.0, RECONNECT_MAX, SleepsSinceReset(h))
  }

  lemma {:induction false} AdvancedIsDuration(base: Duration, k: nat)
    ensures 0.0 <= Advanced(base, 2.0, RECONNECT_MAX, k)
  {
    if k > 0 {
      AdvancedIsDuration(base, k - 1);
    }
  }

  /** What has just happened is evidence enough of a wedged controller. */
  predicate Alarm(h: History) {
    h.Then? &&
    match h.last
    case CountedFailure(_, _) => DenseRun(h) >= WEDGE_CONNECT_FAILURES
    case Trouble(at) => UnreachableSince(h.past).Some? && at - UnreachableSince(h.past).value >= WEDGE_UNREACHABLE_TIMEOUT
    case ScanFailed(_) => ErrorRun(h) >= WEDGE_SCAN_ERRORS
    case _ => false
  }

  /** An automatic recovery is called for, now. */
  predicate Due(cfg: Config, h: History) {
    cfg.canRecover && Alarm(h) && CooledDown(h, h.last.at)
  }

  // ---- One pass of the connect loop ---------------------------------------

  /** What the clock, the portal and the power buttons can do while the loop waits. */
  datatype Act = Tick(d: Duration) | PressReset | ResetReturns(ok: bool) | PowerWrite

  datatype Reply<T> = Reply(during: seq<Act>, value: T)

  datatype ScanResult = Raised | Clean(found: bool, beacon: bool)

  datatype Turn = Turn(
    scan: Reply<ScanResult>,
    connect: Reply<bool>,
    reclaim: Reply<bool>,
    recover: seq<Act>,
    recoverAgain: seq<Act>,
    hold: seq<Act>,
    cleanup: seq<Act>,
    sleep: seq<Act>)

  datatype World = World(cfg: Config, h: History, clock: Time)

  function Log(w: World, e: Event): World {
    w.(h := Then(w.h, e))
  }

  function Do(w: World, a: Act): World {
    match a
    case Tick(d) => w.(clock := w.clock + d)
    case PressReset =>
      if w.cfg.canRecover && !ManualBusy(w.h) && !ManualCooling(w) then Log(w, ManualBegan(w.clock)) else w
    case ResetReturns(ok) => if ManualBusy(w.h) then Log(w, ManualEnded(w.clock, ok)) else w
    case PowerWrite => if Held(w.h) then Log(w, PowerSent(w.clock)) else w
  }

  predicate ManualCooling(w: World) {
    LastManual(w.h).Some? && w.clock - LastManual(w.h).value < MANUAL_RECOVERY_COOLDOWN
  }

  function DoAll(w: World, acts: seq<Act>): World
    decreases |acts|
  {
    if acts == [] then w else DoAll(Do(w, acts[0]), acts[1..])
  }

  function Recover(w: World, why: Why, during: seq<Act>): World {
    if Due(w.cfg, w.h) then DoAll(Log(w, Recovery(w.clock, why)), during) else w
  }

  function NoteUnreachable(w: World, during: seq<Act>): World {
    if InGrace(w.h, w.clock) then w else Recover(Log(w, Trouble(w.clock)), LongUnreachable, during)
  }

  predicate ReclaimReady(w: World) {
    w.cfg.canReclaim && (LastMiss(w.h).None? || w.clock - LastMiss(w.h).value >= RECLAIM_COOLDOWN)
  }

  function Reclaim(w: World, reply: Reply<bool>): World {
    if ReclaimReady(w) then
      var after := DoAll(w, reply.during);
      Log(after, if reply.value then ReclaimHit(after.clock) else ReclaimMiss(w.clock, after.clock))
    else w
  }

  function NoteFailure(w: World, reclaim: Reply<bool>, during: seq<Act>): World {
    if InGrace(w.h, w.clock) then Log(w, GraceFailure(w.clock))
    else
      var after := Reclaim(w, reclaim);
      if ReclaimReady(w) && reclaim.value then Log(after, ReclaimedFailure(after.clock))
      else Recover(Log(after, CountedFailure(w.clock, after.clock)), DenseFailures, during)
  }

  function NoteEmpty(w: World, reclaim: Reply<bool>): World {
    if w.cfg.canReclaim && EmptyRun(w.h) == 0 then Reclaim(w, reclaim) else w
  }

  function Scan(w: World, t: Turn): World {
    var w := DoAll(w, t.scan.during);
    match t.scan.value
    case Raised =>
      NoteUnreachable(Recover(Log(w, ScanFailed(w.clock)), ScanErrors, t.recover), t.recoverAgain)
    case Clean(found, beacon) => CleanScan(w, found, beacon, t)
  }

  function CleanScan(w: World, found: bool, beacon: bool, t: Turn): World {
    var w := Log(w, ScanClean(w.clock, found, beacon));
    if found then w
    else
      var w := NoteEmpty(w, t.reclaim);
      if beacon then NoteUnreachable(w, t.recoverAgain) else Log(w, ClockStopped(w.clock))
  }

  /** A sleep of exactly `delay`, whatever else happens meanwhile. */
  function Asleep(delay: Duration, acts: seq<Act>): seq<Act>
    decreases |acts|
  {
    if acts == [] then [Tick(delay)]
    else
      match acts[0]
      case Tick(d) => if d >= delay then [Tick(delay)] else [acts[0]] + Asleep(delay - d, acts[1..])
      case _ => [acts[0]] + Asleep(delay, acts[1..])
  }

  function Sleep(w: World, acts: seq<Act>): World {
    var delay := RetryDelay(w.cfg, w.h);
    var w := DoAll(w, Asleep(delay, acts));
    Log(w, Slept(w.clock, delay))
  }

  function Hold(w: World, acts: seq<Act>): World {
    var w := DoAll(Log(w, Connected(w.clock)), acts);
    Log(w, Dropped(w.clock))
  }

  function Pass(w: World, t: Turn): World {
    var w := Scan(w, t);
    if t.scan.value.Raised? || !t.scan.value.found then Sleep(w, t.sleep)
    else
      var w := DoAll(w, t.connect.during);
      if t.connect.value then
        DoAll(Hold(w, t.hold), t.cleanup)
      else
        Sleep(NoteUnreachable(NoteFailure(w, t.reclaim, t.recover), t.recoverAgain), t.sleep)
  }

  function Run(w: World, turns: seq<Turn>): World {
    if turns == [] then w else Pass(Run(w, turns[..|turns| - 1]), turns[|turns| - 1])
  }

  function Init(cfg: Config, clock: Time): World {
    World(cfg, Start, clock)
  }

  // ---- What every run keeps -----------------------------------------------

  /** No event is dated before an earlier one, or after now. */
  ghost predicate Timely(h: History, now: Time) {
    h.Then? ==> h.last.at <= now && Timely(h.past, h.last.at)
  }

  /** A silent scan has been heard, and the unreachable clock not stopped yet. */
  predicate SilentPending(h: History) {
    h.Then? && (Silent(h.last) || (!h.last.ClockStopped? && SilentPending(h.past)))
  }

  /** A clean scan that saw neither the speaker nor its beacon. */
  predicate Silent(e: Event) {
    e.ScanClean? && !e.found && !e.beacon
  }

  predicate Aside(e: Event) {
    e.ManualBegan? || e.ManualEnded? || e.ReclaimHit? || e.ReclaimMiss?
  }

  /** Events that move the connect loop on. */
  predicate IsStep(e: Event) {
    || e.ScanFailed? || e.ScanClean? || e.Connected? || e.Dropped? || e.Slept? || IsFailure(e)
  }

  predicate IsFailure(e: Event) {
    e.GraceFailure? || e.ReclaimedFailure? || e.CountedFailure?
  }

  /** The history up to the loop's latest step. */
  function LatestStep(h: History): History {
    if h.Start? || IsStep(h.last) then h else LatestStep(h.past)
  }

  /** What the loop is about: scanning, connecting to what a scan found, sleeping off a
      pass that missed, or holding a connection. */
  datatype Phase = Looking | Found | Missed | Holding

  function PhaseOf(h: History): Phase {
    var s := LatestStep(h);
    if s.Start? || s.last.Slept? || s.last.Dropped? then Looking
    else if s.last.Connected? then Holding
    else if s.last.ScanClean? && s.last.found then Found
    else Missed
  }

  function Reason(e: Event): Why {
    if e.CountedFailure? then DenseFailures else if e.Trouble? then LongUnreachable else ScanErrors
  }

  /** A scan had found the speaker by then. */
  predicate FoundBy(p: History, t: Time) {
    PhaseOf(p) == Found && LatestStep(p).last.at <= t
  }

  /** The loop sleeps only after a pass that missed, and for the whole delay. */
  predicate SleptOff(p: History, at: Time, delay: Duration) {
    PhaseOf(p) == Missed && LatestStep(p).last.at + delay <= at
  }

  /** The last reclaim to find nothing was tried long enough ago. */
  predicate ReclaimRested(p: History, t: Time) {
    LastMiss(p).Some? ==> t - LastMiss(p).value >= RECLAIM_COOLDOWN
  }

  /** What may happen next. Above all: an automatic recovery exactly when one is due. */
  ghost predicate Legal(cfg: Config, p: History, e: Event) {
    && (e.Recovery? <==> Due(cfg, p))
    && (SilentPending(p) ==> e.ClockStopped? || Aside(e))
    && match e
       case Recovery(at, why) => at == p.last.at && why == Reason(p.last)
       case ScanFailed(_) => !Held(p) && PhaseOf(p) == Looking
       case ScanClean(_, _, _) => PhaseOf(p) == Looking
       case ReclaimHit(at) => !Held(p) && cfg.canReclaim && ReclaimRested(p, at)
       case ReclaimMiss(asOf, at) => !Held(p) && cfg.canReclaim && ReclaimRested(p, asOf) && asOf <= at
       case Connected(_) => !Held(p) && PhaseOf(p) == Found
       case Dropped(_) => PhaseOf(p) == Holding
       case PowerSent(_) => Held(p)
       case GraceFailure(at) => !Held(p) && InGrace(p, at) && PhaseOf(p) == Found
       case ReclaimedFailure(_) => PhaseOf(p) == Found && p.last.ReclaimHit?
       case CountedFailure(asOf, at) => !Held(p) && !InGrace(p, asOf) && FoundBy(p, asOf) && asOf <= at
       case Trouble(at) => !Held(p) && !InGrace(p, at)
       case ManualBegan(at) =>
         cfg.canRecover && !ManualBusy(p) && (LastManual(p).Some? ==> at - LastManual(p).value >= MANUAL_RECOVERY_COOLDOWN)
       case ManualEnded(_, _) => ManualBusy(p)
       case Slept(at, delay) => delay == RetryDelay(cfg, p) && SleptOff(p, at, delay)
       case _ => true
  }

  ghost predicate Lawful(cfg: Config, h: History) {
    h.Then? ==> Lawful(cfg, h.past) && Legal(cfg, h.past, h.last)
  }

  /** Nothing is owed: no recovery is due. */
  ghost predicate Settled(w: World) {
    Lawful(w.cfg, w.h) && Timely(w.h, w.clock) && !Due(w.cfg, w.h)
  }

  /** Between connections. */
  ghost predicate Loose(w: World) {
    Settled(w) && !Held(w.h) && !SilentPending(w.h)
  }

  /** What a wait leaves alone. */
  ghost predicate Alongside(w: World, w': World) {
    && w'.cfg == w.cfg && w.clock <= w'.clock
    && Held(w'.h) == Held(w.h) && SilentPending(w'.h) == SilentPending(w.h)
    && (!Held(w.h) ==> LastPower(w'.h) == LastPower(w.h))
    && LatestStep(w'.h) == LatestStep(w.h)
  }

  /** Between connections, in a phase. */
  ghost predicate In(w: World, phase: Phase) {
    Loose(w) && PhaseOf(w.h) == phase
  }

  lemma {:induction false} NotDue(cfg: Config, h: History, e: Event)
    requires !e.CountedFailure? && !e.Trouble? && !e.ScanFailed?
    ensures !Due(cfg, Then(h, e))
  {
  }

  /** A lawful event that rings no alarm. */
  lemma {:induction false} LogKeeps(w: World, e: Event)
    requires Settled(w) && Legal(w.cfg, w.h, e) && e.at == w.clock
    requires !e.CountedFailure? && !e.Trouble? && !e.ScanFailed?
    ensures Settled(Log(w, e))
  {
  }

  lemma {:induction false} DoKeeps(w: World, a: Act)
    requires Settled(w) && (SilentPending(w.h) ==> !Held(w.h))
    ensures Settled(Do(w, a)) && Alongside(w, Do(w, a))
  {
  }

  lemma {:induction false} DoAllKeeps(w: World, acts: seq<Act>)
    requires Settled(w) && (SilentPending(w.h) ==> !Held(w.h))
    ensures Settled(DoAll(w, acts)) && Alongside(w, DoAll(w, acts))
    decreases |acts|
  {
    hide Settled, Do, SilentPending, Held, LastPower;
    if acts != [] {
      DoKeeps(w, acts[0]);
      DoAllKeeps(Do(w, acts[0]), acts[1..]);
    }
  }

  /** An alarm has just been logged. */
  ghost predicate Alerted(w: World, why: Why) {
    && Lawful(w.cfg, w.h) && Timely(w.h, w.clock) && !Held(w.h) && !SilentPending(w.h)
    && w.h.Then? && w.h.last.at == w.clock && why == Reason(w.h.last)
  }

  lemma {:induction false} AlertKeeps(w: World, e: Event)
    requires Loose(w) && Legal(w.cfg, w.h, e) && e.at == w.clock
    requires e.CountedFailure? || e.Trouble? || e.ScanFailed?
    ensures Alerted(Log(w, e), Reason(e)) && (e.Trouble? ==> Alongside(w, Log(w, e)))
  {
  }

  lemma {:induction false} RecoverKeeps(w: World, why: Why, during: seq<Act>)
    requires Alerted(w, why)
    ensures Loose(Recover(w, why, during)) && Alongside(w, Recover(w, why, during))
  {
    if Due(w.cfg, w.h) {
      var begun := Log(w, Recovery(w.clock, why));
      NotDue(w.cfg, w.h, begun.h.last);
      assert Settled(begun) && !Held(begun.h) && !SilentPending(begun.h) by { hide Due; }
      assert Alongside(w, begun);
      DoAllKeeps(begun, during);
      hide Due, Settled;
    }
    hide Due;
  }

  lemma {:induction false} NoteUnreachableKeeps(w: World, during: seq<Act>)
    requires Loose(w)
    ensures Loose(NoteUnreachable(w, during)) && Alongside(w, NoteUnreachable(w, during))
  {
    if !InGrace(w.h, w.clock) {
      AlertKeeps(w, Trouble(w.clock)) by { hide Due; }
      RecoverKeeps(Log(w, Trouble(w.clock)), LongUnreachable, during);
    }
    hide Loose, Recover, Held, SilentPending, LastPower;
  }

  lemma {:induction false} MissUndisturbed(w: World, acts: seq<Act>)
    ensures LastMiss(DoAll(w, acts).h) == LastMiss(w.h)
    decreases |acts|
  {
    if acts != [] {
      MissUndisturbed(Do(w, acts[0]), acts[1..]);
    }
  }

  lemma {:induction false} ReclaimKeeps(w: World, reply: Reply<bool>)
    requires Settled(w) && !Held(w.h)
    ensures Settled(Reclaim(w, reply)) && Alongside(w, Reclaim(w, reply))
  {
    if ReclaimReady(w) {
      DoAllKeeps(w, reply.during);
      MissUndisturbed(w, reply.during);
      var after := DoAll(w, reply.during);
      var e := if reply.value then ReclaimHit(after.clock) else ReclaimMiss(w.clock, after.clock);
      LogKeeps(after, e) by { hide Due; }
      assert Alongside(w, Log(after, e)) by { hide Settled; }
      assert Reclaim(w, reply) == Log(after, e);
    }
    hide Settled, DoAll, Held, SilentPending, LastPower;
  }

  lemma {:induction false} StepBound(h: History, now: Time)
    requires Timely(h, now) && LatestStep(h).Then?
    ensures LatestStep(h).last.at <= now
  {
    if !IsStep(h.last) {
      StepBound(h.past, h.last.at);
    }
  }

  lemma {:induction false} NoteFailureKeeps(w: World, reclaim: Reply<bool>, during: seq<Act>)
    requires In(w, Found)
    ensures In(NoteFailure(w, reclaim, during), Missed) && NoteFailure(w, reclaim, during).cfg == w.cfg
  {
    if InGrace(w.h, w.clock) {
      var e := GraceFailure(w.clock);
      LogKeeps(w, e) by { hide Due; }
      assert In(Log(w, e), Missed) by { hide Settled; }
    } else {
      ReclaimKeeps(w, reclaim);
      StepBound(w.h, w.clock);
      var after := Reclaim(w, reclaim);
      if ReclaimReady(w) && reclaim.value {
        var e := ReclaimedFailure(after.clock);
        LogKeeps(after, e) by { hide Due; }
        assert In(Log(after, e), Missed) by { hide Settled; }
      } else {
        var e := CountedFailure(w.clock, after.clock);
        AlertKeeps(after, e) by { hide Due; }
        RecoverKeeps(Log(after, e), DenseFailures, during);
        assert PhaseOf(Log(after, e).h) == Missed;
      }
    }
    hide Settled, Reclaim, Recover, Held, SilentPending, LastPower, LatestStep;
  }

  lemma {:induction false} NoteEmptyKeeps(w: World, reclaim: Reply<bool>)
    requires Settled(w) && !Held(w.h)
    ensures Settled(NoteEmpty(w, reclaim)) && Alongside(w, NoteEmpty(w, reclaim))
  {
    ReclaimKeeps(w, reclaim);
    hide Reclaim, Held, SilentPending, Settled;
  }

  lemma {:induction false} CleanScanKeeps(w: World, found: bool, beacon: bool, t: Turn)
    requires In(w, Looking)
    ensures In(CleanScan(w, found, beacon, t), if found then Found else Missed)
    ensures CleanScan(w, found, beacon, t).cfg == w.cfg
  {
    var e := ScanClean(w.clock, found, beacon);
    var seen := Log(w, e);
    LogKeeps(w, e) by { hide Due; }
    assert !Held(seen.h) && (SilentPending(seen.h) <==> Silent(e)) by { hide Settled; }
    assert PhaseOf(seen.h) == if found then Found else Missed;
    NoteEmptyKeeps(seen, t.reclaim);
    var after := NoteEmpty(seen, t.reclaim);
    if Silent(e) {
      var stop := ClockStopped(after.clock);
      LogKeeps(after, stop) by { hide Due; }
      assert In(Log(after, stop), Missed) by { hide Settled; }
    } else if !found {
      NoteUnreachableKeeps(after, t.recoverAgain) by { hide Settled; }
    }
    hide Settled, NoteEmpty, NoteUnreachable, Held, SilentPending, LastPower, LatestStep;
  }

  lemma {:induction false} ScanKeeps(w: World, t: Turn)
    requires In(w, Looking)
    ensures In(Scan(w, t), if t.scan.value.Clean? && t.scan.value.found then Found else Missed) && Scan(w, t).cfg == w.cfg
  {
    DoAllKeeps(w, t.scan.during);
    var done := DoAll(w, t.scan.during);
    assert In(done, Looking) by { hide Settled; }
    if t.scan.value.Raised? {
      var e := ScanFailed(done.clock);
      AlertKeeps(done, e) by { hide Due; }
      RecoverKeeps(Log(done, e), ScanErrors, t.recover);
      assert PhaseOf(Log(done, e).h) == Missed;
      NoteUnreachableKeeps(Recover(Log(done, e), ScanErrors, t.recover), t.recoverAgain);
    } else {
      CleanScanKeeps(done, t.scan.value.found, t.scan.value.beacon, t);
    }
    hide Loose, Recover, NoteUnreachable, CleanScan, Held, SilentPending, LastPower, LatestStep;
  }

  lemma {:induction false} AsleepLasts(w: World, delay: Duration, acts: seq<Act>)
    ensures DoAll(w, Asleep(delay, acts)).clock == w.clock + delay
    decreases |acts|
  {
    hide Held, ManualBusy, ManualCooling;
    if acts != [] {
      var a, rest := acts[0], acts[1..];
      var later := if a.Tick? && a.d < delay then delay - a.d else delay;
      AsleepLasts(Do(w, a), later, rest);
      assert ([a] + Asleep(later, rest))[1..] == Asleep(later, rest);
    }
  }

  lemma {:induction false} SleepsUndisturbed(w: World, acts: seq<Act>)
    ensures SleepsSinceReset(DoAll(w, acts).h) == SleepsSinceReset(w.h) && DoAll(w, acts).cfg == w.cfg
    decreases |acts|
  {
    if acts != [] {
      SleepsUndisturbed(Do(w, acts[0]), acts[1..]);
    }
  }

  lemma {:induction false} SleepKeeps(w: World, acts: seq<Act>)
    requires In(w, Missed)
    ensures In(Sleep(w, acts), Looking) && Sleep(w, acts).cfg == w.cfg
  {
    var delay := RetryDelay(w.cfg, w.h);
    var spent := Asleep(delay, acts);
    StepBound(w.h, w.clock);
    AsleepLasts(w, delay, acts);
    DoAllKeeps(w, spent);
    SleepsUndisturbed(w, spent);
    var rested := DoAll(w, spent);
    hide DoAll, Asleep, SleepsSinceReset;
    var e := Slept(rested.clock, delay);
    assert SleptOff(rested.h, rested.clock, delay);
    LogKeeps(rested, e) by { hide Due; }
    assert In(Log(rested, e), Looking) by { hide Settled; }
    hide Loose;
  }

  lemma {:induction false} HoldKeeps(w: World, acts: seq<Act>)
    requires In(w, Found)
    ensures In(Hold(w, acts), Looking) && Hold(w, acts).cfg == w.cfg
  {
    var up := Log(w, Connected(w.clock));
    LogKeeps(w, Connected(w.clock)) by { hide Due; }
    DoAllKeeps(up, acts) by { hide Settled; }
    var after := DoAll(up, acts);
    assert PhaseOf(after.h) == Holding by { hide Settled, DoAll; }
    LogKeeps(after, Dropped(after.clock)) by { hide Due; }
    assert In(Log(after, Dropped(after.clock)), Looking) by { hide Settled; }
    hide Loose, DoAll;
  }

  lemma {:induction false} PassKeeps(w: World, t: Turn)
    requires In(w, Looking)
    ensures In(Pass(w, t), Looking) && Pass(w, t).cfg == w.cfg
  {
    ScanKeeps(w, t);
    var scanned := Scan(w, t);
    if t.scan.value.Raised? || !t.scan.value.found {
      SleepKeeps(scanned, t.sleep);
    } else {
      DoAllKeeps(scanned, t.connect.during);
      var tried := DoAll(scanned, t.connect.during);
      assert In(tried, Found) by { hide Settled; }
      if t.connect.value {
        HoldKeeps(tried, t.hold);
        DoAllKeeps(Hold(tried, t.hold), t.cleanup);
        assert In(DoAll(Hold(tried, t.hold), t.cleanup), Looking) by { hide Settled; }
      } else {
        NoteFailureKeeps(tried, t.reclaim, t.recover);
        var noted := NoteFailure(tried, t.reclaim, t.recover);
        NoteUnreachableKeeps(noted, t.recoverAgain);
        assert In(NoteUnreachable(noted, t.recoverAgain), Missed) by { hide Loose; }
        SleepKeeps(NoteUnreachable(noted, t.recoverAgain), t.sleep);
      }
    }
    hide Loose, Scan, Sleep, Hold, DoAll, NoteFailure, NoteUnreachable, LatestStep;
  }

  /** Every run, under every interleaving of the portal's resets and power commands:
      only legal things happen, in order, and no recovery is ever left owing. */
  lemma {:induction false} RunKeeps(cfg: Config, clock: Time, turns: seq<Turn>)
    ensures In(Run(Init(cfg, clock), turns), Looking) && Run(Init(cfg, clock), turns).cfg == cfg
  {
    if turns != [] {
      RunKeeps(cfg, clock, turns[..|turns| - 1]);
      PassKeeps(Run(Init(cfg, clock), turns[..|turns| - 1]), turns[|turns| - 1]);
      hide In, Pass;
    }
  }

  // ---- What a reader can rely on ------------------------------------------

  /** The moments of a history, up to and including now. */
  ghost predicate Prefix(p: History, h: History) {
    p == h || (h.Then? && Prefix(p, h.past))
  }

  lemma {:induction false} PrefixTrans(p: History, q: History, h: History)
    requires Prefix(p, q) && Prefix(q, h)
    ensures Prefix(p, h)
  {
    if q != h {
      PrefixTrans(p, q, h.past);
    }
  }

  lemma {:induction false} PrefixLinear(p: History, q: History, h: History)
    requires Prefix(p, h) && Prefix(q, h)
    ensures Prefix(p, q) || Prefix(q, p)
  {
    if p != h && q != h {
      PrefixLinear(p, q, h.past);
    }
  }

  lemma {:induction false} PrefixLawful(cfg: Config, p: History, h: History, now: Time)
    requires Prefix(p, h) && Lawful(cfg, h) && Timely(h, now)
    ensures Lawful(cfg, p) && Timely(p, now)
    ensures p.Then? ==> p.last.at <= now
  {
    hide Legal;
    if p != h {
      PrefixLawful(cfg, p, h.past, h.last.at);
      Later(p, h.last.at, now);
    }
  }

  lemma Later(h: History, now: Time, later: Time)
    requires Timely(h, now) && now <= later
    ensures Timely(h, later)
  {
  }

  /** At every moment of every run: an automatic power-cycle begins if and only if one
      was due the moment before, and none is due when a pass ends. */
  lemma RecoversExactlyWhenDue(cfg: Config, clock: Time, turns: seq<Turn>, p: History)
    requires Prefix(p, Run(Init(cfg, clock), turns).h) && p.Then?
    ensures p.last.Recovery? <==> Due(cfg, p.past)
    ensures p.last.Recovery? ==> p.last.at == p.past.last.at && p.last.why == Reason(p.past.last)
    ensures !Due(cfg, Run(Init(cfg, clock), turns).h)
  {
    RunIsLawful(cfg, clock, turns);
    var w := Run(Init(cfg, clock), turns);
    PrefixLawful(cfg, p, w.h, w.clock);
    hide Run, Due;
  }

  lemma {:induction false} RunIsLawful(cfg: Config, clock: Time, turns: seq<Turn>)
    ensures var w := Run(Init(cfg, clock), turns);
            w.cfg == cfg && Lawful(cfg, w.h) && Timely(w.h, w.clock) && !Due(cfg, w.h)
  {
    RunKeeps(cfg, clock, turns);
    hide Run, Lawful, Timely, Due, Held, SilentPending;
  }

  // ---- The storm brake ----------------------------------------------------

  function Recoveries(h: History): nat {
    if h.Start? then 0 else Recoveries(h.past) + if h.last.Recovery? then 1 else 0
  }

  lemma {:induction false} Spaced(cfg: Config, p: History, h: History, now: Time)
    requires Lawful(cfg, h) && Timely(h, now) && Prefix(p, h) && p.Then? && Cycled(p.last)
    ensures Recoveries(p) <= Recoveries(h) && LastRecovery(h).Some?
    ensures p.last.at + RECOVERY_COOLDOWN * (Recoveries(h) - Recoveries(p)) as real <= LastRecovery(h).value <= now
  {
    hide Alarm;
    if p != h {
      Spaced(cfg, p, h.past, h.last.at);
      if h.last.Recovery? {
        assert CooledDown(h.past, h.last.at);
      }
    }
  }

  /** From one power-cycle to a later automatic one, at least 900 s pass for every
      automatic one in between and for itself: n of them span at least 900 (n - 1)
      seconds, and none starts within 900 s after a manual reset succeeded. */
  lemma StormBrake(cfg: Config, clock: Time, turns: seq<Turn>, p: History, q: History)
    requires Prefix(q, Run(Init(cfg, clock), turns).h) && Prefix(p, q) && p != q
    requires p.Then? && (p.last.Recovery? || (p.last.ManualEnded? && p.last.ok)) && q.last.Recovery?
    ensures Recoveries(q) - Recoveries(p) >= 1
    ensures q.last.at - p.last.at >= 900.0 * (Recoveries(q) - Recoveries(p)) as real
  {
    RunIsLawful(cfg, clock, turns);
    var w := Run(Init(cfg, clock), turns);
    PrefixLawful(cfg, q, w.h, w.clock);
    Spaced(cfg, p, q, w.clock);
    hide Run, Lawful, Due;
    Spaced(cfg, p, q.past, q.last.at);
  }

  function Manuals(h: History, ended: bool): nat {
    if h.Start? then 0
    else Manuals(h.past, ended) + if (if ended then h.last.ManualEnded? else h.last.ManualBegan?) then 1 else 0
  }

  lemma {:induction false} ManualsSerialized(cfg: Config, h: History, now: Time)
    requires Lawful(cfg, h) && Timely(h, now)
    ensures Manuals(h, false) == Manuals(h, true) + if ManualBusy(h) then 1 else 0
  {
    hide Due;
    if h.Then? {
      ManualsSerialized(cfg, h.past, h.last.at);
    }
  }

  lemma {:induction false} LastManualIsLatest(p: History, h: History, now: Time)
    requires Timely(h, now) && Prefix(p, h) && p.Then? && p.last.ManualEnded?
    ensures LastManual(h).Some? && p.last.at <= LastManual(h).value <= now
  {
    if p != h {
      LastManualIsLatest(p, h.past, h.last.at);
    }
  }

  /** However many clients press the button: never two manual resets at once, and
      none begins within 30 s after one has ended, whatever its outcome. */
  lemma ManualResets(cfg: Config, clock: Time, turns: seq<Turn>, p: History, q: History)
    requires Prefix(q, Run(Init(cfg, clock), turns).h) && Prefix(p, q)
    ensures Manuals(q, true) <= Manuals(q, false) <= Manuals(q, true) + 1
    ensures p.Then? && p.last.ManualEnded? && q.last.ManualBegan? ==> q.last.at - p.last.at >= 30.0
  {
    RunIsLawful(cfg, clock, turns);
    var w := Run(Init(cfg, clock), turns);
    PrefixLawful(cfg, q, w.h, w.clock);
    ManualsSerialized(cfg, q, w.clock);
    hide Run, Due, Manuals;
    if p.Then? && p.last.ManualEnded? && q.last.ManualBegan? {
      LastManualIsLatest(p, q.past, q.last.at);
    }
  }

  lemma {:induction false} CoolingPresses(w: World, presses: seq<Act>)
    requires ManualCooling(w) && forall a | a in presses :: a.PressReset?
    ensures DoAll(w, presses) == w
    decreases |presses|
  {
    if presses != [] {
      assert presses[0] in presses;
      CoolingPresses(w, presses[1..]);
    }
  }

  /** The presses that queue up behind a running reset find the cool-down it leaves. */
  lemma QueuedPresses(w: World, ok: bool, presses: seq<Act>)
    requires ManualBusy(w.h) && forall a | a in presses :: a.PressReset?
    ensures DoAll(Do(w, ResetReturns(ok)), presses) == Do(w, ResetReturns(ok))
  {
    CoolingPresses(Do(w, ResetReturns(ok)), presses);
  }
}
