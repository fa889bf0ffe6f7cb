/** `DeviceManager`: one connection to one speaker, its counters and timestamps. */
module DeviceManagers {
  import opened Prelude
  import opened Snapshots
  import opened HealthCheck
  import opened RecoveryHistory
  import Backoff
  import Battery

  /** What the manager remembers of its past. */
  datatype Memory = Memory(
    connectFailures: nat,
    lastConnectFailure: Time,
    unreachableSince: Option<Time>,
    scanErrors: nat,
    emptyScans: nat,
    lastFailedReclaim: Option<Time>,
    lastPowerCommand: Option<Time>,
    lastRecovery: Option<Time>,
    lastManualRecovery: Option<Time>,
    manualReset: bool,
    held: bool,
    retryDelay: real)

  function Remembered(cfg: Config, h: History): Memory {
    Memory(DenseRun(h), LastCounted(h), UnreachableSince(h), ErrorRun(h),
           if cfg.canReclaim then EmptyRun(h) else 0, LastMiss(h), LastPower(h),
           LastRecovery(h), LastManual(h), ManualBusy(h), Held(h), RetryDelay(cfg, h))
  }

  function Counted(m: Memory, asOf: Time): Memory {
    m.(connectFailures := if asOf - m.lastConnectFailure > WEDGE_WINDOW then 1 else m.connectFailures + 1,
       lastConnectFailure := asOf)
  }

  function EmptyScan(cfg: Config, m: Memory): Memory {
    m.(emptyScans := if !cfg.canReclaim || m.emptyScans + 1 >= RECLAIM_EMPTY_SCANS then 0 else m.emptyScans + 1, scanErrors := 0)
  }

  /** What one event does to it. */
  function Remember(cfg: Config, m: Memory, e: Event): Memory {
    match e
    case ScanFailed(_) => m.(scanErrors := m.scanErrors + 1)
    case ScanClean(_, found, _) => if found then m.(scanErrors := 0, emptyScans := 0) else EmptyScan(cfg, m)
    case ClockStopped(_) => m.(unreachableSince := None)
    case Connected(_) => m.(connectFailures := 0, unreachableSince := None, held := true, retryDelay := cfg.base)
    case Dropped(_) => m.(held := false)
    case CountedFailure(asOf, _) => Counted(m, asOf)
    case Trouble(at) => if m.unreachableSince.None? then m.(unreachableSince := Some(at)) else m
    case ReclaimHit(_) => m.(lastFailedReclaim := None, retryDelay := cfg.base)
    case ReclaimMiss(asOf, _) => m.(lastFailedReclaim := Some(asOf))
    case PowerSent(at) => m.(lastPowerCommand := Some(at))
    case Recovery(at, _) => AfterCycle(m, at)
    case ManualBegan(_) => m.(manualReset := true)
    case ManualEnded(at, ok) =>
      var m := m.(lastManualRecovery := Some(at), manualReset := false);
      if ok then AfterCycle(m, at) else m
    case Slept(_, _) => m.(retryDelay := Min(Backoff.Times(m.retryDelay, 2.0), RECONNECT_MAX))
    case _ => m
  }

  /** The adapter has been power-cycled: old evidence no longer counts. */
  function AfterCycle(m: Memory, at: Time): Memory {
    m.(lastRecovery := Some(at), connectFailures := 0, scanErrors := 0)
  }

  /** The questions a history answers change with each event exactly as the manager
      updates its fields. */
  lemma {:induction false} RememberIsExact(cfg: Config, h: History, e: Event)
    ensures Remembered(cfg, Then(h, e)) == Remember(cfg, Remembered(cfg, h), e)
  {
  }

  lemma Recall(cfg: Config, h: History)
    ensures var m := Remembered(cfg, h);
            && m.connectFailures == DenseRun(h) && m.unreachableSince == UnreachableSince(h) && m.scanErrors == ErrorRun(h)
            && m.emptyScans == (if cfg.canReclaim then EmptyRun(h) else 0) && m.lastFailedReclaim == LastMiss(h)
            && m.lastPowerCommand == LastPower(h) && m.lastRecovery == LastRecovery(h)
            && m.lastManualRecovery == LastManual(h) && m.manualReset == ManualBusy(h) && m.held == Held(h)
            && m.retryDelay == RetryDelay(cfg, h)
  {
  }

  class DeviceManager {
    const cfg: Config
    var snapshot: StatusSnapshot
    /** Whether a connected device is held. */
    var device: bool
    var connectedEvent: bool
    var livenessMisses: nat
    var retryDelay: real
    var emptyScans: nat
    var lastFailedReclaim: Option<Time>
    var connectFailures: nat
    var lastConnectFailure: Time
    var unreachableSince: Option<Time>
    var scanErrors: nat
    var lastPowerCommand: Option<Time>
    var lastRecovery: Option<Time>
    var lastManualRecovery: Option<Time>
    /** The manual-reset lock. */
    var resetting: bool
    /** SpeakerStateChanged events handed to the bus, oldest first. */
    var emitted: seq<SpeakerState>
    /** The event loop's clock. */
    var clock: Time
    ghost var h: History

    ghost function W(): World
      reads `h, `clock
    {
      World(cfg, h, clock)
    }

    ghost function Mind(): Memory
      reads `connectFailures, `lastConnectFailure, `unreachableSince, `scanErrors, `emptyScans, `lastFailedReclaim,
            `lastPowerCommand, `lastRecovery, `lastManualRecovery, `resetting, `device, `retryDelay
    {
      Memory(connectFailures, lastConnectFailure, unreachableSince, scanErrors, emptyScans, lastFailedReclaim,
             lastPowerCommand, lastRecovery, lastManualRecovery, resetting, device, retryDelay)
    }

    ghost function Shown(): Face
      reads `snapshot, `livenessMisses, `emitted
    {
      Face(snapshot, livenessMisses, emitted)
    }

    /** Every field answers the question the history poses. */
    ghost predicate Valid()
      reads `connectFailures, `lastConnectFailure, `unreachableSince, `scanErrors, `emptyScans, `lastFailedReclaim,
            `lastPowerCommand, `lastRecovery, `lastManualRecovery, `resetting, `device, `retryDelay, `h, `connectedEvent
    {
      Mind() == Remembered(cfg, h) && connectedEvent == device
    }

    constructor (cfg: Config, clock: Time)
      ensures Valid() && W() == Init(cfg, clock) && Shown() == BLANK
    {
      this.cfg := cfg;
      snapshot, device, connectedEvent, livenessMisses := DISCONNECTED, false, false, 0;
      retryDelay := cfg.base;
      emptyScans, lastFailedReclaim := 0, None;
      connectFailures, lastConnectFailure := 0, 0.0;
      unreachableSince, scanErrors := None, 0;
      lastPowerCommand, lastRecovery, lastManualRecovery := None, None, None;
      resetting := false;
      emitted := [];
      this.clock := clock;
      h := Start;
    }

    /** Log an event whose effect the fields already show. */
    ghost method Note(e: Event)
      requires Mind() == Remember(cfg, Remembered(cfg, h), e) && connectedEvent == device
      modifies `h
      ensures Valid() && h == Then(old(h), e)
    {
      RememberIsExact(cfg, h, e);
      hide Remembered, Remember;
      h := Then(h, e);
    }

    method StartOver(at: Time)
      modifies `lastRecovery, `connectFailures, `scanErrors
      ensures Mind() == AfterCycle(old(Mind()), at)
    {
      lastRecovery := Some(at);
      connectFailures := 0;
      scanErrors := 0;
    }

    // ---- Other coroutines -------------------------------------------------

    method Elapse(d: Duration)
      requires Valid()
      modifies this
      ensures Valid() && W() == Do(old(W()), Tick(d)) && Shown() == old(Shown())
    {
      clock := clock + d;
    }

    /** `power_on` and `power_off`: the command went through. */
    method CommandPower()
      requires Valid()
      modifies this
      ensures Valid() && W() == Do(old(W()), PowerWrite) && Shown() == old(Shown())
    {
      hide Remembered, Held;
      Recall(cfg, h);
      if device {
        lastPowerCommand := Some(clock);
        Note(PowerSent(clock));
      }
    }

    /** `request_adapter_reset`, up to the power-cycle. A call that finds the lock taken
        waits for it and then finds the cool-down running. */
    method BeginReset()
      requires Valid()
      modifies this
      ensures Valid() && W() == Do(old(W()), PressReset) && Shown() == old(Shown())
    {
      hide Remembered, ManualBusy, LastManual;
      Recall(cfg, h);
      if !cfg.canRecover || resetting {
        return;
      }
      var now := clock;
      if lastManualRecovery.Some? && now - lastManualRecovery.value < MANUAL_RECOVERY_COOLDOWN {
        return;
      }
      resetting := true;
      Note(ManualBegan(now));
    }

    /** The rest of it, once the power-cycle has returned. */
    method EndReset(recovered: bool)
      requires Valid()
      modifies `lastManualRecovery, `resetting, `lastRecovery, `connectFailures, `scanErrors, `h
      ensures Valid() && W() == Do(old(W()), ResetReturns(recovered)) && Shown() == old(Shown())
    {
      hide Remembered, ManualBusy, ManualCooling, Held, LastManual;
      Recall(cfg, h);
      if !resetting {
        return;
      }
      lastManualRecovery := Some(clock);
      resetting := false;
      if recovered {
        StartOver(clock);
      }
      Note(ManualEnded(clock, recovered));
      hide Mind, Remember;
    }

    method Perform(act: Act)
      requires Valid()
      modifies this
      ensures Valid() && W() == Do(old(W()), act) && Shown() == old(Shown())
    {
      hide Valid, Do;
      match act {
        case Tick(d) => Elapse(d);
        case PressReset => BeginReset();
        case ResetReturns(ok) => EndReset(ok);
        case PowerWrite => CommandPower();
      }
    }

    /** The manager is suspended while other coroutines act. */
    method Await(acts: seq<Act>)
      requires Valid()
      modifies this
      ensures Valid() && W() == DoAll(old(W()), acts) && Shown() == old(Shown())
    {
      hide Valid, Do;
      for i := 0 to |acts|
        invariant Valid() && DoAll(W(), acts[i..]) == DoAll(old(W()), acts) && Shown() == old(Shown())
      {
        assert acts[i..][0] == acts[i] && acts[i..][1..] == acts[i + 1..];
        Perform(acts[i]);
      }
    }

    /** `asyncio.sleep`, or a wait that times out. */
    method Doze(delay: Duration, acts: seq<Act>)
      requires Valid()
      modifies this
      ensures Valid() && W() == DoAll(old(W()), Asleep(delay, acts)) && Shown() == old(Shown())
    {
      hide Valid, Do, Asleep, DoAll;
      var left: Duration := delay;
      assert acts[0..] == acts;
      for i := 0 to |acts|
        invariant Valid() && Shown() == old(Shown())
        invariant DoAll(W(), Asleep(left, acts[i..])) == DoAll(old(W()), Asleep(delay, acts))
      {
        var act := acts[i];
        assert acts[i..][0] == act && acts[i..][1..] == acts[i + 1..];
        AsleepUnfold(W(), left, acts[i..]);
        if act.Tick? && act.d >= left {
          Elapse(left);
          return;
        }
        Perform(act);
        if act.Tick? {
          left := left - act.d;
        }
      }
      assert acts[|acts|..] == [];
      AsleepUnfold(W(), left, []);
      Elapse(left);
    }

    // ---- Wedge detection and recovery -------------------------------------

    /** `_maybe_recover`, right after an alarm. */
    method MaybeRecover(why: Why, during: seq<Act>)
      requires Valid() && Alarm(h) && h.last.at == clock
      modifies this
      ensures Valid() && W() == Recover(old(W()), why, during) && Shown() == old(Shown())
    {
      hide Remembered, DoAll, Alarm;
      Recall(cfg, h);
      if !cfg.canRecover {
        return;
      }
      var now := clock;
      if lastRecovery.Some? && now - lastRecovery.value < RECOVERY_COOLDOWN {
        return;
      }
      assert Due(cfg, h);
      StartOver(now);
      Note(Recovery(now, why));
      hide Mind, Remember, Due;
      Await(during);
    }

    /** `_note_unreachable_duration`. */
    method NoteUnreachableDuration(during: seq<Act>)
      requires Valid()
      modifies this
      ensures Valid() && W() == NoteUnreachable(old(W()), during) && Shown() == old(Shown())
    {
      hide Remembered, LastPower, UnreachableSince, DoAll, LastRecovery;
      Recall(cfg, h);
      var now := clock;
      if lastPowerCommand.Some? && now - lastPowerCommand.value < POWER_COMMAND_GRACE {
        return;
      }
      if unreachableSince.None? {
        unreachableSince := Some(now);
        Note(Trouble(now));
        return;
      }
      Note(Trouble(now));
      if now - unreachableSince.value >= WEDGE_UNREACHABLE_TIMEOUT {
        MaybeRecover(LongUnreachable, during);
      }
    }

    /** `_reclaim_stale_link`. */
    method ReclaimStaleLink(reply: Reply<bool>) returns (reclaimed: bool)
      requires Valid()
      modifies this
      ensures Valid() && W() == Reclaim(old(W()), reply) && Shown() == old(Shown())
      ensures reclaimed <==> ReclaimReady(old(W())) && reply.value
    {
      hide Remembered, LastMiss, DoAll;
      Recall(cfg, h);
      if !cfg.canReclaim {
        return false;
      }
      var now := clock;
      if lastFailedReclaim.Some? && now - lastFailedReclaim.value < RECLAIM_COOLDOWN {
        return false;
      }
      Await(reply.during);
      if !reply.value {
        lastFailedReclaim := Some(now);
        Note(ReclaimMiss(now, clock));
        return false;
      }
      lastFailedReclaim := None;
      retryDelay := cfg.base;
      Note(ReclaimHit(clock));
      reclaimed := true;
    }

    /** `_note_connect_failure`. */
    method NoteConnectFailure(reclaim: Reply<bool>, during: seq<Act>)
      requires Valid()
      modifies this
      ensures Valid() && W() == NoteFailure(old(W()), reclaim, during) && Shown() == old(Shown())
    {
      hide Remembered, LastPower, Reclaim, ReclaimReady, DoAll, LastRecovery, DenseRun;
      Recall(cfg, h);
      var now := clock;
      if lastPowerCommand.Some? && now - lastPowerCommand.value < POWER_COMMAND_GRACE {
        Note(GraceFailure(now));
        return;
      }
      assert !InGrace(h, now);
      hide InGrace;
      var reclaimed := ReclaimStaleLink(reclaim);
      if reclaimed {
        Note(ReclaimedFailure(clock));
        return;
      }
      CountFailure(now, during);
    }

    /** Its counting half, for a failure at `asOf` that nothing else explains. */
    method CountFailure(asOf: Time, during: seq<Act>)
      requires Valid()
      modifies this
      ensures Valid() && W() == Recover(Log(old(W()), CountedFailure(asOf, old(clock))), DenseFailures, during)
      ensures Shown() == old(Shown())
    {
      hide Remembered, DoAll, LastRecovery, DenseRun;
      if asOf - lastConnectFailure > WEDGE_WINDOW {
        connectFailures := 0;
      }
      lastConnectFailure := asOf;
      connectFailures := connectFailures + 1;
      Note(CountedFailure(asOf, clock));
      Recall(cfg, h);
      assert Alarm(h) <==> connectFailures >= WEDGE_CONNECT_FAILURES;
      hide Mind, Remember, Alarm;
      if connectFailures >= WEDGE_CONNECT_FAILURES {
        MaybeRecover(DenseFailures, during);
      }
    }

    /** `_note_scan_error`. */
    method NoteScanError(during: seq<Act>)
      requires Valid()
      modifies this
      ensures Valid() && W() == Recover(Log(old(W()), ScanFailed(old(clock))), ScanErrors, during)
      ensures Shown() == old(Shown())
    {
      hide Remembered, DoAll, LastRecovery, ErrorRun;
      scanErrors := scanErrors + 1;
      Note(ScanFailed(clock));
      Recall(cfg, h);
      if scanErrors >= WEDGE_SCAN_ERRORS {
        MaybeRecover(ScanErrors, during);
      }
    }

    /** `_note_empty_scan`, after a clean scan that found nothing. */
    method NoteEmptyScan(reclaim: Reply<bool>, ghost beacon: bool)
      requires Mind() == Remembered(cfg, h).(scanErrors := 0) && connectedEvent == device
      modifies this
      ensures Valid() && W() == NoteEmpty(Log(old(W()), ScanClean(old(clock), false, beacon)), reclaim)
      ensures Shown() == old(Shown())
    {
      hide Remembered, Reclaim, EmptyRun;
      Recall(cfg, h);
      ghost var e := ScanClean(clock, false, beacon);
      Recall(cfg, Then(h, e));
      RememberIsExact(cfg, h, e);
      if !cfg.canReclaim {
        Note(e);
        return;
      }
      emptyScans := emptyScans + 1;
      if emptyScans < RECLAIM_EMPTY_SCANS {
        Note(e);
        return;
      }
      emptyScans := 0;
      Note(e);
      var reclaimed := ReclaimStaleLink(reclaim);
    }

    /** `_scan`. */
    method Scan(t: Turn) returns (found: bool)
      requires Valid()
      modifies this
      ensures Valid() && W() == RecoveryHistory.Scan(old(W()), t)
      ensures Shown() == Scanned(old(Shown()), t.scan.value)
      ensures found <==> t.scan.value.Clean? && t.scan.value.found
    {
      hide Remembered, DoAll, RecoveryHistory.CleanScan, NoteUnreachable, Recover;
      Await(t.scan.during);
      match t.scan.value {
        case Raised =>
          NoteScanError(t.recover);
          NoteUnreachableDuration(t.recoverAgain);
          found := false;
        case Clean(seen, beacon) =>
          CleanScan(seen, beacon, t);
          found := seen;
      }
    }

    method CleanScan(found: bool, beacon: bool, t: Turn)
      requires Valid()
      modifies this
      ensures Valid() && W() == RecoveryHistory.CleanScan(old(W()), found, beacon, t)
      ensures Shown() == Apply(old(Shown()), Beacon(beacon))
    {
      hide Remembered, DoAll, NoteEmpty, NoteUnreachable, Recover;
      scanErrors := 0;
      SetSnapshot(snapshot.(beaconSeen := beacon));
      if found {
        emptyScans := 0;
        Note(ScanClean(clock, true, beacon));
        return;
      }
      NoteEmptyScan(t.reclaim, beacon);
      if beacon {
        NoteUnreachableDuration(t.recoverAgain);
      } else {
        StopClock();
      }
    }

    /** No beacon: the speaker is off or away, which is no trouble. */
    method StopClock()
      requires Valid()
      modifies `unreachableSince, `h
      ensures Valid() && W() == Log(old(W()), ClockStopped(clock))
    {
      hide Remembered;
      unreachableSince := None;
      Note(ClockStopped(clock));
    }

    /** `_sleep_and_backoff`. */
    method SleepAndBackoff(acts: seq<Act>)
      requires Valid()
      modifies this
      ensures Valid() && W() == Sleep(old(W()), acts) && Shown() == old(Shown())
    {
      hide Remembered, DoAll, Asleep;
      Recall(cfg, h);
      var delay: Duration := retryDelay;
      Doze(delay, acts);
      Recall(cfg, h);
      retryDelay := Min(Backoff.Times(retryDelay, 2.0), RECONNECT_MAX);
      Note(Slept(clock, delay));
    }

    // ---- The snapshot -----------------------------------------------------

    /** `_set_snapshot`: the only place the snapshot changes. */
    method SetSnapshot(s: StatusSnapshot)
      modifies `snapshot, `emitted
      ensures Shown() == Show(old(Shown()), s)
    {
      var prevState := snapshot.SpeakerState();
      snapshot := s;
      if s.SpeakerState() != prevState {
        emitted := emitted + [s.SpeakerState()];
      }
    }

    /** `_refresh`: what the first reads of a connection say. */
    method Refresh(s: Session)
      requires Valid()
      modifies this
      ensures Valid() && W() == DoAll(old(W()), s.reading)
      ensures Shown() == Apply(old(Shown()), s.Refresh())
    {
      livenessMisses := 0;
      Await(s.reading);
      hide Remembered, DoAll;
      var speakerAwake := s.firmware.Some?;
      var battery: Option<int>, status: Option<Battery.BatteryStatus> := None, None;
      if s.capable && s.status.Some? {
        status := s.status;
        battery := Battery.ChargePercent(status.value);
        speakerAwake := true;
      }
      SetSnapshot(StatusSnapshot(true, s.address, s.firmware, battery, status, s.capable, speakerAwake, true));
    }

    /** `_poll_liveness`: is the speaker awake? A broken link is the caller's business. */
    method PollLiveness(c: HealthCheck.Cycle) returns (heard: Probe<Answer>)
      modifies `snapshot, `emitted, `livenessMisses
      ensures heard == Hear(c)
      ensures Shown() == if heard.Answered? then Apply(old(Shown()), Poll(heard.value)) else old(Shown())
    {
      var awake := false;
      var status: Option<Battery.BatteryStatus> := None;
      match c.battery {
        case Answered(reading) =>
          status := reading;
          awake := reading.Some?;
        case Unanswered =>
        case Broken => return Broken;
        case Gone => return Gone;
      }
      if !awake {
        match c.firmware {
          case Answered(_) => awake := true;
          case Unanswered =>
          case Broken => return Broken;
          case Gone => return Gone;
        }
      }
      if !awake {
        livenessMisses := livenessMisses + 1;
        if livenessMisses >= LIVENESS_MISS_LIMIT {
          SetSnapshot(snapshot.(speakerAwake := false, battery := None, batteryStatus := None));
        }
        return Answered(Silence);
      }
      livenessMisses := 0;
      UpdateReading(status);
      heard := Answered(if status.Some? then Charge(status.value) else Firmware);
    }

    /** The speaker answered: show what is new. */
    method UpdateReading(status: Option<Battery.BatteryStatus>)
      modifies `snapshot, `emitted
      ensures Shown() == Show(old(Shown()), Told(old(snapshot), status))
    {
      var prev := snapshot;
      var next := prev;
      if status.Some? && !prev.hasBattery {
        next := next.(hasBattery := true);
      }
      if status.Some? {
        var level := Battery.ChargePercent(status.value);
        if level != prev.battery || status != prev.batteryStatus {
          next := next.(battery := level, batteryStatus := status);
        }
      }
      if !prev.speakerAwake {
        next := next.(speakerAwake := true);
      }
      hide Battery.ChargePercent;
      if next != prev {
        SetSnapshot(next);
      }
    }

    /** One turn of `_drain_with_health_check`; `failures` and `sincePoll` are its locals. */
    method HealthCycle(c: HealthCheck.Cycle, failures: nat, sincePoll: Duration, ghost trace: Trace)
      returns (failures': nat, sincePoll': Duration, over: bool, ghost trace': Trace)
      requires Valid() && failures == Blips(trace) && sincePoll == SincePoll(trace) && !HealthCheck.Ended(trace)
      modifies this
      ensures Valid() && W() == DoAll(old(W()), CycleActs(c))
      ensures Watch(Shown(), trace') == Attend(Watch(old(Shown()), trace), c)
      ensures over <==> HealthCheck.Ended(trace')
      ensures !over ==> failures' == Blips(trace') && sincePoll' == SincePoll(trace')
    {
      failures', sincePoll', over := failures, sincePoll, true;
      ghost var watch := Watch(Shown(), trace);
      trace' := Attend(watch, c).trace;
      WaitOut(c);
      hide Valid, W, Remembered, DoAll, CycleActs, Apply;
      if c.drained || c.verify.Gone? {
        return;
      }
      var outcome := c.verify;
      if c.verify.Answered? {
        sincePoll' := sincePoll + if c.streaming then STREAMING_HEALTH_CHECK_INTERVAL else HEALTH_CHECK_INTERVAL;
        var standbyConfirmed := livenessMisses >= LIVENESS_MISS_LIMIT;
        if !standbyConfirmed || sincePoll' >= STANDBY_LIVENESS_POLL_INTERVAL {
          sincePoll' := 0.0;
          var heard := PollLiveness(c);
          hide Hear;
          if heard.Gone? {
            return;
          }
          if !heard.Answered? {
            outcome := Broken;
          }
        }
      }
      if outcome.Answered? {
        failures', over := 0, false;
        return;
      }
      if c.confirmed {
        return;
      }
      failures' := failures + 1;
      over := failures' >= HEALTH_CHECK_FAILURE_LIMIT;
    }

    /** The part of a cycle that takes time. */
    method WaitOut(c: HealthCheck.Cycle)
      requires Valid()
      modifies this
      ensures Valid() && W() == DoAll(old(W()), CycleActs(c)) && Shown() == old(Shown())
    {
      hide Valid, DoAll, Asleep;
      ghost var w := W();
      Await(c.asked);
      if c.drained {
        Await(c.waited);
        DoAllAppend(w, c.asked, c.waited);
        return;
      }
      var interval := if c.streaming then STREAMING_HEALTH_CHECK_INTERVAL else HEALTH_CHECK_INTERVAL;
      Doze(interval, c.waited);
      Await(c.probing);
      DoAllAppend(w, c.asked, Asleep(interval, c.waited) + c.probing);
      DoAllAppend(DoAll(w, c.asked), Asleep(interval, c.waited), c.probing);
    }

    /** `_drain_with_health_check`. */
    method DrainWithHealthCheck(cycles: seq<HealthCheck.Cycle>)
      requires Valid()
      modifies this
      ensures Valid() && W() == DoAll(old(W()), Lived(Watch(old(Shown()), Opening), cycles))
      ensures Shown() == AttendAll(Watch(old(Shown()), Opening), cycles).face
    {
      var failures: nat, sincePoll: Duration := 0, 0.0;
      ghost var trace := Opening;
      ghost var w, start := W(), Watch(Shown(), Opening);
      hide Valid, W, DoAll, Attend, CycleActs;
      assert cycles[0..] == cycles;
      for i := 0 to |cycles|
        invariant Valid() && failures == Blips(trace) && sincePoll == SincePoll(trace) && !HealthCheck.Ended(trace)
        invariant AttendAll(Watch(Shown(), trace), cycles[i..]) == AttendAll(start, cycles)
        invariant DoAll(W(), Lived(Watch(Shown(), trace), cycles[i..])) == DoAll(w, Lived(start, cycles))
      {
        var c := cycles[i];
        assert cycles[i..][0] == c && cycles[i..][1..] == cycles[i + 1..];
        ghost var watch, world := Watch(Shown(), trace), W();
        DoAllAppend(world, CycleActs(c), Lived(Attend(watch, c), cycles[i + 1..]));
        var over;
        failures, sincePoll, over, trace := HealthCycle(c, failures, sincePoll, trace);
        if over {
          DoAllNothing(W());
          return;
        }
      }
      assert cycles[|cycles|..] == [];
      DoAllNothing(W());
    }

    // ---- The connect loop -------------------------------------------------

    /** `_connect_and_maintain`. */
    method ConnectAndMaintain(v: Visit)
      requires Valid()
      modifies this
      ensures Valid() && W() == Pass(old(W()), TurnOf(old(Shown()), v))
      ensures Shown() == FacePass(old(Shown()), v)
    {
      hide Valid, W, RecoveryHistory.Scan, DoAll, Sleep, NoteFailure, NoteUnreachable, Hold, Apply, AttendAll, SessionActs;
      var t := v.turn;
      ScanIgnoresHold(W(), t, SessionActs(Scanned(Shown(), t.scan.value), v.session));
      var found := Scan(t);
      if !found {
        SleepAndBackoff(t.sleep);
        return;
      }
      Await(t.connect.during);
      if !t.connect.value {
        NoteConnectFailure(t.reclaim, t.recover);
        NoteUnreachableDuration(t.recoverAgain);
        SleepAndBackoff(t.sleep);
        return;
      }
      Maintain(v.session);
      Await(t.cleanup);
      GoingDark(Shown());
      SetSnapshot(DISCONNECTED);
    }

    /** From the successful connect to the moment the device is let go. */
    method Maintain(s: Session)
      requires Valid()
      modifies this
      ensures Valid() && W() == Hold(old(W()), SessionActs(old(Shown()), s))
      ensures Shown() == AttendAll(Watch(Apply(old(Shown()), s.Refresh()), Opening), s.Cycles()).face
    {
      hide Remembered, DoAll, Apply, Lived, AttendAll;
      TakeDevice();
      ghost var held, face := W(), Apply(Shown(), s.Refresh());
      Refresh(s);
      DrainWithHealthCheck(s.Cycles());
      DoAllAppend(held, s.reading, Lived(Watch(face, Opening), s.Cycles()));
      device := false;
      connectedEvent := false;
      Note(Dropped(clock));
    }

    /** The connect succeeded: the device is held, and old trouble forgotten. */
    method TakeDevice()
      requires Valid()
      modifies `retryDelay, `connectFailures, `unreachableSince, `device, `connectedEvent, `h
      ensures Valid() && W() == Log(old(W()), Connected(old(clock))) && Shown() == old(Shown())
    {
      hide Remembered;
      retryDelay := cfg.base;
      connectFailures := 0;
      unreachableSince := None;
      device := true;
      connectedEvent := true;
      Note(Connected(clock));
    }

    /** `run`, for as many passes as the world allows it. */
    method Run(visits: seq<Visit>)
      requires Valid() && h == Start && Shown() == BLANK
      modifies this
      ensures Valid() && W() == RecoveryHistory.Run(old(W()), Turns(BLANK, visits))
      ensures Shown() == Faces(BLANK, visits)
    {
      hide Valid, W, Shown, Pass, TurnOf, FacePass, BLANK;
      for i := 0 to |visits|
        invariant Valid() && Shown() == Faces(BLANK, visits[..i])
        invariant W() == RecoveryHistory.Run(old(W()), Turns(BLANK, visits[..i]))
      {
        assert visits[..i + 1][..i] == visits[..i];
        ghost var turns := Turns(BLANK, visits[..i]);
        ghost var turn := TurnOf(Shown(), visits[i]);
        assert (turns + [turn])[..|turns|] == turns;
        ConnectAndMaintain(visits[i]);
      }
      assert visits[..|visits|] == visits;
    }
  }

  lemma AsleepUnfold(w: World, left: Duration, acts: seq<Act>)
    ensures DoAll(w, Asleep(left, acts)) ==
            if acts == [] || (acts[0].Tick? && acts[0].d >= left) then Do(w, Tick(left))
            else DoAll(Do(w, acts[0]), Asleep(if acts[0].Tick? then left - acts[0].d else left, acts[1..]))
  {
  }

  lemma ScanIgnoresHold(w: World, t: Turn, hold: seq<Act>)
    ensures RecoveryHistory.Scan(w, t.(hold := hold)) == RecoveryHistory.Scan(w, t)
  {
  }

  lemma GoingDark(f: Face)
    ensures Apply(f, GoDark) == Show(f, DISCONNECTED)
  {
  }

  lemma DoAllNothing(w: World)
    ensures DoAll(w, []) == w
  {
  }
}
