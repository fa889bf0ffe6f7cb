/** `AudioService`: the A2DP connection keeper, its counters and its wake signals. */
module AudioServices {
  import opened Prelude
  import opened AudioHistory
  import opened EventBus

  class AudioService {
    var address: Option<string>
    var addressReady: bool
    var audioReady: bool
    var reconnectNow: bool
    var recheckNow: bool
    var connectedAt: Option<Time>
    var flapCount: nat
    var consecutiveFailures: nat
    /** The monotonic clock the service reads. */
    var clock: Time
    const bus: EventBus<bool>
    ghost var h: History
    /** AudioReadyChanged events handed to the bus, oldest first. */
    ghost var told: seq<bool>

    ghost function W(): World
      reads this
    {
      World(h, clock, address)
    }

    /** The counters answer the questions the history poses. */
    ghost predicate Counters()
      reads this
    {
      && (addressReady <==> address.Some?)
      && connectedAt == ReadySince(h)
      && audioReady == Ready(h)
      && flapCount == Flaps(h)
      && consecutiveFailures == Failures(h)
      && told == Told(h)
    }

    /** The bus has emitted what was told, and greeted every subscriber with the state of
        things when it came. */
    ghost predicate Telling()
      reads `told, bus, bus.Repr
    {
      && bus.Valid() && bus.queueMax == 64 && bus.emitted == told
      && forall q | q in bus.queues :: q.preset == [StateAfter(told, q.joined)]
    }

    ghost predicate Valid()
      reads this, bus, bus.Repr
    {
      Counters() && Telling() && this !in bus.Repr && bus in bus.Repr
    }

    constructor (sinkAddress: Option<string>, clock: Time)
      ensures Valid() && W() == Init(sinkAddress, clock) && fresh(bus.Repr) && bus.queues == []
    {
      address, addressReady := sinkAddress, sinkAddress.Some?;
      audioReady, reconnectNow, recheckNow := false, false, false;
      connectedAt, flapCount, consecutiveFailures := None, 0, 0;
      bus := new EventBus<bool>(QUEUE_MAX);
      this.clock := clock;
      h, told := Start, [];
    }

    // ---- Subscribers ------------------------------------------------------

    /** A queue whose first event is the current state. */
    method Subscribe() returns (q: Queue<bool>)
      requires Valid()
      modifies bus.Repr
      ensures Valid() && fresh(q) && fresh(bus.Repr - old(bus.Repr)) && bus.queues == old(bus.queues) + [q]
      ensures q.joined == |told| && q.preset == [audioReady] && q.ops == [Offer(audioReady)] && q.maxsize == 64
    {
      ReadyIsLastTold(h);
      q := bus.Subscribe();
      bus.Preload(q, audioReady);
    }

    method Unsubscribe(q: Queue<bool>)
      requires Valid()
      modifies bus.Repr
      ensures Valid() && q !in bus.queues && bus.Repr == old(bus.Repr)
    {
      ghost var at := bus.Unsubscribe(q);
    }

    method TakeNext(q: Queue<bool>)
      requires Valid() && q in bus.queues
      modifies bus.Repr
      ensures Valid() && bus.Repr == old(bus.Repr) && bus.queues == old(bus.queues)
      ensures q.ops == old(q.ops) + if old(q.items) == [] then [] else [Get]
    {
      bus.Take(q);
    }

    /** `AudioReadyChanged` goes out to every subscriber. */
    method Announce(val: bool)
      requires Telling() && this !in bus.Repr
      modifies `told, bus.Repr
      ensures Telling() && told == old(told) + [val] && bus.Repr == old(bus.Repr)
    {
      told := told + [val];
      bus.Emit(val);
    }

    // ---- The service ------------------------------------------------------

    method SetAudioReady(val: bool) returns (changed: bool)
      requires Valid()
      modifies this, bus.Repr
      ensures fresh(bus.Repr - old(bus.Repr))
      ensures Valid() && W() == if val then Rise(old(W())) else Fall(old(W()))
      ensures changed <==> val != old(audioReady)
      ensures reconnectNow == old(reconnectNow) && recheckNow == old(recheckNow)
    {
      hide Telling;
      if val == audioReady {
        return false;
      }
      audioReady := val;
      var now := clock;
      h := Then(h, if val then Up(now) else Down(now));
      if val {
        connectedAt := Some(now);
      } else {
        if connectedAt.Some? && now - connectedAt.value < FLAP_WINDOW {
          flapCount := flapCount + 1;
        } else {
          flapCount := 0;
        }
        connectedAt := None;
      }
      Announce(val);
      return true;
    }

    /** The strong wake: any wait ends. */
    method Retry()
      requires Valid()
      modifies this, bus.Repr
      ensures fresh(bus.Repr - old(bus.Repr))
      ensures Valid() && W() == Do(old(W()), RetryNow)
      ensures reconnectNow && recheckNow == old(recheckNow)
    {
      hide Telling;
      reconnectNow := true;
    }

    /** The weak nudge: only the connected-idle wait ends. */
    method Recheck()
      requires Valid()
      modifies this, bus.Repr
      ensures fresh(bus.Repr - old(bus.Repr))
      ensures Valid() && W() == Do(old(W()), RecheckNow)
      ensures recheckNow && reconnectNow == old(reconnectNow)
    {
      hide Telling;
      recheckNow := true;
    }

    method SetAddress(a: string)
      requires Valid()
      modifies this, bus.Repr
      ensures fresh(bus.Repr - old(bus.Repr))
      ensures Valid() && W() == Do(old(W()), UpdateAddress(a))
      ensures reconnectNow && recheckNow == old(recheckNow)
    {
      hide Telling;
      address := Some(a);
      addressReady := true;
      Retry();
    }

    method ForgetAddress()
      requires Valid()
      modifies this, bus.Repr
      ensures fresh(bus.Repr - old(bus.Repr))
      ensures Valid() && W() == Do(old(W()), Forget)
      ensures reconnectNow && recheckNow == old(recheckNow)
    {
      hide Telling;
      address := None;
      addressReady := false;
      reconnectNow := true;
      consecutiveFailures := 0;
      h := Then(h, Forgot);
      var changed := SetAudioReady(false);
    }

    /** One action of another coroutine, or the passing of time. */
    method Perform(act: Act)
      requires Valid()
      modifies this, bus.Repr
      ensures fresh(bus.Repr - old(bus.Repr))
      ensures Valid() && W() == Do(old(W()), act)
      ensures reconnectNow == (old(reconnectNow) || Strong(act))
      ensures recheckNow == (old(recheckNow) || act.RecheckNow?)
    {
      hide Counters, Telling;
      match act {
        case Tick(d) => Elapse(d);
        case RetryNow => Retry();
        case RecheckNow => Recheck();
        case UpdateAddress(a) => SetAddress(a);
        case Forget => ForgetAddress();
        case Join => var q := Subscribe();
        case Take(who) =>
          if who < |bus.queues| {
            TakeNext(bus.queues[who]);
          }
        case Leave(who) =>
          if who < |bus.queues| {
            Unsubscribe(bus.queues[who]);
          }
      }
    }

    /** The loop is suspended while other coroutines act. */
    method Await(acts: seq<Act>)
      requires Valid()
      modifies this, bus.Repr
      ensures fresh(bus.Repr - old(bus.Repr))
      ensures Valid() && W() == DoAll(old(W()), acts)
    {
      for i := 0 to |acts|
        invariant Valid() && DoAll(W(), acts[i..]) == DoAll(old(W()), acts)
        invariant fresh(bus.Repr - old(bus.Repr))
      {
        assert acts[i..][0] == acts[i] && acts[i..][1..] == acts[i + 1..];
        Perform(acts[i]);
      }
    }

    /** `asyncio.sleep`. */
    method Doze(delay: Duration, acts: seq<Act>)
      requires Valid()
      modifies this, bus.Repr
      ensures fresh(bus.Repr - old(bus.Repr))
      ensures Valid() && W() == DoAll(old(W()), Asleep(delay, acts))
    {
      hide Counters, Telling, Do, Asleep, DoAll;
      var left: Duration := delay;
      assert acts[0..] == acts;
      for i := 0 to |acts|
        invariant Valid() && fresh(bus.Repr - old(bus.Repr))
        invariant DoAll(W(), Asleep(left, acts[i..])) == DoAll(old(W()), Asleep(delay, acts))
      {
        var act := acts[i];
        assert acts[i..][0] == act && acts[i..][1..] == acts[i + 1..];
        AsleepUnfold(W(), left, acts[i..]);
        if act.Tick? && act.d >= left {
          Elapse(left);
          return;
        }
        Perform(act);
        if act.Tick? {
          left := left - act.d;
        }
      }
      assert acts[|acts|..] == [];
      AsleepUnfold(W(), left, []);
      Elapse(left);
    }

    method Elapse(d: Duration)
      requires Valid()
      modifies `clock
      ensures Valid() && W() == Do(old(W()), Tick(d))
    {
      hide Telling;
      clock := clock + d;
    }

    /** `_wait_retry`: sleep up to `delay`; whether a strong wake ended it. Only the
        connected-idle wait listens to rechecks as well, and they never count as a wake. */
    method WaitRetry(delay: Duration, interruptOnRecheck: bool, acts: seq<Act>) returns (woken: bool)
      requires Valid()
      modifies this, bus.Repr
      ensures fresh(bus.Repr - old(bus.Repr))
      ensures var spent := Spent(delay, interruptOnRecheck, acts);
              Valid() && W() == DoAll(old(W()), spent) && woken == Woken(spent)
    {
      reconnectNow := false;
      if interruptOnRecheck {
        recheckNow := false;
      }
      assert acts[0..] == acts;
      hide Spent, DoAll, Woken, Counters, Telling, W, Do;
      var left: Duration := delay;
      ghost var end := DoAll(W(), Spent(delay, interruptOnRecheck, acts));
      ghost var wakes := Woken(Spent(delay, interruptOnRecheck, acts));
      for i := 0 to |acts|
        invariant Valid() && !reconnectNow && fresh(bus.Repr - old(bus.Repr))
        invariant interruptOnRecheck ==> !recheckNow
        invariant end == DoAll(W(), Spent(left, interruptOnRecheck, acts[i..]))
        invariant wakes == Woken(Spent(left, interruptOnRecheck, acts[i..]))
      {
        var act := acts[i];
        assert acts[i..][0] == act && acts[i..][1..] == acts[i + 1..];
        SpentUnfold(W(), left, interruptOnRecheck, acts[i..]);
        if act.Tick? && act.d >= left {
          Perform(Tick(left));
          return false;
        }
        Perform(act);
        if reconnectNow || (interruptOnRecheck && recheckNow) {
          return reconnectNow;
        }
        if act.Tick? {
          left := left - act.d;
        }
      }
      assert acts[|acts|..] == [];
      SpentUnfold(W(), left, interruptOnRecheck, []);
      Perform(Tick(left));
      woken := false;
    }

    /** A helper process: its answer, after whatever happened meanwhile. */
    method RunSubprocess(reply: Reply) returns (ok: bool)
      requires Valid()
      modifies this, bus.Repr
      ensures fresh(bus.Repr - old(bus.Repr))
      ensures Valid() && W() == DoAll(old(W()), reply.during) && ok == reply.ok
    {
      Await(reply.during);
      ok := reply.ok;
    }

    method PinVolume(acts: seq<Act>)
      requires Valid()
      modifies this, bus.Repr
      ensures fresh(bus.Repr - old(bus.Repr))
      ensures Valid() && W() == DoAll(Log(old(W()), AudioHistory.Pin), acts)
    {
      hide Telling;
      h := Then(h, AudioHistory.Pin);
      Await(acts);
    }

    /** A failure, flap or standby wait, with the counters it clears first. */
    method HoldOff(hold: Hold, delay: Duration, acts: seq<Act>) returns (woken: bool)
      requires Valid() && delay == Length(W(), hold)
      modifies this, bus.Repr
      ensures fresh(bus.Repr - old(bus.Repr))
      ensures Valid() && W() == HoldFor(old(W()), hold, acts)
      ensures Delay(h) == if hold == Backoff && !woken then Min(2.0 * Delay(old(h)), RETRY_MAX) else RETRY_BASE
    {
      hide Spent, DoAll, Woken, Counters, Telling, Delay;
      DelayAfter(W(), hold, Spent(delay, false, acts));
      StartHold(hold);
      woken := WaitRetry(delay, false, acts);
      EndHold(hold, woken);
    }

    method StartHold(hold: Hold)
      requires Valid()
      modifies `consecutiveFailures, `flapCount, `h
      ensures Valid() && W() == Log(old(W()), Held(hold))
    {
      hide Telling;
      if hold == Gate || hold == FailureCooldown {
        consecutiveFailures := 0;
      }
      if hold == Gate || hold == FlapCooldown {
        flapCount := 0;
      }
      h := Then(h, Held(hold));
    }

    ghost method EndHold(hold: Hold, woken: bool)
      requires Valid()
      modifies `h
      ensures Valid() && W() == Log(old(W()), Released(hold, woken))
    {
      hide Telling;
      h := Then(h, Released(hold, woken));
    }

    /** `run`'s connected branch. */
    method WhileConnected(t: Turn) returns (next: Duration)
      requires Valid()
      modifies this, bus.Repr
      ensures fresh(bus.Repr - old(bus.Repr))
      ensures Valid() && W() == StepConnected(old(W()), t) && next == Delay(h)
    {
      var becameReady := SetAudioReady(true);
      next := RETRY_BASE;
      consecutiveFailures := 0;
      h := Then(h, Linked);
      assert Delay(h) == RETRY_BASE;
      ghost var up := W();
      DoAllKeeps(up, Spent(CHECK_INTERVAL, true, t.wait));
      hide Spent, DoAll, Woken, Telling;
      if becameReady {
        PinVolume(t.pin);
        DoAllKeeps(Log(up, AudioHistory.Pin), t.pin);
        DoAllKeeps(W(), Spent(CHECK_INTERVAL, true, t.wait));
      }
      var ignored := WaitRetry(CHECK_INTERVAL, true, t.wait);
    }

    /** `run`'s disconnected branch, with audio already down. */
    method WhileDisconnected(t: Turn, retryDelay: Duration) returns (next: Duration)
      requires Valid() && retryDelay == Delay(h) && !audioReady
      modifies this, bus.Repr
      ensures fresh(bus.Repr - old(bus.Repr))
      ensures Valid() && W() == StepDisconnected(old(W()), t) && next == Delay(h)
    {
      hide DoAll, Spent, Telling;
      if t.state == Some(Standby) {
        var woken := HoldOff(Gate, STANDBY_RECHECK, t.wait);
        return RETRY_BASE;
      }
      if flapCount >= FLAP_LIMIT {
        var woken := HoldOff(FlapCooldown, FLAP_COOLDOWN, t.wait);
        return RETRY_BASE;
      }
      next := TryConnect(t, retryDelay);
    }

    /** An attempt to connect, and what follows from its outcome. */
    method TryConnect(t: Turn, retryDelay: Duration) returns (next: Duration)
      requires Valid() && retryDelay == Delay(h) && !audioReady
      requires t.state != Some(Standby) && flapCount < FLAP_LIMIT
      modifies this, bus.Repr
      ensures fresh(bus.Repr - old(bus.Repr))
      ensures Valid() && W() == StepDisconnected(old(W()), t) && next == Delay(h)
    {
      hide HoldFor, Telling;
      ghost var w := W();
      h := Then(h, Attempt(t.state));
      ghost var tried := W();
      InFlightKeeps(tried, t.connect.during);
      var connected := RunSubprocess(t.connect);
      ghost var answered := W();
      TryEffect(w.h, Attempt(t.state));
      assert !audioReady && retryDelay == Delay(h);
      if connected {
        next := Connected(t);
        assert StepDisconnected(w, t) == Connects(answered, t) by { hide StepFailed, DoAll, Connects; }
        return;
      }
      InFlightKeeps(answered, t.again.during);
      var rescued := RunSubprocess(t.again);
      hide StepFailed, DoAll;
      if rescued {
        h := Then(h, Rescue);
        consecutiveFailures := 0;
        return RETRY_BASE;
      }
      next := AfterFailure(t, retryDelay);
    }

    method Connected(t: Turn) returns (next: Duration)
      requires Valid() && !audioReady
      modifies this, bus.Repr
      ensures fresh(bus.Repr - old(bus.Repr))
      ensures Valid() && W() == Connects(old(W()), t) && next == Delay(h)
    {
      hide Lawful, Count, Woken, Forgets;
      var becameReady := SetAudioReady(true);
      next := RETRY_BASE;
      consecutiveFailures := 0;
      h := Then(h, Linked);
      ghost var up := W();
      assert Delay(up.h) == RETRY_BASE;
      ghost var settled := Asleep(POST_CONNECT_SETTLE, t.settle);
      DoAllKeeps(up, settled);
      DoAllKeeps(Log(DoAll(up, settled), AudioHistory.Pin), t.pin);
      hide DoAll, Telling, Asleep;
      Doze(POST_CONNECT_SETTLE, t.settle);
      if becameReady {
        PinVolume(t.pin);
      }
    }

    method AfterFailure(t: Turn, retryDelay: Duration) returns (next: Duration)
      requires Valid() && retryDelay == Delay(h)
      modifies this, bus.Repr
      ensures fresh(bus.Repr - old(bus.Repr))
      ensures Valid() && W() == StepFailed(Log(old(W()), Failure), t) && next == Delay(h)
    {
      hide HoldFor, Telling, Flaps, ReadySince, Failures, Told, Delay, Forgiven, Lawful, Count;
      consecutiveFailures := consecutiveFailures + 1;
      h := Then(h, Failure);
      TryEffect(old(h), Failure);
      if consecutiveFailures >= FAILURE_LIMIT {
        var woken := HoldOff(FailureCooldown, FAILURE_COOLDOWN, t.wait);
        return RETRY_BASE;
      }
      var woken := HoldOff(Backoff, retryDelay, t.wait);
      next := if woken then RETRY_BASE else Min(retryDelay * 2.0, RETRY_MAX);
    }

    /** One pass of `run`'s loop body; `retryDelay` is its local backoff. */
    method Pass(t: Turn, retryDelay: Duration) returns (next: Duration)
      requires Valid() && retryDelay == Delay(h)
      modifies this, bus.Repr
      ensures fresh(bus.Repr - old(bus.Repr))
      ensures Valid() && W() == Step(old(W()), t) && next == Delay(h)
    {
      hide DoAll, Telling, StepConnected, StepDisconnected;
      FallKeeps(W());
      DoAllKeeps(Fall(W()), t.parked);
      if !addressReady {
        var changed := SetAudioReady(false);
        Await(t.parked);
        if !addressReady {
          return retryDelay;
        }
        h := Then(h, Resumed);
        consecutiveFailures := 0;
        return RETRY_BASE;
      }
      InFlightKeeps(W(), t.check.during);
      FallKeeps(DoAll(W(), t.check.during));
      var connected := RunSubprocess(t.check);
      if connected {
        next := WhileConnected(t);
      } else {
        var changed := SetAudioReady(false);
        next := WhileDisconnected(t, retryDelay);
      }
    }

    /** `run`, for as many passes as the world allows it. */
    method RunLoop(turns: seq<Turn>)
      requires Valid() && h == Start
      modifies this, bus.Repr
      ensures fresh(bus.Repr - old(bus.Repr))
      ensures Valid() && W() == AudioHistory.Run(old(W()), turns)
    {
      hide Step, Counters, Telling;
      var retryDelay: Duration := RETRY_BASE;
      for i := 0 to |turns|
        invariant Valid() && retryDelay == Delay(h) && fresh(bus.Repr - old(bus.Repr))
        invariant W() == AudioHistory.Run(old(W()), turns[..i])
      {
        assert turns[..i + 1][..i] == turns[..i];
        retryDelay := Pass(turns[i], retryDelay);
      }
      assert turns[..|turns|] == turns;
    }
  }

  const QUEUE_MAX := 64

  /** The last of the first n events told: the state of things after them. */
  function StateAfter(told: seq<bool>, n: nat): bool {
    0 < n <= |told| && told[n - 1]
  }

  lemma {:induction false} ReadyIsLastTold(h: History)
    ensures Ready(h) == StateAfter(Told(h), |Told(h)|)
  {
    if h.Then? {
      ReadyIsLastTold(h.past);
    }
  }

  lemma {:induction false} DelayAfter(w: World, hold: Hold, acts: seq<Act>)
    ensures Delay(HoldDuring(w, hold, acts).h) ==
            if hold == Backoff && !Woken(acts) then Min(2.0 * Delay(w.h), RETRY_MAX) else RETRY_BASE
  {
    DoAllKeeps(Log(w, Held(hold)), acts);
    hide DoAll, Woken, Lawful, Count, Fresh, Flaps, Ready, Failures, Forgiven;
  }

  lemma AsleepUnfold(w: World, left: Duration, acts: seq<Act>)
    ensures DoAll(w, Asleep(left, acts)) ==
            if acts == [] || (acts[0].Tick? && acts[0].d >= left) then Do(w, Tick(left))
            else DoAll(Do(w, acts[0]), Asleep(if acts[0].Tick? then left - acts[0].d else left, acts[1..]))
  {
  }

  /** The first thing a wait hears of, and the rest. */
  lemma SpentUnfold(w: World, left: Duration, onRecheck: bool, acts: seq<Act>)
    ensures var spent := Spent(left, onRecheck, acts);
            if acts == [] || (acts[0].Tick? && acts[0].d >= left) then
              DoAll(w, spent) == Do(w, Tick(left)) && !Woken(spent)
            else if Strong(acts[0]) || (acts[0].RecheckNow? && onRecheck) then
              DoAll(w, spent) == Do(w, acts[0]) && (Woken(spent) <==> Strong(acts[0]))
            else
              var later := Spent(if acts[0].Tick? then left - acts[0].d else left, onRecheck, acts[1..]);
              DoAll(w, spent) == DoAll(Do(w, acts[0]), later) && (Woken(spent) <==> Woken(later))
  {
  }
}
