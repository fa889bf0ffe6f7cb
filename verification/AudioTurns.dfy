/** What one turn of the retry loop takes, and what it tells: every wait on the clock, and
    every readiness event, from the outcomes of the turn. */
module AudioTurns {
  import opened Prelude
  import opened AudioHistory

  // ---- Waits --------------------------------------------------------------

  function Ticks(acts: seq<Act>): real {
    if acts == [] then 0.0 else (if acts[0].Tick? then acts[0].d else 0.0) + Ticks(acts[1..])
  }

  lemma {:induction false} TicksLast(w: World, acts: seq<Act>)
    ensures DoAll(w, acts).clock == w.clock + Ticks(acts)
    decreases |acts|
  {
    hide Ready;
    if acts != [] {
      TicksLast(Do(w, acts[0]), acts[1..]);
    }
  }

  lemma {:induction false} AsleepTicks(delay: Duration, acts: seq<Act>)
    ensures Ticks(Asleep(delay, acts)) == delay
    decreases |acts|
  {
    if acts != [] && !(acts[0].Tick? && acts[0].d >= delay) {
      var later := if acts[0].Tick? then delay - acts[0].d else delay;
      AsleepTicks(later, acts[1..]);
      assert ([acts[0]] + Asleep(later, acts[1..]))[1..] == Asleep(later, acts[1..]);
    }
  }

  /** Someone asked for a retry, gave a new address or had the old one forgotten. */
  ghost predicate Interrupted(acts: seq<Act>) {
    exists i | 0 <= i < |acts| :: Interrupts(acts[i])
  }

  predicate Interrupts(a: Act) {
    a.RetryNow? || a.UpdateAddress? || a.Forget?
  }

  lemma InterruptedIsWoken(acts: seq<Act>)
    ensures Interrupted(acts) <==> Woken(acts)
  {
    if i :| 0 <= i < |acts| && Interrupts(acts[i]) {
      assert Strong(acts[i]);
    }
    if i :| 0 <= i < |acts| && Strong(acts[i]) {
      assert Interrupts(acts[i]);
    }
  }

  /** Whether this cuts a wait short; only the connected-idle one listens to rechecks. */
  predicate Cuts(a: Act, onRecheck: bool) {
    Interrupts(a) || (onRecheck && a.RecheckNow?)
  }

  /** The first thing a wait listens to ends it there and then, if it comes in time; if
      nothing does, the wait takes its whole delay and does not count as woken. */
  lemma {:induction false} WaitIsCut(delay: Duration, onRecheck: bool, acts: seq<Act>, i: nat)
    requires i <= |acts| && delay > 0.0
    requires forall j | 0 <= j < i :: !Cuts(acts[j], onRecheck)
    requires i < |acts| ==> Cuts(acts[i], onRecheck)
    ensures i < |acts| && Ticks(acts[..i]) < delay ==> Spent(delay, onRecheck, acts) == acts[..i + 1]
    ensures i == |acts| || Ticks(acts[..i]) >= delay ==>
              Ticks(Spent(delay, onRecheck, acts)) == delay && !Interrupted(Spent(delay, onRecheck, acts))
    decreases |acts|
  {
    var spent := Spent(delay, onRecheck, acts);
    if acts == [] {
    } else if i == 0 {
      assert acts[..0] == [];
      assert spent == [acts[0]] == acts[..1];
    } else {
      var a, rest := acts[0], acts[1..];
      assert !Cuts(a, onRecheck) && acts[..i][1..] == rest[..i - 1];
      TicksNonNegative(rest[..i - 1]);
      if !(a.Tick? && a.d >= delay) {
        var later := if a.Tick? then delay - a.d else delay;
        WaitIsCut(later, onRecheck, rest, i - 1);
        assert spent == [a] + Spent(later, onRecheck, rest);
        assert spent[1..] == Spent(later, onRecheck, rest);
        if i < |acts| {
          assert acts[..i + 1] == [a] + rest[..i];
        }
        assert Interrupted(spent) ==> Interrupted(spent[1..]) by {
          if k :| 0 <= k < |spent| && Interrupts(spent[k]) {
            assert Interrupts(spent[1..][k - 1]);
          }
        }
      }
    }
  }

  lemma {:induction false} TicksNonNegative(acts: seq<Act>)
    ensures Ticks(acts) >= 0.0
  {
    if acts != [] {
      TicksNonNegative(acts[1..]);
    }
  }

  function Without(acts: seq<Act>): seq<Act> {
    if acts == [] then [] else (if acts[0].RecheckNow? then [] else [acts[0]]) + Without(acts[1..])
  }

  lemma {:induction false} SpentIsQuiet(delay: Duration, acts: seq<Act>)
    requires !Woken(acts)
    ensures !Woken(Spent(delay, false, acts))
    decreases |acts|
  {
    if acts != [] {
      assert !Strong(acts[0]);
      WokenCons(acts[0], acts[1..]);
      assert [acts[0]] + acts[1..] == acts;
      var later := if acts[0].Tick? && acts[0].d < delay then delay - acts[0].d else delay;
      SpentIsQuiet(later, acts[1..]);
      WokenCons(acts[0], Spent(later, false, acts[1..]));
    }
  }

  /** A wait lasts exactly its delay unless a strong wake cuts it short. */
  lemma {:induction false} WaitLength(delay: Duration, acts: seq<Act>)
    ensures !Woken(Spent(delay, false, acts)) ==> Ticks(Spent(delay, false, acts)) == delay
    ensures Ticks(Spent(delay, false, acts)) <= delay
    decreases |acts|
  {
    if acts != [] {
      var a, rest := acts[0], acts[1..];
      if Strong(a) {
        assert Strong(Spent(delay, false, acts)[0]);
      } else if !a.Tick? || a.d < delay {
        var later := if a.Tick? then delay - a.d else delay;
        WaitLength(later, rest);
        assert ([a] + Spent(later, false, rest))[1..] == Spent(later, false, rest);
        WokenCons(a, Spent(later, false, rest));
      }
    }
  }

  /** Recheck nudges neither shorten a failure wait nor count as a wake: the wait is
      what it would have been had they never come. */
  lemma {:induction false} RechecksDoNotWake(delay: Duration, acts: seq<Act>)
    ensures Without(Spent(delay, false, acts)) == Spent(delay, false, Without(acts))
    ensures Woken(Spent(delay, false, acts)) <==> Woken(Spent(delay, false, Without(acts)))
    decreases |acts|
  {
    if acts != [] {
      var a, rest := acts[0], acts[1..];
      var later := if a.Tick? && a.d < delay then delay - a.d else delay;
      RechecksDoNotWake(later, rest);
      WithoutCons(a, Spent(later, false, rest));
      WithoutCons(Tick(delay), []);
      assert [] + Without(rest) == Without(rest);
      assert [] + Without(Spent(later, false, rest)) == Without(Spent(later, false, rest));
      SpentCons(delay, a, Without(rest));
      WokenCons(a, Spent(later, false, rest));
      WokenCons(a, Spent(later, false, Without(rest)));
    }
  }

  lemma WithoutCons(a: Act, acts: seq<Act>)
    ensures Without([a] + acts) == (if a.RecheckNow? then [] else [a]) + Without(acts)
    ensures Without([a]) == if a.RecheckNow? then [] else [a]
  {
  }

  lemma SpentCons(delay: Duration, a: Act, acts: seq<Act>)
    ensures Spent(delay, false, [a] + acts) ==
            if a.Tick? && a.d >= delay then [Tick(delay)]
            else if a.Tick? then [a] + Spent(delay - a.d, false, acts)
            else if Strong(a) then [a]
            else [a] + Spent(delay, false, acts)
  {
  }

  lemma WokenCons(a: Act, acts: seq<Act>)
    ensures Woken([a] + acts) <==> Strong(a) || Woken(acts)
  {
    if Woken(acts) {
      var i :| 0 <= i < |acts| && Strong(acts[i]);
      assert Strong(([a] + acts)[i + 1]);
    }
    if Strong(a) {
      assert Strong(([a] + acts)[0]);
    }
  }

  // ---- What one turn takes ------------------------------------------------

  /** How a turn with an address ends. */
  datatype Ending = Idles | Gated | Flapping | Joined | Rescued | Cooling | BackingOff

  /** The history once the turn has found the link down. */
  function Dropped(w: World, t: Turn): History {
    if Ready(w.h) then Then(w.h, Down(w.clock + Ticks(t.check.during))) else w.h
  }

  function EndingOf(w: World, t: Turn): Ending {
    if t.check.ok then Idles
    else if t.state == Some(Standby) then Gated
    else if Flaps(Dropped(w, t)) >= 3 then Flapping
    else if t.connect.ok then Joined
    else if t.again.ok then Rescued
    else if Failures(w.h) >= 4 then Cooling
    else BackingOff
  }

  /** Seconds that helper processes, the settling and the pinning take. */
  function Busy(w: World, t: Turn): real {
    Ticks(t.check.during) +
    match EndingOf(w, t)
    case Idles => if Ready(w.h) then 0.0 else Ticks(t.pin)
    case Gated => 0.0
    case Flapping => 0.0
    case Joined => Ticks(t.connect.during) + 5.0 + Ticks(t.pin)
    case _ => Ticks(t.connect.during) + Ticks(t.again.during)
  }

  /** Seconds the turn then waits if nobody interrupts it. */
  function Waits(w: World, t: Turn): real {
    match EndingOf(w, t)
    case Idles => 60.0
    case Gated => 300.0
    case Flapping => 120.0
    case Joined => 0.0
    case Rescued => 0.0
    case Cooling => 300.0
    case BackingOff => Delay(w.h)
  }

  predicate Nudged(acts: seq<Act>) {
    exists i | 0 <= i < |acts| :: acts[i].RecheckNow?
  }

  lemma {:induction false} SpentTicks(delay: Duration, onRecheck: bool, acts: seq<Act>)
    ensures 0.0 <= Ticks(Spent(delay, onRecheck, acts)) <= delay
    ensures !Interrupted(acts) && !(onRecheck && Nudged(acts)) ==> Ticks(Spent(delay, onRecheck, acts)) == delay
    decreases |acts|
  {
    if acts != [] {
      var a, rest := acts[0], acts[1..];
      assert Cuts(a, onRecheck) ==> Interrupted(acts) || (onRecheck && Nudged(acts));
      if !Cuts(a, onRecheck) && !(a.Tick? && a.d >= delay) {
        var later := if a.Tick? then delay - a.d else delay;
        SpentTicks(later, onRecheck, rest);
        assert ([a] + Spent(later, onRecheck, rest))[1..] == Spent(later, onRecheck, rest);
        assert Interrupted(rest) ==> Interrupted(acts) by {
          if k :| 0 <= k < |rest| && Interrupts(rest[k]) {
            assert Interrupts(acts[k + 1]);
          }
        }
        assert Nudged(rest) ==> Nudged(acts) by {
          if k :| 0 <= k < |rest| && rest[k].RecheckNow? {
            assert acts[k + 1].RecheckNow?;
          }
        }
      }
    }
  }

  /** A wait of this length, on the clock and in what is told. */
  lemma HoldLasts(w: World, hold: Hold, acts: seq<Act>)
    requires Delay(w.h) > 0.0
    ensures var most := if hold == Backoff then Delay(w.h) else if hold == FlapCooldown then 120.0 else 300.0;
            && w.clock <= HoldFor(w, hold, acts).clock <= w.clock + most
            && (!Interrupted(acts) ==> HoldFor(w, hold, acts).clock == w.clock + most)
    ensures !Forgets(Spent(Length(w, hold), false, acts)) ==> Told(HoldFor(w, hold, acts).h) == Told(w.h)
  {
    var spent := Spent(Length(w, hold), false, acts);
    SpentTicks(Length(w, hold), false, acts);
    TicksLast(Log(w, Held(hold)), spent);
    DoAllKeeps(Log(w, Held(hold)), spent);
    hide Spent, DoAll, Undisturbed, Failures, Forgiven, Woken, Interrupted, Forgets, Ticks;
  }

  lemma {:induction false} SpentForgets(delay: Duration, onRecheck: bool, acts: seq<Act>)
    requires !Forgets(acts)
    ensures !Forgets(Spent(delay, onRecheck, acts))
    decreases |acts|
  {
    if acts != [] {
      assert !acts[0].Forget?;
      ForgetsCons(acts[0], acts[1..]);
      assert [acts[0]] + acts[1..] == acts;
      var later := if acts[0].Tick? && acts[0].d < delay then delay - acts[0].d else delay;
      SpentForgets(later, onRecheck, acts[1..]);
      ForgetsCons(acts[0], Spent(later, onRecheck, acts[1..]));
    }
  }

  lemma ForgetsCons(a: Act, acts: seq<Act>)
    ensures Forgets([a] + acts) <==> a.Forget? || Forgets(acts)
  {
    if i :| 0 <= i < |acts| && acts[i].Forget? {
      assert ([a] + acts)[i + 1].Forget?;
    }
    assert a.Forget? ==> ([a] + acts)[0].Forget?;
  }

  lemma {:induction false} AsleepForgets(delay: Duration, acts: seq<Act>)
    requires !Forgets(acts)
    ensures !Forgets(Asleep(delay, acts))
    decreases |acts|
  {
    if acts != [] {
      assert !acts[0].Forget?;
      ForgetsCons(acts[0], acts[1..]);
      assert [acts[0]] + acts[1..] == acts;
      if !(acts[0].Tick? && acts[0].d >= delay) {
        var later := if acts[0].Tick? then delay - acts[0].d else delay;
        AsleepForgets(later, acts[1..]);
        ForgetsCons(acts[0], Asleep(later, acts[1..]));
      }
    }
  }

  /** The account that a turn must give: the time it takes, and what subscribers are told
      unless the address is forgotten meanwhile. */
  ghost predicate Accounts(w: World, t: Turn, w': World) {
    && w.clock + Busy(w, t) <= w'.clock <= w.clock + Busy(w, t) + Waits(w, t)
    && (!Interrupted(t.wait) && !(t.check.ok && Nudged(t.wait)) ==> w'.clock == w.clock + Busy(w, t) + Waits(w, t))
    && (!Forgets(t.settle) && !Forgets(t.pin) && !Forgets(t.wait) ==> Told(w'.h) == Told(w.h) + News(w, t))
  }

  /** Audio is announced when the link is found up or a connect succeeds, and withdrawn
      when it is found down; nothing is said twice. */
  function News(w: World, t: Turn): seq<bool> {
    match EndingOf(w, t)
    case Idles => if Ready(w.h) then [] else [true]
    case Joined => (if Ready(w.h) then [false] else []) + [true]
    case _ => if Ready(w.h) then [false] else []
  }

  lemma IdleTurn(w: World, t: Turn)
    requires w.address.Some? && t.check.ok
    ensures Accounts(w, t, Step(w, t))
  {
    hide DoAll, Spent, Undisturbed, Interrupted, Nudged, Forgets, Woken, Failures, Forgiven, Flaps, Ticks;
    var checked := DoAll(w, t.check.during);
    InFlightKeeps(w, t.check.during);
    TicksLast(w, t.check.during);
    var up := Log(Rise(checked), Linked);
    var pinning := Log(up, Pin);
    DoAllKeeps(pinning, t.pin);
    TicksLast(pinning, t.pin);
    var idle := if Ready(w.h) then up else DoAll(pinning, t.pin);
    var spent := Spent(CHECK_INTERVAL, true, t.wait);
    SpentTicks(CHECK_INTERVAL, true, t.wait);
    DoAllKeeps(idle, spent);
    TicksLast(idle, spent);
    if !Forgets(t.wait) {
      SpentForgets(CHECK_INTERVAL, true, t.wait);
    }
    var end := DoAll(idle, spent);
    assert end == Step(w, t);
    assert idle.clock == w.clock + Busy(w, t);
    assert Told(up.h) == Told(w.h) + News(w, t);
    assert !Forgets(t.pin) && !Forgets(t.wait) ==> Told(end.h) == Told(up.h);
  }

  /** The turn up to the point where the link is known to be down. */
  lemma FoundDown(w: World, t: Turn) returns (down: World)
    requires Delay(w.h) > 0.0 && w.address.Some? && !t.check.ok
    ensures down.h == Dropped(w, t) && down.clock == w.clock + Ticks(t.check.during) && down.address.Some?
    ensures Step(w, t) == StepDisconnected(down, t)
    ensures Told(down.h) == Told(w.h) + (if Ready(w.h) then [false] else [])
    ensures !Ready(down.h) && Failures(down.h) == Failures(w.h) && Delay(down.h) == Delay(w.h) > 0.0
  {
    var checked := DoAll(w, t.check.during);
    InFlightKeeps(w, t.check.during);
    TicksLast(w, t.check.during);
    down := Fall(checked);
    FallKeeps(checked);
    hide DoAll, Undisturbed, StepDisconnected, Lawful, Count, Flaps, Forgiven;
  }

  lemma HoldingTurn(w: World, t: Turn)
    requires Delay(w.h) > 0.0 && w.address.Some? && EndingOf(w, t) in {Gated, Flapping}
    ensures Accounts(w, t, Step(w, t))
  {
    var down := FoundDown(w, t);
    hide Step, HoldFor, Interrupted, Forgets, Failures, Flaps, Delay, Ready, Ticks, Spent, Told;
    var hold := if EndingOf(w, t).Gated? then Gate else FlapCooldown;
    HoldLasts(down, hold, t.wait);
    if !Forgets(t.wait) {
      SpentForgets(Length(down, hold), false, t.wait);
    }
  }

  lemma JoinLasts(w: World, t: Turn)
    requires !Ready(w.h)
    ensures Connects(w, t).clock == w.clock + 5.0 + Ticks(t.pin)
    ensures !Forgets(t.settle) && !Forgets(t.pin) ==> Told(Connects(w, t).h) == Told(w.h) + [true]
  {
    var up := Log(Rise(w), Linked);
    var settled := Asleep(POST_CONNECT_SETTLE, t.settle);
    AsleepTicks(POST_CONNECT_SETTLE, t.settle);
    TicksLast(up, settled);
    DoAllKeeps(up, settled);
    var pinning := Log(DoAll(up, settled), Pin);
    TicksLast(pinning, t.pin);
    DoAllKeeps(pinning, t.pin);
    if !Forgets(t.settle) {
      AsleepForgets(POST_CONNECT_SETTLE, t.settle);
    }
    assert Told(up.h) == Told(w.h) + [true];
    assert Told(pinning.h) == Told(DoAll(up, settled).h);
    assert Connects(w, t) == DoAll(pinning, t.pin);
    hide DoAll, Asleep, Undisturbed, Forgets, Ticks, Woken, Failures, Forgiven;
  }

  lemma AttemptTurn(w: World, t: Turn)
    requires Delay(w.h) > 0.0 && w.address.Some? && EndingOf(w, t) in {Joined, Rescued, Cooling, BackingOff}
    ensures Accounts(w, t, Step(w, t))
  {
    hide Step, Interrupted, Nudged, Forgets, Flaps, Ticks, Spent, DoAll, Undisturbed;
    var down := FoundDown(w, t);
    var tried := DoAll(Log(down, Attempt(t.state)), t.connect.during);
    InFlightKeeps(Log(down, Attempt(t.state)), t.connect.during);
    TicksLast(Log(down, Attempt(t.state)), t.connect.during);
    var again := DoAll(tried, t.again.during);
    InFlightKeeps(tried, t.again.during);
    TicksLast(tried, t.again.during);
    if t.connect.ok {
      JoinLasts(tried, t);
      hide Connects;
    } else if t.again.ok {
    } else {
      var failed := Log(again, Failure);
      var hold := if Failures(failed.h) >= FAILURE_LIMIT then FailureCooldown else Backoff;
      HoldLasts(failed, hold, t.wait);
      if !Forgets(t.wait) {
        SpentForgets(Length(failed, hold), false, t.wait);
      }
      hide HoldFor, Length;
      assert Step(w, t) == HoldFor(failed, hold, t.wait);
      assert Failures(failed.h) == Failures(w.h) + 1 && Delay(failed.h) == Delay(w.h);
      assert failed.clock == w.clock + Busy(w, t);
    }
  }

  /** Every turn with an address takes exactly the time its outcome calls for, unless its
      wait is interrupted, and tells subscribers exactly what it found out. */
  lemma TurnAccounts(w: World, t: Turn)
    requires Delay(w.h) > 0.0 && w.address.Some?
    ensures Accounts(w, t, Step(w, t))
  {
    hide Step, Accounts;
    if t.check.ok {
      IdleTurn(w, t);
    } else if EndingOf(w, t) in {Gated, Flapping} {
      HoldingTurn(w, t);
    } else {
      AttemptTurn(w, t);
    }
  }

  /** So it is with every turn of every run, and the wait after a failure is one of the
      four rungs. */
  lemma RunAccounts(address: Option<string>, clock: Time, turns: seq<Turn>, t: Turn)
    requires Run(Init(address, clock), turns).address.Some?
    ensures var w := Run(Init(address, clock), turns);
            Accounts(w, t, Step(w, t)) && Climbs(w, t, Step(w, t)) && Delay(w.h) in {10.0, 20.0, 40.0, 60.0}
  {
    RunKeeps(address, clock, turns);
    LadderInvariant(address, clock, turns);
    TurnAccounts(Run(Init(address, clock), turns), t);
    TurnClimbs(Run(Init(address, clock), turns), t);
    hide Run, AtHead, Accounts, Climbs, Step, Delay;
  }

  /** Where a turn leaves the ladder: anything but a failure starts it over, the fifth
      failure does too, and any other climbs one rung, unless its wait is cut short. */
  ghost predicate Climbs(w: World, t: Turn, w': World) {
    match EndingOf(w, t)
    case BackingOff =>
      && (w'.clock < w.clock + Busy(w, t) + Waits(w, t) ==> Delay(w'.h) == 10.0)
      && (!Interrupted(t.wait) ==>
          Delay(w'.h) == Min(2.0 * Delay(w.h), 60.0) && Failures(w'.h) == Failures(w.h) + 1)
    case Flapping => Delay(w'.h) == 10.0
    case _ => Delay(w'.h) == 10.0 && Failures(w'.h) == 0
  }

  lemma {:induction false} FreshStays(w: World, acts: seq<Act>)
    requires Fresh(w.h)
    ensures Fresh(DoAll(w, acts).h)
  {
    DoAllKeeps(w, acts);
  }

  /** A gate or cool-down leaves the first rung; the gate and the failure cool-down forget
      the failures. */
  lemma CoolDownClimbs(w: World, hold: Hold, acts: seq<Act>)
    requires hold != Backoff
    ensures var h := HoldFor(w, hold, acts).h;
            Delay(h) == 10.0 && (hold in {Gate, FailureCooldown} ==> Failures(h) == 0)
  {
    hide Spent, DoAll, Woken, Lawful, Count, Flaps, Ready, Forgets, Length, Forgiven, Fresh;
    DoAllKeeps(Log(w, Held(hold)), Spent(Length(w, hold), false, acts));
  }

  /** A backoff climbs one rung, unless it is cut short. */
  lemma BackoffClimbs(w: World, acts: seq<Act>)
    ensures var w' := HoldFor(w, Backoff, acts);
            && (w'.clock < w.clock + Length(w, Backoff) ==> Delay(w'.h) == 10.0)
            && (!Interrupted(acts) ==> Delay(w'.h) == Min(2.0 * Delay(w.h), 60.0) && Failures(w'.h) == Failures(w.h))
  {
    hide Spent, DoAll, Woken, Interrupted, Lawful, Count, Flaps, Ready, Ticks, Forgets, Length, Forgiven, Fresh;
    var spent, held := Spent(Length(w, Backoff), false, acts), Log(w, Held(Backoff));
    DoAllKeeps(held, spent);
    TicksLast(held, spent);
    WaitLength(Length(w, Backoff), acts);
    if !Interrupted(acts) {
      InterruptedIsWoken(acts);
      SpentIsQuiet(Length(w, Backoff), acts);
    }
  }

  lemma TurnClimbs(w: World, t: Turn)
    requires Delay(w.h) > 0.0 && w.address.Some?
    ensures Climbs(w, t, Step(w, t))
  {
    hide Step, Interrupted, Flaps, Ticks, Spent, DoAll, Undisturbed, HoldFor, Told, Fresh;
    if t.check.ok {
      IdleClimbs(w, t);
    } else {
      var down := FoundDown(w, t);
      if EndingOf(w, t).Gated? {
        CoolDownClimbs(down, Gate, t.wait);
      } else if EndingOf(w, t).Flapping? {
        CoolDownClimbs(down, FlapCooldown, t.wait);
      } else {
        AttemptClimbs(w, t, down);
      }
    }
  }

  lemma IdleClimbs(w: World, t: Turn)
    requires t.check.ok && w.address.Some?
    ensures Delay(Step(w, t).h) == 10.0 && Failures(Step(w, t).h) == 0
  {
    hide DoAll, Spent;
    var up := Log(Rise(DoAll(w, t.check.during)), Linked);
    InFlightKeeps(w, t.check.during);
    FreshStays(Log(up, Pin), t.pin);
    var idle := if Ready(w.h) then up else DoAll(Log(up, Pin), t.pin);
    FreshStays(idle, Spent(CHECK_INTERVAL, true, t.wait));
  }

  lemma AttemptClimbs(w: World, t: Turn, down: World)
    requires Delay(w.h) > 0.0 && w.address.Some? && EndingOf(w, t) in {Joined, Rescued, Cooling, BackingOff}
    requires down.h == Dropped(w, t) && down.clock == w.clock + Ticks(t.check.during) && !Ready(down.h)
    requires Step(w, t) == StepDisconnected(down, t) && Failures(down.h) == Failures(w.h) && Delay(down.h) == Delay(w.h)
    ensures Climbs(w, t, Step(w, t))
  {
    hide Step, Interrupted, Flaps, Ticks, Spent, DoAll, Undisturbed, Told, HoldFor, Connects, Delay, Failures, Ready, Length;
    var tried := DoAll(Log(down, Attempt(t.state)), t.connect.during);
    InFlightKeeps(Log(down, Attempt(t.state)), t.connect.during);
    TicksLast(Log(down, Attempt(t.state)), t.connect.during);
    var again := DoAll(tried, t.again.during);
    InFlightKeeps(tried, t.again.during);
    TicksLast(tried, t.again.during);
    if t.connect.ok {
      JoinClimbs(tried, t);
    } else if t.again.ok {
      RescueClimbs(again.h);
    } else {
      TryEffect(down.h, Attempt(t.state));
      TryEffect(again.h, Failure);
      FailureClimbs(w, t, Log(again, Failure));
    }
  }

  lemma JoinClimbs(w: World, t: Turn)
    ensures Delay(Connects(w, t).h) == 10.0 && Failures(Connects(w, t).h) == 0
  {
    hide DoAll, Asleep;
    var up, settled := Log(Rise(w), Linked), Asleep(POST_CONNECT_SETTLE, t.settle);
    FreshStays(up, settled);
    FreshStays(Log(DoAll(up, settled), Pin), t.pin);
  }

  lemma RescueClimbs(h: History)
    ensures Delay(Then(h, Rescue)) == 10.0 && Failures(Then(h, Rescue)) == 0
  {
  }

  lemma FailureClimbs(w: World, t: Turn, failed: World)
    requires Delay(w.h) > 0.0 && EndingOf(w, t) in {Cooling, BackingOff}
    requires Step(w, t) == StepFailed(failed, t) && failed.clock == w.clock + Busy(w, t)
    requires Failures(failed.h) == Failures(w.h) + 1 && Delay(failed.h) == Delay(w.h)
    ensures Climbs(w, t, Step(w, t))
  {
    hide Step, Interrupted, Flaps, Ticks, HoldFor, Delay, Failures, Ready;
    if Failures(failed.h) >= FAILURE_LIMIT {
      CoolDownClimbs(failed, FailureCooldown, t.wait);
    } else {
      BackoffClimbs(failed, t.wait);
    }
  }

  /** Without an address the loop only takes audio down and waits; once one is back it
      starts afresh. A forgotten address takes audio down at once. */
  lemma ParkedTurn(w: World, t: Turn)
    requires w.address.None?
    ensures var w' := Step(w, t);
            && w'.clock == w.clock + Ticks(t.parked)
            && (w'.address.Some? ==> Delay(w'.h) == 10.0 && Failures(w'.h) == 0)
            && (!Forgets(t.parked) ==> Told(w'.h) == Told(w.h) + if Ready(w.h) then [false] else [])
  {
    TicksLast(Fall(w), t.parked);
    DoAllKeeps(Fall(w), t.parked);
    hide DoAll, Undisturbed, Ticks, Woken, Forgiven;
  }

  lemma ForgettingTells(w: World)
    ensures var w' := Do(w, Forget);
            && w'.address.None? && !Ready(w'.h) && Failures(w'.h) == 0
            && Told(w'.h) == (Told(w.h) + if Ready(w.h) then [false] else [])
            && (Ready(w.h) ==> w'.h.last == Down(w.clock))
  {
  }

  lemma {:induction false} WaitExtends(w: World, acts: seq<Act>)
    ensures Prefix(w.h, DoAll(w, acts).h)
    decreases |acts|
  {
    hide Ready;
    if acts != [] {
      WaitExtends(Do(w, acts[0]), acts[1..]);
      PrefixTrans(w.h, Do(w, acts[0]).h, DoAll(w, acts).h);
    }
  }

  lemma {:induction false} PrefixTrans(p: History, q: History, h: History)
    requires Prefix(p, q) && Prefix(q, h)
    ensures Prefix(p, h)
  {
    if q != h {
      PrefixTrans(p, q, h.past);
    }
  }

  /** A new connection counts from the moment its helper process returns. */
  lemma RisesAreDated(w: World, t: Turn) returns (u: History)
    requires Delay(w.h) > 0.0 && w.address.Some?
    requires EndingOf(w, t).Joined? || (EndingOf(w, t).Idles? && !Ready(w.h))
    ensures Prefix(u, Step(w, t).h) && u.Then? && !Ready(u.past)
    ensures u.last == Up(w.clock + Ticks(t.check.during) + if EndingOf(w, t).Joined? then Ticks(t.connect.during) else 0.0)
  {
    hide DoAll, Spent, Asleep, Undisturbed, Flaps, Failures, Ticks, Delay;
    if t.check.ok {
      var checked := DoAll(w, t.check.during);
      InFlightKeeps(w, t.check.during);
      TicksLast(w, t.check.during);
      var up := Log(Rise(checked), Linked);
      u := Rise(checked).h;
      WaitExtends(Log(up, Pin), t.pin);
      var idle := DoAll(Log(up, Pin), t.pin);
      WaitExtends(idle, Spent(CHECK_INTERVAL, true, t.wait));
      assert Prefix(u, u) && Prefix(u, up.h) && Prefix(u, Log(up, Pin).h);
      PrefixTrans(u, Log(up, Pin).h, idle.h);
      PrefixTrans(u, idle.h, Step(w, t).h);
    } else {
      var down := FoundDown(w, t);
      var tried := DoAll(Log(down, Attempt(t.state)), t.connect.during);
      InFlightKeeps(Log(down, Attempt(t.state)), t.connect.during);
      TicksLast(Log(down, Attempt(t.state)), t.connect.during);
      u := Rise(tried).h;
      var up, settled := Log(Rise(tried), Linked), Asleep(POST_CONNECT_SETTLE, t.settle);
      WaitExtends(up, settled);
      WaitExtends(Log(DoAll(up, settled), Pin), t.pin);
      assert Step(w, t) == DoAll(Log(DoAll(up, settled), Pin), t.pin) by { hide Ready, Prefix; }
      assert Prefix(u, u) && Prefix(u, up.h);
      PrefixTrans(u, up.h, DoAll(up, settled).h);
      PrefixTrans(u, Log(DoAll(up, settled), Pin).h, Step(w, t).h);
    }
  }

  // ---- A run of failures --------------------------------------------------

  predicate Outright(t: Turn) {
    !t.check.ok && t.state != Some(Standby) && !t.connect.ok && !t.again.ok
  }

  ghost predicate FailsOutright(t: Turn) {
    Outright(t) && !Interrupted(t.wait)
  }

  ghost predicate Failing(w: World, failures: nat) {
    && w.address.Some? && !Ready(w.h) && Flaps(w.h) < 3
    && Failures(w.h) == failures && Delay(w.h) == Rung(failures)
  }

  /** Seconds its helper processes take. */
  function Helpers(t: Turn): real {
    Ticks(t.check.during) + (Ticks(t.connect.during) + Ticks(t.again.during))
  }

  /** One outright failure waits for the current rung and climbs, or cools down. */
  lemma {:induction false} FailingTurn(w: World, t: Turn, failures: nat)
    requires Failing(w, failures) && failures < 5 && FailsOutright(t)
    ensures Failing(Step(w, t), if failures == 4 then 0 else failures + 1)
    ensures Step(w, t).clock == w.clock + Helpers(t) + if failures == 4 then 300.0 else Rung(failures)
  {
    FailingClock(w, t, failures);
    InFlightKeeps(w, t.check.during);
    var checked := DoAll(w, t.check.during);
    var tried := Log(checked, Attempt(t.state));
    InFlightKeeps(tried, t.connect.during);
    var again := DoAll(tried, t.connect.during);
    InFlightKeeps(again, t.again.during);
    var failed := Log(DoAll(again, t.again.during), Failure);
    TryEffect(checked.h, tried.h.last);
    TryEffect(again.h, Failure);
    hide DoAll, Ready, Flaps, Failures, Forgiven, Delay, Rung, StepFailed, Ticks, Interrupted;
    assert Step(w, t) == StepFailed(failed, t);
    FailureTurn(failed, t, failures + 1);
  }

  lemma FailingClock(w: World, t: Turn, failures: nat)
    requires Failing(w, failures) && failures < 5 && FailsOutright(t)
    ensures Step(w, t).clock == w.clock + Helpers(t) + if failures == 4 then 300.0 else Rung(failures)
  {
    hide Step, Ticks, Interrupted, Failures, Flaps, Ready, Told, Delay, Forgets;
    TurnAccounts(w, t);
    assert Dropped(w, t) == w.h;
  }

  lemma {:induction false} FailureTurn(w: World, t: Turn, failures: nat)
    requires w.address.Some? && !Ready(w.h) && Flaps(w.h) < 3
    requires 1 <= failures <= 5 && Failures(w.h) == failures && Delay(w.h) == Rung(failures - 1)
    requires !Interrupted(t.wait)
    ensures Failing(StepFailed(w, t), failures % 5)
  {
    InterruptedIsWoken(t.wait);
    var hold := if failures >= FAILURE_LIMIT then FailureCooldown else Backoff;
    var acts := Spent(Length(w, hold), false, t.wait);
    SpentIsQuiet(Length(w, hold), t.wait);
    DoAllKeeps(Log(w, Held(hold)), acts);
    assert StepFailed(w, t) == HoldDuring(w, hold, acts);
    hide Spent, Length, Forgets, Woken, Lawful, Count;
    var waited := DoAll(Log(w, Held(hold)), acts);
    var h := StepFailed(w, t).h;
    assert h == Then(waited.h, Released(hold, false));
    assert Failures(h) == failures % 5 && Delay(h) == Rung(failures % 5);
  }

  function Remainder(k: nat): real {
    if k == 0 then 0.0 else if k == 1 then 10.0 else if k == 2 then 30.0 else if k == 3 then 70.0 else 130.0
  }

  function Total(n: nat): real {
    430.0 * (n / 5) as real + Remainder(n % 5)
  }

  lemma NextFailure(n: nat)
    ensures Total(n + 1) == Total(n) + if n % 5 == 4 then 300.0 else Rung(n % 5)
    ensures (n + 1) % 5 == if n % 5 == 4 then 0 else n % 5 + 1
  {
  }

  function AllHelpers(turns: seq<Turn>): real {
    if turns == [] then 0.0 else AllHelpers(turns[..|turns| - 1]) + Helpers(turns[|turns| - 1])
  }

  /** n outright failures in a row from a fresh ladder, uninterrupted, take exactly 430 s
      per five failures plus the rungs of the last few, besides their helper processes. */
  lemma {:induction false} FailureRunTime(w: World, turns: seq<Turn>)
    requires Failing(w, 0)
    requires forall i | 0 <= i < |turns| :: FailsOutright(turns[i])
    ensures var n := |turns|;
            && Failing(Run(w, turns), n % 5)
            && Run(w, turns).clock == w.clock + Total(n) + AllHelpers(turns)
    decreases |turns|
  {
    if turns != [] {
      var init, last := turns[..|turns| - 1], turns[|turns| - 1];
      FailureRunTime(w, init);
      FailingTurn(Run(w, init), last, |init| % 5);
      NextFailure(|init|);
      hide Step, Failing, FailsOutright, Total, Rung, Helpers;
    }
  }
}
