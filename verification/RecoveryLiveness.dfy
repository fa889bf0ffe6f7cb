/** What the connect loop does not fail to do: trouble is noticed in the pass it happens
    in, and a wedge of any of the three kinds ends in a power-cycle. */
module RecoveryLiveness {
  import opened Prelude
  import opened RecoveryHistory
  import opened RecoveryReasons

  /** A pass in which something is wrong: the adapter cannot scan, the speaker's beacon
      comes without its connectable advertisement, or the connect is refused. */
  predicate Troubled(t: Turn) {
    || t.scan.value.Raised?
    || t.scan.value == Clean(false, true)
    || (t.scan.value.found && !t.connect.value)
  }

  // ---- What nothing but a scan or a connect changes ------------------------

  function Cycles(h: History): nat {
    if h.Start? then 0 else Cycles(h.past) + if PowerCycle(h.last) then 1 else 0
  }

  /** From w to w' nothing connects, no silent scan stops the clock, and unless the
      adapter is power-cycled the failures counted stay as they are. */
  ghost predicate Calm(w: World, w': World) {
    && w'.cfg == w.cfg && w.clock <= w'.clock && !Held(w'.h)
    && LastPower(w'.h) == LastPower(w.h) && Unbroken(w.h, w'.h)
    && Cycles(w.h) <= Cycles(w'.h) && (Cycles(w'.h) == Cycles(w.h) ==> SameCounts(w.h, w'.h))
  }

  ghost predicate SameCounts(h: History, h': History) {
    ErrorRun(h') == ErrorRun(h) && DenseRun(h') == DenseRun(h) && LastCounted(h') == LastCounted(h)
  }

  lemma {:induction false} UnbrokenTrans(p: History, q: History, h: History)
    requires Unbroken(p, q) && Unbroken(q, h)
    ensures Unbroken(p, h)
  {
    if q != h {
      UnbrokenTrans(p, q, h.past);
    }
  }

  lemma {:induction false} UnbrokenIsPrefix(q: History, h: History)
    requires Unbroken(q, h)
    ensures Prefix(q, h)
  {
    if q != h {
      UnbrokenIsPrefix(q, h.past);
    }
  }

  lemma CalmTrans(a: World, b: World, c: World)
    requires Calm(a, b) && Calm(b, c)
    ensures Calm(a, c)
  {
    UnbrokenTrans(a.h, b.h, c.h);
    hide Unbroken, Held, LastPower, Cycles, ErrorRun, DenseRun, LastCounted;
  }

  lemma {:induction false} CalmDo(w: World, a: Act)
    requires !Held(w.h)
    ensures Calm(w, Do(w, a))
  {
  }

  lemma {:induction false} CalmWait(w: World, acts: seq<Act>)
    requires !Held(w.h)
    ensures Calm(w, DoAll(w, acts))
    decreases |acts|
  {
    if acts == [] {
      assert Unbroken(w.h, w.h);
    } else {
      CalmDo(w, acts[0]);
      CalmWait(Do(w, acts[0]), acts[1..]);
      CalmTrans(w, Do(w, acts[0]), DoAll(w, acts));
    }
    hide Do, Unbroken, Held, LastPower, Cycles, ErrorRun, DenseRun, LastCounted;
  }

  /** One event that is none of a scan's or a connect's. */
  lemma CalmLog(w: World, e: Event)
    requires !Held(w.h) && !e.Connected? && !e.ClockStopped? && !e.PowerSent?
    requires !e.ScanFailed? && !e.ScanClean? && !e.CountedFailure?
    ensures Calm(w, Log(w, e))
  {
    assert Unbroken(w.h, w.h);
  }

  lemma CalmRecover(w: World, why: Why, during: seq<Act>)
    requires !Held(w.h)
    ensures Calm(w, Recover(w, why, during))
  {
    CalmWait(w, []);
    CalmLog(w, Recovery(w.clock, why));
    var begun := Log(w, Recovery(w.clock, why));
    CalmWait(begun, during);
    CalmTrans(w, begun, DoAll(begun, during));
    hide Calm, Due, Held;
  }

  lemma CalmReclaim(w: World, reply: Reply<bool>)
    requires !Held(w.h)
    ensures Calm(w, Reclaim(w, reply))
  {
    CalmWait(w, []);
    CalmWait(w, reply.during);
    var after := DoAll(w, reply.during);
    var e := if reply.value then ReclaimHit(after.clock) else ReclaimMiss(w.clock, after.clock);
    assert !Held(after.h);
    CalmLog(after, e);
    CalmTrans(w, after, Log(after, e));
    hide Calm, ReclaimReady, Held;
  }

  lemma CalmSleep(w: World, acts: seq<Act>)
    requires !Held(w.h)
    ensures Calm(w, Sleep(w, acts))
  {
    var delay := RetryDelay(w.cfg, w.h);
    CalmWait(w, Asleep(delay, acts));
    var after := DoAll(w, Asleep(delay, acts));
    assert !Held(after.h);
    CalmLog(after, Slept(after.clock, delay));
    CalmTrans(w, after, Log(after, Slept(after.clock, delay)));
    hide Calm, Held, DoAll, Asleep;
  }

  lemma {:induction false} LastPowerIsReal(h: History)
    requires LastPower(h).Some?
    ensures exists r :: Prefix(r, h) && r.Then? && r.last.PowerSent? && r.last.at == LastPower(h).value
  {
    if h.last.PowerSent? {
      assert Prefix(h, h);
    } else {
      LastPowerIsReal(h.past);
      var r :| Prefix(r, h.past) && r.Then? && r.last.PowerSent? && r.last.at == LastPower(h.past).value;
      assert Prefix(r, h);
    }
  }

  lemma GraceIsOver(h: History, t: Time)
    requires NoPowerBefore(h, t)
    ensures !InGrace(h, t)
  {
    if LastPower(h).Some? {
      LastPowerIsReal(h);
    }
  }

  /** As calm, but for what scans and connects count. */
  ghost predicate Steady(w: World, w': World) {
    && w'.cfg == w.cfg && w.clock <= w'.clock && !Held(w'.h)
    && LastPower(w'.h) == LastPower(w.h) && Unbroken(w.h, w'.h) && Cycles(w.h) <= Cycles(w'.h)
  }

  lemma SteadyTrans(a: World, b: World, c: World)
    requires Steady(a, b) && Steady(b, c)
    ensures Steady(a, c)
  {
    UnbrokenTrans(a.h, b.h, c.h);
    hide Unbroken, Held, LastPower, Cycles;
  }

  lemma SteadyLog(w: World, e: Event)
    requires !Held(w.h) && !e.Connected? && !e.ClockStopped? && !e.PowerSent?
    ensures Steady(w, Log(w, e))
  {
    assert Unbroken(w.h, w.h);
  }

  lemma CalmNote(w: World, during: seq<Act>)
    requires !Held(w.h)
    ensures Calm(w, NoteUnreachable(w, during))
  {
    CalmWait(w, []);
    CalmLog(w, Trouble(w.clock));
    var noted := Log(w, Trouble(w.clock));
    assert !Held(noted.h);
    CalmRecover(noted, LongUnreachable, during);
    CalmTrans(w, noted, Recover(noted, LongUnreachable, during));
    hide Calm, Recover, Held;
  }

  // ---- Trouble is noticed -------------------------------------------------

  /** The pass from w to w' consults the unreachable clock, in q. */
  ghost predicate Notices(w: World, q: History, w': World) {
    && q.Then? && q.last.Trouble? && w.clock <= q.last.at <= w'.clock
    && Unbroken(w.h, q.past) && Unbroken(q, w'.h)
  }

  /** Outside the grace window, consulting the clock leaves its mark. */
  lemma MarksTrouble(w: World, now: World, during: seq<Act>) returns (q: History)
    requires Steady(w, now) && !InGrace(w.h, w.clock)
    ensures Notices(w, q, NoteUnreachable(now, during))
  {
    q := Then(now.h, Trouble(now.clock));
    CalmRecover(Log(now, Trouble(now.clock)), LongUnreachable, during);
    hide Recover, Unbroken, Held, LastPower, Cycles, SameCounts;
  }

  lemma NoticesLater(w: World, q: History, now: World, later: World)
    requires Notices(w, q, now) && Steady(now, later)
    ensures Notices(w, q, later)
  {
    UnbrokenTrans(q, now.h, later.h);
  }

  /** A scan that raises is counted, and trouble. */
  lemma RaisedPass(w: World, t: Turn) returns (x: History, q: History)
    requires !Held(w.h) && t.scan.value.Raised?
    ensures Steady(w, Pass(w, t)) && (!InGrace(w.h, w.clock) ==> Notices(w, q, Pass(w, t)))
    ensures x.Then? && x.last.ScanFailed? && w.clock <= x.last.at && Prefix(w.h, x) && Prefix(x, Pass(w, t).h)
    ensures Cycles(w.h) <= Cycles(x) && (Cycles(x) == Cycles(w.h) ==> ErrorRun(x) == ErrorRun(w.h) + 1)
    ensures Cycles(Pass(w, t).h) == Cycles(w.h) ==> ErrorRun(Pass(w, t).h) == ErrorRun(w.h) + 1
  {
    var after := DoAll(w, t.scan.during);
    CalmWait(w, t.scan.during);
    var failed := Log(after, ScanFailed(after.clock));
    SteadyLog(after, ScanFailed(after.clock));
    SteadyTrans(w, after, failed);
    var answered := Recover(failed, ScanErrors, t.recover);
    CalmRecover(failed, ScanErrors, t.recover);
    SteadyTrans(w, failed, answered);
    var noted := NoteUnreachable(answered, t.recoverAgain);
    CalmNote(answered, t.recoverAgain);
    CalmSleep(noted, t.sleep);
    var end := Sleep(noted, t.sleep);
    assert end == Pass(w, t);
    CalmTrans(failed, answered, noted);
    CalmTrans(failed, noted, end);
    SteadyTrans(w, failed, end);
    UnbrokenIsPrefix(failed.h, end.h);
    UnbrokenIsPrefix(w.h, failed.h);
    x := failed.h;
    q := x;
    if !InGrace(w.h, w.clock) {
      q := MarksTrouble(w, answered, t.recoverAgain);
      NoticesLater(w, q, noted, end);
    }
    hide DoAll, Recover, NoteUnreachable, Sleep, Unbroken, Held, LastPower, Prefix;
  }

  /** A beacon without the speaker is trouble. */
  lemma BeaconPass(w: World, t: Turn) returns (q: History)
    requires !Held(w.h) && t.scan.value == Clean(false, true)
    ensures Steady(w, Pass(w, t)) && (!InGrace(w.h, w.clock) ==> Notices(w, q, Pass(w, t)))
  {
    var after := DoAll(w, t.scan.during);
    CalmWait(w, t.scan.during);
    var seen := Log(after, ScanClean(after.clock, false, true));
    SteadyLog(after, ScanClean(after.clock, false, true));
    SteadyTrans(w, after, seen);
    CalmWait(seen, []);
    CalmReclaim(seen, t.reclaim);
    var tried := NoteEmpty(seen, t.reclaim);
    SteadyTrans(w, seen, tried);
    var noted := NoteUnreachable(tried, t.recoverAgain);
    CalmNote(tried, t.recoverAgain);
    CalmSleep(noted, t.sleep);
    SteadyTrans(w, tried, noted);
    SteadyTrans(w, noted, Pass(w, t));
    q := seen.h;
    if !InGrace(w.h, w.clock) {
      q := MarksTrouble(w, tried, t.recoverAgain);
      NoticesLater(w, q, noted, Pass(w, t));
    }
    hide DoAll, Reclaim, NoteUnreachable, Sleep, Unbroken, Held, LastPower, SameCounts, Cycles, EmptyRun;
  }

  lemma FailureIsSteady(w: World, reclaim: Reply<bool>, during: seq<Act>)
    requires !Held(w.h)
    ensures Steady(w, NoteFailure(w, reclaim, during))
  {
    CalmReclaim(w, reclaim);
    var after := Reclaim(w, reclaim);
    SteadyLog(w, GraceFailure(w.clock));
    SteadyLog(after, ReclaimedFailure(after.clock));
    SteadyLog(after, CountedFailure(w.clock, after.clock));
    var counted := Log(after, CountedFailure(w.clock, after.clock));
    CalmRecover(counted, DenseFailures, during);
    SteadyTrans(w, after, Log(after, ReclaimedFailure(after.clock)));
    SteadyTrans(w, after, counted);
    SteadyTrans(w, counted, Recover(counted, DenseFailures, during));
    hide Reclaim, Recover, ReclaimReady, InGrace, Unbroken, LastPower, SameCounts, Cycles;
  }

  /** So is a speaker that refuses to be connected. */
  lemma RefusedPass(w: World, t: Turn) returns (q: History)
    requires !Held(w.h) && t.scan.value.Clean? && t.scan.value.found && !t.connect.value
    ensures Steady(w, Pass(w, t)) && (!InGrace(w.h, w.clock) ==> Notices(w, q, Pass(w, t)))
  {
    var after := DoAll(w, t.scan.during);
    CalmWait(w, t.scan.during);
    var e := ScanClean(after.clock, true, t.scan.value.beacon);
    var seen := Log(after, e);
    SteadyLog(after, e);
    SteadyTrans(w, after, seen);
    CalmWait(seen, t.connect.during);
    var tried := DoAll(seen, t.connect.during);
    SteadyTrans(w, seen, tried);
    FailureIsSteady(tried, t.reclaim, t.recover);
    var failed := NoteFailure(tried, t.reclaim, t.recover);
    SteadyTrans(w, tried, failed);
    CalmNote(failed, t.recoverAgain);
    var noted := NoteUnreachable(failed, t.recoverAgain);
    CalmSleep(noted, t.sleep);
    SteadyTrans(w, failed, noted);
    SteadyTrans(w, noted, Pass(w, t));
    q := seen.h;
    if !InGrace(w.h, w.clock) {
      q := MarksTrouble(w, failed, t.recoverAgain);
      NoticesLater(w, q, noted, Pass(w, t));
    }
    hide DoAll, NoteFailure, NoteUnreachable, Sleep, Unbroken, Held, LastPower, SameCounts, Cycles;
  }

  lemma TroubledPass(w: World, t: Turn) returns (q: History)
    requires !Held(w.h) && Troubled(t)
    ensures Steady(w, Pass(w, t)) && (!InGrace(w.h, w.clock) ==> Notices(w, q, Pass(w, t)))
  {
    hide Pass, Steady, Notices, Held, InGrace;
    if t.scan.value.Raised? {
      var x;
      x, q := RaisedPass(w, t);
    } else if !t.scan.value.found {
      q := BeaconPass(w, t);
    } else {
      q := RefusedPass(w, t);
    }
  }

  /** Every troubled pass that begins outside the grace window of every power command
      consults the unreachable clock, and nothing in it starts that clock over. */
  lemma TroubleIsNoticed(w: World, t: Turn) returns (q: History)
    requires !Held(w.h) && Troubled(t) && NoPowerBefore(w.h, w.clock)
    ensures Notices(w, q, Pass(w, t))
  {
    GraceIsOver(w.h, w.clock);
    q := TroubledPass(w, t);
    hide Pass, Steady, Notices, Held, InGrace;
  }

  // ---- A wedge ends in a power-cycle --------------------------------------

  lemma {:induction false} RunAppend(w: World, a: seq<Turn>, b: seq<Turn>)
    ensures Run(Run(w, a), b) == Run(w, a + b)
    decreases |b|
  {
    hide Pass;
    if b == [] {
      assert a + b == a;
    } else {
      var n := |b| - 1;
      assert (a + b)[..|a| + n] == a + b[..n];
      RunAppend(w, a, b[..n]);
    }
  }

  lemma {:induction false} TroubledRun(w: World, turns: seq<Turn>)
    requires !Held(w.h) && forall i | 0 <= i < |turns| :: Troubled(turns[i])
    ensures Steady(w, Run(w, turns))
    decreases |turns|
  {
    if turns == [] {
      CalmWait(w, []);
    } else {
      var n := |turns| - 1;
      TroubledRun(w, turns[..n]);
      var q := TroubledPass(Run(w, turns[..n]), turns[n]);
      SteadyTrans(w, Run(w, turns[..n]), Run(w, turns));
      hide Pass, Unbroken, Held, LastPower, Cycles;
    }
    hide SameCounts;
  }

  /** What happened right after q. */
  lemma {:induction false} Next(q: History, h: History) returns (s: History)
    requires Prefix(q, h) && q != h
    ensures Prefix(s, h) && s.Then? && s.past == q
  {
    if h.past == q {
      s := h;
    } else {
      s := Next(q, h.past);
    }
  }

  lemma {:induction false} CyclesGrow(p: History, h: History)
    requires Prefix(p, h)
    ensures Cycles(p) <= Cycles(h)
  {
    if p != h {
      CyclesGrow(p, h.past);
    }
  }

  /** A power-cycle that is not counted yet is a new one. */
  lemma {:induction false} NewCycle(p: History, h: History) returns (q: History)
    requires Prefix(p, h) && Cycles(h) > Cycles(p)
    ensures Prefix(q, h) && q.Then? && PowerCycle(q.last) && !Prefix(q, p)
  {
    if PowerCycle(h.last) {
      q := h;
      if Prefix(q, p) {
        CyclesGrow(q, p);
      }
    } else {
      q := NewCycle(p, h.past);
    }
  }

  /** A new automatic power-cycle between two moments. */
  ghost predicate Recovers(h: History, h': History) {
    exists p :: Prefix(p, h') && !Prefix(p, h) && p.Then? && p.last.Recovery?
  }

  /** No manual reset has succeeded between two moments. */
  ghost predicate NoManual(h: History, h': History) {
    forall q :: Prefix(q, h') && !Prefix(q, h) && q.Then? ==> !(q.last.ManualEnded? && q.last.ok)
  }

  /** An alarm is answered by a power-cycle, if every earlier one is 900 s old. */
  lemma AlarmIsAnswered(cfg: Config, w: World, v: World, x: History)
    requires Lawful(cfg, v.h) && Timely(v.h, v.clock) && !Due(cfg, v.h) && cfg.canRecover
    requires Prefix(w.h, x) && Prefix(x, v.h) && x.Then? && Alarm(x) && Rested(x, x.last.at)
    ensures Recovers(w.h, v.h)
  {
    RestedCooledDown(x, x.last.at);
    hide Alarm, CooledDown, Timely, Rested;
    var p := Next(x, v.h);
    PrefixLawful(cfg, p, v.h, v.clock);
    if Prefix(p, w.h) {
      PrefixTrans(p, w.h, x);
      PrefixIsOlder(p, x);
    }
  }

  lemma {:induction false} PrefixIsOlder(p: History, h: History)
    requires Prefix(p, h)
    ensures p == h || p < h
  {
    if p != h {
      PrefixIsOlder(p, h.past);
    }
  }

  /** The run of the loop from its start through some passes and then others. */
  ghost predicate Stretches(cfg: Config, clock: Time, before: seq<Turn>, more: seq<Turn>, w: World, v: World) {
    w == Run(Init(cfg, clock), before) && v == Run(w, more)
  }

  lemma StretchIsLawful(cfg: Config, clock: Time, before: seq<Turn>, more: seq<Turn>, w: World, v: World)
    requires Stretches(cfg, clock, before, more, w, v)
    ensures v == Run(Init(cfg, clock), before + more) && w.cfg == cfg && !Held(w.h)
    ensures Lawful(cfg, v.h) && Timely(v.h, v.clock) && !Due(cfg, v.h)
  {
    RunAppend(Init(cfg, clock), before, more);
    RunIsLawful(cfg, clock, before + more);
    RunKeeps(cfg, clock, before);
    hide Run, Lawful, Timely, Due, Held;
  }

  /** Ten minutes of trouble: if passes in trouble, the first of them outside the grace
      window of every power command, go on until one begins 600 s after the first has
      ended, and by then every power-cycle from before them and every manual one is 900 s
      old, the adapter is power-cycled among them. */
  lemma LongTroubleRecovers(cfg: Config, clock: Time, before: seq<Turn>, more: seq<Turn>, w: World, v: World)
    requires Stretches(cfg, clock, before, more, w, v) && cfg.canRecover && NoPowerBefore(w.h, w.clock)
    requires more != [] && forall i | 0 <= i < |more| :: Troubled(more[i])
    requires Run(w, more[..|more| - 1]).clock - Run(w, more[..1]).clock >= 600.0
    requires forall q | Prefix(q, v.h) && q.Then? && PowerCycle(q.last) && (Prefix(q, w.h) || !q.last.Recovery?) ::
               Run(w, more[..|more| - 1]).clock - q.last.at >= 900.0
    ensures Recovers(w.h, v.h)
  {
    var n := |more| - 1;
    var u := Run(w, more[..n]);
    StretchIsLawful(cfg, clock, before, more, w, v);
    GraceIsOver(w.h, w.clock);
    var a := FirstTrouble(w, more);
    TroubledRun(w, more[..n]);
    var b := TroubledPass(u, more[n]);
    SteadyOutsideGrace(w, u);
    assert v == Pass(u, more[n]);
    hide Run, Pass, Lawful, Timely, Due, Held, InGrace;
    OnTheWay(cfg, clock, before + more, w, a, u, b, v);
    TroubleAlarms(cfg, a, b);
    if !Recovers(w.h, v.h) {
      forall q | Prefix(q, b) && q.Then? && PowerCycle(q.last)
        ensures b.last.at - q.last.at >= 900.0
      {
        PrefixTrans(q, b, v.h);
      }
      AlarmIsAnswered(cfg, w, v, b);
    }
  }

  lemma SteadyOutsideGrace(w: World, u: World)
    requires Steady(w, u) && !InGrace(w.h, w.clock)
    ensures !InGrace(u.h, u.clock) && !Held(u.h)
  {
  }

  lemma OnTheWay(cfg: Config, clock: Time, turns: seq<Turn>, w: World, a: History, u: World, b: History, v: World)
    requires v == Run(Init(cfg, clock), turns) && Unbroken(a, u.h) && Steady(w, u) && Notices(u, b, v)
    ensures Unbroken(a, b.past) && Prefix(w.h, b) && Prefix(b, v.h) && Reachable(cfg, b)
  {
    hide Run;
    UnbrokenTrans(a, u.h, b.past);
    UnbrokenTrans(w.h, u.h, b.past);
    UnbrokenIsPrefix(w.h, b.past);
    UnbrokenIsPrefix(b, v.h);
  }

  lemma FirstTrouble(w: World, more: seq<Turn>) returns (a: History)
    requires more != [] && !Held(w.h) && !InGrace(w.h, w.clock) && forall i | 0 <= i < |more| :: Troubled(more[i])
    requires Run(w, more[..|more| - 1]).clock > Run(w, more[..1]).clock
    ensures a.Then? && a.last.Trouble? && a.last.at <= Run(w, more[..1]).clock
    ensures Unbroken(a, Run(w, more[..|more| - 1]).h)
  {
    var n := |more| - 1;
    a := TroubledPass(w, more[0]);
    var first := Run(w, more[..1]);
    assert more[..1][..0] == [] && more[..1][0] == more[0];
    assert first == Pass(w, more[0]);
    hide Pass;
    assert more[..0] == [];
    if n > 0 {
      assert more[..1] + more[1..n] == more[..n];
      RunAppend(w, more[..1], more[1..n]);
      TroubledRun(first, more[1..n]);
      hide Run;
      UnbrokenTrans(a, first.h, Run(w, more[..n]).h);
    }
  }

  lemma TroubleAlarms(cfg: Config, a: History, b: History)
    requires Reachable(cfg, b) && b.Then? && b.last.Trouble? && a.Then? && a.last.Trouble?
    requires Unbroken(a, b.past) && b.last.at - a.last.at >= 600.0
    ensures Alarm(b)
  {
    UnbrokenIsPrefix(a, b.past);
    LongTroubleSuffices(cfg, a, b);
  }

  lemma {:induction false} RaisedRun(w: World, turns: seq<Turn>)
    requires !Held(w.h) && forall i | 0 <= i < |turns| :: turns[i].scan.value.Raised?
    ensures Steady(w, Run(w, turns))
    ensures Cycles(Run(w, turns).h) == Cycles(w.h) ==> ErrorRun(Run(w, turns).h) == ErrorRun(w.h) + |turns|
    decreases |turns|
  {
    if turns == [] {
      CalmWait(w, []);
    } else {
      var n := |turns| - 1;
      RaisedRun(w, turns[..n]);
      var x, q := RaisedPass(Run(w, turns[..n]), turns[n]);
      SteadyTrans(w, Run(w, turns[..n]), Run(w, turns));
      hide Pass, Unbroken, Held, LastPower, Cycles, ErrorRun;
    }
    hide SameCounts;
  }

  /** Without a new automatic power-cycle or a successful manual one, none is new. */
  lemma NoneIsNew(h: History, h': History, x: History, t: Time)
    requires Prefix(h, x) && Prefix(x, h') && Rested(h, t) && NoManual(h, h') && !Recovers(h, h')
    ensures Cycles(h') == Cycles(x) == Cycles(h)
    ensures forall later | later >= t :: Rested(x, later)
  {
    PrefixTrans(h, x, h');
    CyclesGrow(h, x);
    CyclesGrow(x, h');
    if Cycles(h') > Cycles(h) {
      var q := NewCycle(h, h');
    }
    forall q | Prefix(q, x) && q.Then? && PowerCycle(q.last)
      ensures Prefix(q, h)
    {
      PrefixTrans(q, x, h');
    }
  }

  /** Five scans in a row that raise end in a power-cycle, if the last one is 900 s old
      when the fifth begins and no manual reset gets ahead of it. */
  lemma ScanErrorsRecover(cfg: Config, clock: Time, before: seq<Turn>, more: seq<Turn>, w: World, v: World)
    requires Stretches(cfg, clock, before, more, w, v) && cfg.canRecover
    requires |more| >= 5 && forall i | 0 <= i < |more| :: more[i].scan.value.Raised?
    requires Rested(w.h, Run(w, more[..|more| - 1]).clock) && NoManual(w.h, v.h)
    ensures Recovers(w.h, v.h)
  {
    hide Run, Pass, Lawful, Timely, Due, Held, LastPower, Cycles, Alarm, NoManual, Recovers, Rested, Unbroken, Prefix;
    var n := |more| - 1;
    var u := Run(w, more[..n]);
    StretchIsLawful(cfg, clock, before, more, w, v);
    RaisedRun(w, more[..n]);
    LastPass(w, more);
    var x, q := RaisedPass(u, more[n]);
    if !Recovers(w.h, v.h) {
      SteadyPrefix(w, u, x, v);
      NoneIsNew(w.h, v.h, x, u.clock);
      ErrorsAlarm(x);
      AlarmIsAnswered(cfg, w, v, x);
    }
  }

  lemma LastPass(w: World, more: seq<Turn>)
    requires more != []
    ensures Run(w, more) == Pass(Run(w, more[..|more| - 1]), more[|more| - 1])
  {
    hide Pass;
  }

  lemma ErrorsAlarm(x: History)
    requires x.Then? && x.last.ScanFailed? && ErrorRun(x) >= 5
    ensures Alarm(x)
  {
  }

  lemma SteadyPrefix(w: World, u: World, x: History, v: World)
    requires Steady(w, u) && Prefix(u.h, x) && Prefix(x, v.h)
    ensures Prefix(w.h, x) && Prefix(w.h, v.h) && Cycles(u.h) <= Cycles(x)
  {
    UnbrokenIsPrefix(w.h, u.h);
    PrefixTrans(w.h, u.h, x);
    PrefixTrans(w.h, x, v.h);
    CyclesGrow(u.h, x);
  }

  // ---- Refused connects ---------------------------------------------------

  /** The speaker was found, would not be connected, and no stale link explains it. */
  predicate Refused(cfg: Config, t: Turn) {
    t.scan.value.Clean? && t.scan.value.found && !t.connect.value && !(cfg.canReclaim && t.reclaim.value)
  }

  /** Such a pass up to the failure, and with it counted. */
  function Tried(w: World, t: Turn): World
    requires t.scan.value.Clean?
  {
    var after := DoAll(w, t.scan.during);
    DoAll(Log(after, ScanClean(after.clock, true, t.scan.value.beacon)), t.connect.during)
  }

  function CountedIn(w: World, t: Turn): World
    requires t.scan.value.Clean?
  {
    var tried := Tried(w, t);
    var ready := Reclaim(tried, t.reclaim);
    Log(ready, CountedFailure(tried.clock, ready.clock))
  }

  /** Unless the adapter is power-cycled meanwhile, w' counts the same failures. */
  ghost predicate Tallies(w: World, w': World) {
    Steady(w, w') && (Cycles(w'.h) == Cycles(w.h) ==> DenseRun(w'.h) == DenseRun(w.h) && LastCounted(w'.h) == LastCounted(w.h))
  }

  lemma TalliesTrans(a: World, b: World, c: World)
    requires Tallies(a, b) && Tallies(b, c)
    ensures Tallies(a, c)
  {
    SteadyTrans(a, b, c);
    hide Unbroken, Held, LastPower, Cycles, DenseRun, LastCounted;
  }

  lemma TriedTallies(w: World, t: Turn)
    requires !Held(w.h) && t.scan.value.Clean?
    ensures Tallies(w, Tried(w, t))
  {
    var after := DoAll(w, t.scan.during);
    var e := ScanClean(after.clock, true, t.scan.value.beacon);
    CalmWait(w, t.scan.during);
    SteadyLog(after, e);
    CalmWait(Log(after, e), t.connect.during);
    assert Tallies(after, Log(after, e));
    hide DoAll, Unbroken, Held, LastPower, Cycles, DenseRun, LastCounted, ErrorRun;
    TalliesTrans(w, after, Log(after, e));
    TalliesTrans(w, Log(after, e), Tried(w, t));
  }

  lemma AfterCounting(counted: World, t: Turn)
    requires !Held(counted.h)
    ensures Calm(counted, Sleep(NoteUnreachable(Recover(counted, DenseFailures, t.recover), t.recoverAgain), t.sleep))
  {
    var failed := Recover(counted, DenseFailures, t.recover);
    CalmRecover(counted, DenseFailures, t.recover);
    var noted := NoteUnreachable(failed, t.recoverAgain);
    CalmNote(failed, t.recoverAgain);
    CalmSleep(noted, t.sleep);
    hide Recover, NoteUnreachable, Sleep, Unbroken, Held, LastPower, Cycles, SameCounts;
    CalmTrans(counted, failed, noted);
    CalmTrans(counted, noted, Sleep(noted, t.sleep));
  }

  lemma CountingShape(w: World, t: Turn)
    requires !Held(w.h) && Refused(w.cfg, t) && !InGrace(w.h, w.clock)
    ensures Pass(w, t) ==
            Sleep(NoteUnreachable(Recover(CountedIn(w, t), DenseFailures, t.recover), t.recoverAgain), t.sleep)
  {
    TriedTallies(w, t);
    assert !InGrace(Tried(w, t).h, Tried(w, t).clock);
    hide DoAll, Recover, NoteUnreachable, Sleep, Unbroken, Held, LastPower, Cycles, DenseRun, LastCounted, InGrace;
  }

  /** Such a pass counts its failure, in x. */
  lemma CountingPass(w: World, t: Turn) returns (x: History)
    requires !Held(w.h) && Refused(w.cfg, t) && !InGrace(w.h, w.clock)
    ensures x.Then? && x.last.CountedFailure? && Prefix(w.h, x) && Prefix(x, Pass(w, t).h)
    ensures Steady(w, Pass(w, t)) && w.clock <= x.last.asOf <= x.last.at && x.last.asOf <= Pass(w, t).clock
    ensures Cycles(Pass(w, t).h) == Cycles(w.h) ==>
              && DenseRun(Pass(w, t).h) == DenseRun(x) && LastCounted(Pass(w, t).h) == x.last.asOf
              && DenseRun(x) == if x.last.asOf - LastCounted(w.h) > 600.0 then 1 else DenseRun(w.h) + 1
  {
    var tried, counted := Tried(w, t), CountedIn(w, t);
    var ready := Reclaim(tried, t.reclaim);
    TriedTallies(w, t);
    CalmReclaim(tried, t.reclaim);
    SteadyLog(ready, counted.h.last);
    AfterCounting(counted, t);
    CountingShape(w, t);
    x := counted.h;
    hide Pass, Sleep, NoteUnreachable, Recover, Reclaim, Tried, Held, LastPower;
    SteadyTrans(w, tried, ready);
    SteadyTrans(w, ready, counted);
    SteadyTrans(w, counted, Pass(w, t));
    UnbrokenIsPrefix(w.h, x);
    UnbrokenIsPrefix(x, Pass(w, t).h);
    hide Unbroken, Prefix;
  }

  /** Three refused connects in a row, each at most 600 s after the one before it and the
      first outside the grace window of every power command, end in a power-cycle, if the
      last one is 900 s old when the third begins and no manual reset gets ahead of it. */
  lemma RefusalsRecover(cfg: Config, clock: Time, before: seq<Turn>, a: Turn, b: Turn, c: Turn, w: World, v: World)
    requires Stretches(cfg, clock, before, [a, b, c], w, v) && cfg.canRecover
    requires Refused(cfg, a) && Refused(cfg, b) && Refused(cfg, c) && NoPowerBefore(w.h, w.clock)
    requires var w1, w2 := Run(w, [a]), Run(w, [a, b]);
             w2.clock - w.clock <= 600.0 && v.clock - w1.clock <= 600.0 && Rested(w.h, w2.clock)
    requires NoManual(w.h, v.h)
    ensures Recovers(w.h, v.h)
  {
    hide Run, Lawful, Timely, Due, Alarm, NoManual, Recovers, Rested, Prefix, Pass, Refused, NoPowerBefore;
    hide Steady, Cycles, DenseRun, LastCounted, InGrace;
    StretchIsLawful(cfg, clock, before, [a, b, c], w, v);
    GraceIsOver(w.h, w.clock);
    ThreePasses(w, a, b, c);
    var w1, w2 := Pass(w, a), Pass(Pass(w, a), b);
    var x := CountingPass(w, a);
    SteadyOutsideGrace(w, w1);
    SteadyCfg(w, w1);
    var y := CountingPass(w1, b);
    SteadyOutsideGrace(w1, w2);
    SteadyCfg(w1, w2);
    var z := CountingPass(w2, c);
    if !Recovers(w.h, v.h) {
      SteadyTrans(w, w1, w2);
      SteadyPrefix(w, w2, z, v);
      NoneIsNew(w.h, v.h, z, w2.clock);
      NoneBetween(w, w1, w2, v);
      assert DenseRun(z) == DenseRun(y) + 1 && DenseRun(y) == DenseRun(x) + 1;
      FailuresAlarm(z, DenseRun(x));
      AlarmIsAnswered(cfg, w, v, z);
    }
  }

  lemma ThreePasses(w: World, a: Turn, b: Turn, c: Turn)
    ensures Run(w, [a]) == Pass(w, a) && Run(w, [a, b]) == Pass(Pass(w, a), b)
    ensures Run(w, [a, b, c]) == Pass(Pass(Pass(w, a), b), c)
  {
    hide Pass;
    assert [a][..0] == [] && [a, b][..1] == [a] && [a, b, c][..2] == [a, b];
    LastPass(w, [a]);
    LastPass(w, [a, b]);
    LastPass(w, [a, b, c]);
  }

  lemma SteadyCfg(w: World, w': World)
    requires Steady(w, w')
    ensures w'.cfg == w.cfg && w.clock <= w'.clock
  {
  }

  lemma NoneBetween(w: World, w1: World, w2: World, v: World)
    requires Steady(w, w1) && Steady(w1, w2) && Steady(w2, v) && Cycles(v.h) == Cycles(w.h)
    ensures Cycles(w1.h) == Cycles(w.h) == Cycles(w2.h)
  {
  }

  lemma FailuresAlarm(z: History, k: nat)
    requires z.Then? && z.last.CountedFailure? && DenseRun(z) == k + 2 && k >= 1
    ensures Alarm(z)
  {
  }

  // ---- No trouble, no clock -----------------------------------------------

  function Troubles(h: History): nat {
    if h.Start? then 0 else Troubles(h.past) + if h.last.Trouble? then 1 else 0
  }

  function Reclaims(h: History): nat {
    if h.Start? then 0 else Reclaims(h.past) + if h.last.ReclaimHit? || h.last.ReclaimMiss? then 1 else 0
  }

  lemma {:induction false} WaitsAreIdle(w: World, acts: seq<Act>)
    ensures var h := DoAll(w, acts).h;
            Troubles(h) == Troubles(w.h) && Reclaims(h) == Reclaims(w.h) && EmptyScans(h) == EmptyScans(w.h)
    decreases |acts|
  {
    if acts != [] {
      WaitsAreIdle(Do(w, acts[0]), acts[1..]);
    }
  }

  lemma ReclaimIsCounted(w: World, reply: Reply<bool>)
    ensures Troubles(Reclaim(w, reply).h) == Troubles(w.h)
    ensures Reclaims(Reclaim(w, reply).h) == Reclaims(w.h) + if ReclaimReady(w) then 1 else 0
  {
    WaitsAreIdle(w, reply.during);
    hide DoAll;
  }

  lemma RecoverIsIdle(w: World, why: Why, during: seq<Act>)
    ensures Troubles(Recover(w, why, during).h) == Troubles(w.h) && Reclaims(Recover(w, why, during).h) == Reclaims(w.h)
  {
    WaitsAreIdle(Log(w, Recovery(w.clock, why)), during);
    hide DoAll, Due;
  }

  lemma NoteIsIdle(w: World, during: seq<Act>)
    ensures Reclaims(NoteUnreachable(w, during).h) == Reclaims(w.h)
  {
    RecoverIsIdle(Log(w, Trouble(w.clock)), LongUnreachable, during);
    hide Recover, InGrace;
  }

  lemma SleepIsIdle(w: World, acts: seq<Act>)
    ensures Troubles(Sleep(w, acts).h) == Troubles(w.h) && Reclaims(Sleep(w, acts).h) == Reclaims(w.h)
  {
    WaitsAreIdle(w, Asleep(RetryDelay(w.cfg, w.h), acts));
    hide DoAll, Asleep;
  }

  /** A pass that is not in trouble never consults the unreachable clock. */
  lemma NoTroubleNoClock(w: World, t: Turn)
    requires !Troubled(t)
    ensures Troubles(Pass(w, t).h) == Troubles(w.h)
  {
    hide DoAll, Asleep, Sleep, Reclaim, EmptyRun;
    var after := DoAll(w, t.scan.during);
    WaitsAreIdle(w, t.scan.during);
    var seen := Log(after, ScanClean(after.clock, t.scan.value.found, t.scan.value.beacon));
    if t.scan.value.found {
      var tried := DoAll(seen, t.connect.during);
      WaitsAreIdle(seen, t.connect.during);
      WaitsAreIdle(Log(tried, Connected(tried.clock)), t.hold);
      WaitsAreIdle(Hold(tried, t.hold), t.cleanup);
    } else {
      ReclaimIsCounted(seen, t.reclaim);
      SleepIsIdle(Scan(w, t), t.sleep);
    }
  }

  // ---- Stale links are looked for -----------------------------------------

  /** Clean scans that found nothing, since one that found the speaker. */
  function EmptyScans(h: History): nat {
    if h.Start? then 0
    else if !h.last.ScanClean? then EmptyScans(h.past)
    else if h.last.found then 0
    else EmptyScans(h.past) + 1
  }

  lemma {:induction false} EmptyRunMeaning(h: History)
    ensures EmptyRun(h) == EmptyScans(h) % 3
  {
    if h.Then? {
      EmptyRunMeaning(h.past);
    }
  }

  /** Less than half a minute before t a reclaim was tried that found nothing, and none
      has found anything since. */
  ghost predicate MissedBefore(h: History, t: Time) {
    exists m :: Prefix(m, h) && m.Then? && m.last.ReclaimMiss? && NoHitSince(m, h) && t - m.last.asOf < 30.0
  }

  lemma {:induction false} LastMissIsReal(h: History) returns (m: History)
    requires LastMiss(h).Some?
    ensures Prefix(m, h) && m.Then? && m.last.ReclaimMiss? && NoHitSince(m, h) && m.last.asOf == LastMiss(h).value
  {
    if h.last.ReclaimMiss? {
      m := h;
    } else {
      m := LastMissIsReal(h.past);
    }
  }

  lemma ReadyMeaning(w: World)
    requires Lawful(w.cfg, w.h) && Timely(w.h, w.clock)
    ensures ReclaimReady(w) <==> w.cfg.canReclaim && !MissedBefore(w.h, w.clock)
  {
    hide Lawful, Timely, Prefix;
    if LastMiss(w.h).Some? {
      var m := LastMissIsReal(w.h);
    }
    forall m | Prefix(m, w.h) && m.Then? && m.last.ReclaimMiss? && NoHitSince(m, w.h)
      ensures LastMiss(w.h).Some? && m.last.asOf <= LastMiss(w.h).value
    {
      LastMissIsLatest(w.cfg, m, w.h, w.clock);
    }
  }

  lemma EmptyScanReclaims(w: World, beacon: bool, t: Turn)
    requires Settled(w)
    ensures Reclaims(CleanScan(w, false, beacon, t).h) == Reclaims(w.h) +
              if w.cfg.canReclaim && (EmptyScans(w.h) + 1) % 3 == 0 && !MissedBefore(w.h, w.clock) then 1 else 0
  {
    hide Settled, Reclaim, NoteUnreachable, MissedBefore, EmptyRun, LastMiss;
    var seen := Log(w, ScanClean(w.clock, false, beacon));
    SeenIsAsReady(w, seen);
    EmptyRunMeaning(seen.h);
    ReclaimIsCounted(seen, t.reclaim);
    NoteIsIdle(NoteEmpty(seen, t.reclaim), t.recoverAgain);
  }

  lemma SeenIsAsReady(w: World, seen: World)
    requires Settled(w) && seen.cfg == w.cfg && seen.clock == w.clock
    requires seen.h.Then? && seen.h.past == w.h && seen.h.last.ScanClean?
    ensures ReclaimReady(seen) <==> w.cfg.canReclaim && !MissedBefore(w.h, w.clock)
  {
    ReadyMeaning(w) by { hide Due; }
    hide MissedBefore, Settled;
  }

  /** After a clean scan that finds nothing a stale link is looked for exactly if that is
      configured, the scan was the third of its kind (or the sixth, ...) since one found
      the speaker, and no fruitless look lies less than 30 s back. */
  lemma ReclaimsOnThirdEmptyScan(w: World, t: Turn)
    requires Loose(w) && t.scan.value.Clean? && !t.scan.value.found
    ensures var scanned := DoAll(w, t.scan.during);
            Reclaims(Pass(w, t).h) == Reclaims(w.h) +
              if w.cfg.canReclaim && (EmptyScans(w.h) + 1) % 3 == 0 && !MissedBefore(scanned.h, scanned.clock) then 1 else 0
  {
    hide DoAll, Settled, CleanScan, Sleep, MissedBefore, Held, SilentPending;
    DoAllKeeps(w, t.scan.during);
    WaitsAreIdle(w, t.scan.during);
    EmptyScanReclaims(DoAll(w, t.scan.during), t.scan.value.beacon, t);
    SleepIsIdle(Scan(w, t), t.sleep);
  }

  /** After a refused connect outside the grace window one is looked for exactly if that
      is configured and no fruitless look lies less than 30 s back. */
  lemma ReclaimsOnRefusal(w: World, reclaim: Reply<bool>, during: seq<Act>)
    requires Settled(w) && NoPowerBefore(w.h, w.clock)
    ensures Reclaims(NoteFailure(w, reclaim, during).h) == Reclaims(w.h) +
              if w.cfg.canReclaim && !MissedBefore(w.h, w.clock) then 1 else 0
  {
    GraceIsOver(w.h, w.clock);
    ReadyMeaning(w);
    ReclaimIsCounted(w, reclaim);
    var after := Reclaim(w, reclaim);
    RecoverIsIdle(Log(after, CountedFailure(w.clock, after.clock)), DenseFailures, during);
    hide Reclaim, Recover, ReclaimReady, InGrace, MissedBefore, Settled;
  }

  // ---- The buttons --------------------------------------------------------

  /** A power command completes while a connection is up, and then leaves its mark. */
  lemma PowerOpensGrace(w: World, c: History)
    requires StillUp(c, w.h) && c.Then? && c.last.Connected?
    ensures Do(w, PowerWrite) == w.(h := Then(w.h, PowerSent(w.clock)))
  {
    HeldMeaning(w.h);
  }

  /** A press begins a manual reset exactly if one is configured, none is unfinished, and
      none has ended within the last 30 s; one that is unfinished ends when it returns. */
  lemma PressBegins(w: World)
    requires Lawful(w.cfg, w.h) && Timely(w.h, w.clock)
    ensures Do(w, PressReset) ==
            if w.cfg.canRecover && Manuals(w.h, false) == Manuals(w.h, true)
              && (forall m | Prefix(m, w.h) && m.Then? && m.last.ManualEnded? :: w.clock - m.last.at >= 30.0)
            then w.(h := Then(w.h, ManualBegan(w.clock)))
            else w
    ensures forall ok :: Do(w, ResetReturns(ok)) ==
              if Manuals(w.h, false) > Manuals(w.h, true) then w.(h := Then(w.h, ManualEnded(w.clock, ok))) else w
  {
    ManualsSerialized(w.cfg, w.h, w.clock);
    forall m | Prefix(m, w.h) && m.Then? && m.last.ManualEnded?
      ensures LastManual(w.h).Some? && m.last.at <= LastManual(w.h).value
    {
      LastManualIsLatest(m, w.h, w.clock);
    }
    if LastManual(w.h).Some? {
      var m := LastManualIsReal(w.h);
    }
    hide Lawful, Timely, Prefix, Manuals, ManualBusy, LastManual;
  }

  lemma {:induction false} LastManualIsReal(h: History) returns (m: History)
    requires LastManual(h).Some?
    ensures Prefix(m, h) && m.Then? && m.last.ManualEnded? && m.last.at == LastManual(h).value
  {
    if h.last.ManualEnded? {
      m := h;
    } else {
      m := LastManualIsReal(h.past);
    }
  }
}
