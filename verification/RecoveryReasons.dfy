/** Why an automatic power-cycle happened: what each of the three wedge detectors can
    point to in the history of the run. */
module RecoveryReasons {
  import opened Prelude
  import Backoff
  import opened RecoveryHistory

  /** A moment of some run of the manager. */
  ghost predicate Reachable(cfg: Config, h: History) {
    exists clock: Time, turns: seq<Turn> :: Prefix(h, Run(Init(cfg, clock), turns).h)
  }

  lemma ReachableLawful(cfg: Config, h: History) returns (now: Time)
    requires Reachable(cfg, h)
    ensures Lawful(cfg, h) && Timely(h, now)
  {
    var clock: Time, turns: seq<Turn> :| Prefix(h, Run(Init(cfg, clock), turns).h);
    var w := Run(Init(cfg, clock), turns);
    RunIsLawful(cfg, clock, turns);
    PrefixLawful(cfg, h, w.h, w.clock);
    now := w.clock;
    hide Run, Lawful, Timely;
  }

  // ---- A long time unreachable --------------------------------------------

  /** After q: no successful connect, and the unreachable clock never stopped. */
  ghost predicate Unbroken(q: History, h: History) {
    q == h || (h.Then? && !h.last.Connected? && !h.last.ClockStopped? && Unbroken(q, h.past))
  }

  /** After q: no clean scan that saw neither speaker nor beacon. */
  ghost predicate NeverSilent(q: History, h: History) {
    q == h || (h.Then? && !Silent(h.last) && NeverSilent(q, h.past))
  }

  lemma {:induction false} ClockStart(h: History) returns (q: History)
    requires UnreachableSince(h).Some?
    ensures Unbroken(q, h) && Prefix(q, h)
    ensures q.Then? && q.last == Trouble(UnreachableSince(h).value) && UnreachableSince(q.past).None?
  {
    if h.last.Trouble? && UnreachableSince(h.past).None? {
      q := h;
    } else {
      q := ClockStart(h.past);
    }
  }

  lemma {:induction false} UnbrokenNeverSilent(cfg: Config, q: History, h: History)
    requires Unbroken(q, h) && Lawful(cfg, h) && !SilentPending(q)
    ensures NeverSilent(q, h) || SilentPending(h)
  {
    hide Legal;
    if q != h {
      UnbrokenNeverSilent(cfg, q, h.past);
    }
  }

  /** Unless something connects, nothing is held, so no power command completes. */
  lemma {:induction false} NoPowerUnheld(cfg: Config, q: History, h: History)
    requires Unbroken(q, h) && Lawful(cfg, h) && !Held(q)
    ensures !Held(h) && LastPower(h) == LastPower(q)
  {
    hide Due, InGrace;
    if q != h {
      NoPowerUnheld(cfg, q, h.past);
    }
  }

  lemma {:induction false} PowersPrecede(cfg: Config, q: History, h: History, r: History)
    requires Unbroken(q, h) && Lawful(cfg, h) && !Held(q)
    requires Prefix(r, h) && r.Then? && r.last.PowerSent?
    ensures Prefix(r, q)
  {
    hide Due, InGrace;
    if q != h {
      NoPowerUnheld(cfg, q, h.past);
      assert r != h;
      PowersPrecede(cfg, q, h.past, r);
    }
  }

  lemma {:induction false} LastPowerIsLatest(r: History, h: History, now: Time)
    requires Timely(h, now) && Prefix(r, h) && r.Then? && r.last.PowerSent?
    ensures LastPower(h).Some? && r.last.at <= LastPower(h).value <= now
  {
    if r != h {
      LastPowerIsLatest(r, h.past, h.last.at);
    }
  }

  /** Every power command so far completed at least a minute before t. */
  ghost predicate NoPowerBefore(h: History, t: Time) {
    forall r: History :: Prefix(r, h) && r.Then? && r.last.PowerSent? ==> t - r.last.at >= 60.0
  }

  /** q began outside the grace window of every power command there has ever been. */
  ghost predicate OutsideGrace(q: History, h: History)
    requires q.Then?
  {
    NoPowerBefore(h, q.last.at)
  }

  lemma TroubleOutsideGrace(cfg: Config, q: History, h: History, now: Time)
    requires Lawful(cfg, h) && Timely(h, now) && Prefix(q, h) && Unbroken(q, h)
    requires q.Then? && q.last.Trouble?
    ensures OutsideGrace(q, h)
  {
    PrefixLawful(cfg, q, h, now);
    hide Due;
    assert !Held(q) && !InGrace(q.past, q.last.at);
    hide Lawful, Legal;
    forall r: History | Prefix(r, h) && r.Then? && r.last.PowerSent?
      ensures q.last.at - r.last.at >= 60.0
    {
      PowersPrecede(cfg, q, h, r);
      LastPowerIsLatest(r, q.past, q.last.at);
    }
  }

  /** q starts an unreachable stretch that h is still part of. */
  ghost predicate Stretch(q: History, h: History) {
    && Prefix(q, h) && q.Then? && q.last.Trouble?
    && Unbroken(q, h) && NeverSilent(q, h) && OutsideGrace(q, h)
  }

  /** A recovery for having been unreachable too long names the moment q the stretch
      began: at least 600 s ago, outside the grace window of every power command, with
      no successful connect and no silent scan since. */
  lemma LongUnreachableJustified(cfg: Config, p: History) returns (q: History)
    requires Reachable(cfg, p) && p.Then? && p.last.Recovery? && p.last.why == LongUnreachable
    ensures Stretch(q, p) && p.last.at - q.last.at >= 600.0
  {
    var now := ReachableLawful(cfg, p);
    assert Alarm(p.past) && p.past.last.Trouble? && p.last.at == p.past.last.at && !SilentPending(p.past);
    q := ClockStart(p.past.past);
    PrefixLawful(cfg, q, p, now);
    assert !SilentPending(q);
    UnbrokenNeverSilent(cfg, q, p);
    TroubleOutsideGrace(cfg, q, p, now);
  }

  lemma {:induction false} UnbrokenKeepsClock(q: History, h: History)
    requires Unbroken(q, h) && UnreachableSince(q).Some?
    ensures UnreachableSince(h) == UnreachableSince(q)
  {
    if q != h {
      UnbrokenKeepsClock(q, h.past);
    }
  }

  /** Conversely, trouble 600 s after earlier trouble always raises the alarm, unless
      a connection or a silent scan came between. */
  lemma LongTroubleSuffices(cfg: Config, q: History, h: History)
    requires Reachable(cfg, h) && h.Then? && h.last.Trouble?
    requires Prefix(q, h.past) && q.Then? && q.last.Trouble? && Unbroken(q, h.past)
    requires h.last.at - q.last.at >= 600.0
    ensures Alarm(h)
  {
    var now := ReachableLawful(cfg, h);
    PrefixLawful(cfg, q, h.past, h.last.at);
    if UnreachableSince(q.past).Some? {
      var s := ClockStart(q.past);
      PrefixLawful(cfg, s, q.past, q.last.at);
    }
    UnbrokenKeepsClock(q, h.past);
  }

  // ---- Dense connect failures ---------------------------------------------

  /** A power-cycle known to have touched the adapter. */
  predicate PowerCycle(e: Event) {
    e.Recovery? || (e.ManualEnded? && e.ok)
  }

  /** After q: no counted failure, successful connect or adapter power-cycle. */
  ghost predicate Uneventful(q: History, h: History) {
    q == h || (h.Then? && !h.last.Connected? && !PowerCycle(h.last) && !h.last.CountedFailure? && Uneventful(q, h.past))
  }

  /** After q: no successful connect, no adapter power-cycle, and no connect failure
      inside a grace window. */
  ghost predicate Dense(q: History, h: History) {
    q == h || (h.Then? && !h.last.Connected? && !PowerCycle(h.last) && !h.last.GraceFailure? && Dense(q, h.past))
  }

  lemma {:induction false} LatestCounted(h: History) returns (q: History)
    requires DenseRun(h) > 0
    ensures Prefix(q, h) && Uneventful(q, h) && q.Then? && q.last.CountedFailure?
    ensures q.last.asOf == LastCounted(h) && DenseRun(q) == DenseRun(h)
  {
    if h.last.CountedFailure? {
      q := h;
    } else {
      q := LatestCounted(h.past);
    }
  }

  /** Counted failures next to each other in a dense run. */
  ghost predicate Adjacent(b: History, a: History) {
    && a.Then? && b.Then? && a.last.CountedFailure? && b.last.CountedFailure?
    && Prefix(b, a.past) && Uneventful(b, a.past) && a.last.asOf - b.last.asOf <= 600.0
  }

  /** One step down a dense run. */
  lemma PreviousCounted(h: History) returns (q: History)
    requires h.Then? && h.last.CountedFailure? && DenseRun(h) > 1
    ensures Adjacent(q, h) && DenseRun(q) == DenseRun(h) - 1
  {
    q := LatestCounted(h.past);
  }

  /** No power command has completed since q, when the last one was already old. */
  ghost predicate Quiescent(q: History, h: History)
    requires q.Then? && q.last.CountedFailure?
  {
    !Held(h) && LastPower(h) == LastPower(q.past)
  }

  lemma {:induction false} UneventfulIsDense(cfg: Config, c: History, b: History, h: History, now: Time)
    requires Uneventful(b, h) && Prefix(b, h) && Lawful(cfg, h) && Timely(h, now)
    requires c.Then? && c.last.CountedFailure? && !InGrace(c.past, c.last.asOf) && c.last.asOf <= c.last.at
    requires Quiescent(c, b) && Dense(c, b) && c.last.at <= b.last.at && b.Then?
    ensures Dense(c, h) && Quiescent(c, h) && (h.Then? && c.last.at <= h.last.at)
  {
    hide Due;
    if b != h {
      UneventfulIsDense(cfg, c, b, h.past, h.last.at);
    }
  }

  /** A recovery for dense connect failures names three counted failures: adjacent ones
      at most 600 s apart, with no successful connect, no power-cycle and no failure
      inside a grace window since the first; each came a minute or more after every power
      command. */
  lemma DenseFailuresJustified(cfg: Config, p: History) returns (c: History, b: History)
    requires Reachable(cfg, p) && p.Then? && p.last.Recovery? && p.last.why == DenseFailures
    ensures Adjacent(c, b) && Adjacent(b, p.past) && Dense(c, p.past)
    ensures forall x | x in {c, b, p.past} :: NoPowerBefore(x, x.last.asOf)
  {
    var now := ReachableLawful(cfg, p);
    var a := p.past;
    assert a.Then? && a.last.CountedFailure? && DenseRun(a) >= WEDGE_CONNECT_FAILURES by { hide Lawful; }
    b := PreviousCounted(a);
    c := PreviousCounted(b);
    ThreeAreDense(cfg, c, b, a, now) by { hide Lawful; }
    PrefixLawful(cfg, a, p, now);
    PrefixLawful(cfg, b, a, now);
    PrefixLawful(cfg, c, a, now) by { PrefixTrans(c, b, a); }
    hide Lawful, Timely, Prefix, Dense, Uneventful;
    CountedOutsideGrace(cfg, a, now);
    CountedOutsideGrace(cfg, b, now);
    CountedOutsideGrace(cfg, c, now);
  }

  lemma CountedLegal(cfg: Config, c: History)
    requires Lawful(cfg, c) && c.Then? && c.last.CountedFailure?
    ensures !Held(c) && !InGrace(c.past, c.last.asOf) && c.last.asOf <= c.last.at && Quiescent(c, c)
  {
  }

  lemma CountedOutsideGrace(cfg: Config, c: History, now: Time)
    requires Lawful(cfg, c) && Timely(c, now) && c.Then? && c.last.CountedFailure?
    ensures NoPowerBefore(c, c.last.asOf)
  {
    CountedLegal(cfg, c);
    hide Lawful;
    forall r: History | Prefix(r, c) && r.Then? && r.last.PowerSent?
      ensures c.last.asOf - r.last.at >= 60.0
    {
      LastPowerIsLatest(r, c.past, c.last.at);
    }
  }

  /** Stretching a dense stretch from one counted failure to the next. */
  lemma DenseStep(cfg: Config, c: History, b: History, a: History, now: Time)
    requires Lawful(cfg, a) && Timely(a, now) && a.Then? && a.last.CountedFailure?
    requires Prefix(b, a.past) && b.Then? && Uneventful(b, a.past)
    requires c.Then? && c.last.CountedFailure? && !InGrace(c.past, c.last.asOf) && c.last.asOf <= c.last.at
    requires Quiescent(c, b) && Dense(c, b) && c.last.at <= b.last.at
    ensures Dense(c, a) && Quiescent(c, a) && c.last.at <= a.last.at
  {
    hide InGrace;
    UneventfulIsDense(cfg, c, b, a.past, a.last.at);
    hide Lawful, Uneventful;
  }

  lemma ThreeAreDense(cfg: Config, c: History, b: History, a: History, now: Time)
    requires Lawful(cfg, a) && Timely(a, now) && Adjacent(c, b) && Adjacent(b, a)
    ensures Dense(c, a)
  {
    PrefixLawful(cfg, b, a.past, a.last.at);
    PrefixLawful(cfg, c, b.past, b.last.at);
    CountedLegal(cfg, c);
    hide Lawful, Uneventful, Quiescent, InGrace;
    DenseStep(cfg, c, c, b, a.last.at);
    DenseStep(cfg, c, b, a, now);
  }

  lemma {:induction false} UneventfulKeepsRun(q: History, h: History)
    requires Uneventful(q, h)
    ensures DenseRun(h) == DenseRun(q) && LastCounted(h) == LastCounted(q)
  {
    if q != h {
      UneventfulKeepsRun(q, h.past);
    }
  }

  /** Conversely, three such failures are always enough to raise the alarm. */
  lemma ThreeDenseFailuresSuffice(c: History, b: History, a: History)
    requires Adjacent(c, b) && Adjacent(b, a)
    ensures Alarm(a)
  {
    UneventfulKeepsRun(c, b.past);
    UneventfulKeepsRun(b, a.past);
    assert DenseRun(c) >= 1 && DenseRun(b) == DenseRun(c) + 1;
  }

  /** The same history as if failures explained by a stale link had never happened. */
  function Unreclaimed(h: History): History {
    if h.Start? then h
    else if h.last.ReclaimedFailure? then Unreclaimed(h.past)
    else Then(Unreclaimed(h.past), h.last)
  }

  /** A failure explained by a stale link does not count, but does not clear what was
      counted before it either: it may lie between the failures of a dense run. */
  lemma {:induction false} ReclaimedFailuresAreInvisible(h: History)
    ensures DenseRun(Unreclaimed(h)) == DenseRun(h) && LastCounted(Unreclaimed(h)) == LastCounted(h)
  {
    if h.Then? {
      ReclaimedFailuresAreInvisible(h.past);
    }
  }

  // ---- Scan errors --------------------------------------------------------

  /** The last k scans all failed, with no adapter power-cycle among them. */
  predicate FailedTail(h: History, k: nat) {
    k == 0 ||
    (h.Then? && !h.last.ScanClean? && !PowerCycle(h.last) && FailedTail(h.past, if h.last.ScanFailed? then k - 1 else k))
  }

  lemma {:induction false} ErrorRunMeaning(h: History, k: nat)
    ensures FailedTail(h, k) <==> ErrorRun(h) >= k
  {
    if h.Then? && k > 0 {
      ErrorRunMeaning(h.past, if h.last.ScanFailed? then k - 1 else k);
    }
  }

  /** A recovery for scan errors: the last five scans, this one included, all failed. */
  lemma ScanErrorsJustified(cfg: Config, p: History)
    requires Reachable(cfg, p) && p.Then? && p.last.Recovery? && p.last.why == ScanErrors
    ensures p.past.Then? && p.past.last.ScanFailed? && FailedTail(p.past, 5)
  {
    var now := ReachableLawful(cfg, p);
    assert Alarm(p.past) by { hide CooledDown; }
    ErrorRunMeaning(p.past, 5);
  }

  /** The evidence, whichever of the three kinds it is: dense connect failures c, b and
      the present one; present trouble 600 s after trouble q; five failed scans in a row. */
  ghost predicate Evidence(h: History, c: History, b: History, q: History) {
    || (Adjacent(c, b) && Adjacent(b, h))
    || (h.Then? && h.last.Trouble? && q.Then? && q.last.Trouble? && Prefix(q, h.past) && Unbroken(q, h.past)
        && h.last.at - q.last.at >= 600.0)
    || (h.Then? && h.last.ScanFailed? && FailedTail(h, 5))
  }

  /** Every power-cycle so far is at least 900 s old. */
  ghost predicate Rested(h: History, t: Time) {
    forall q :: Prefix(q, h) && q.Then? && PowerCycle(q.last) ==> t - q.last.at >= 900.0
  }

  lemma {:induction false} LastRecoveryIsReal(h: History)
    requires LastRecovery(h).Some?
    ensures exists q :: Prefix(q, h) && q.Then? && PowerCycle(q.last) && q.last.at == LastRecovery(h).value
  {
    if Cycled(h.last) {
      assert Prefix(h, h);
    } else {
      LastRecoveryIsReal(h.past);
      var q :| Prefix(q, h.past) && q.Then? && PowerCycle(q.last) && q.last.at == LastRecovery(h.past).value;
      assert Prefix(q, h);
    }
  }

  lemma RestedCooledDown(h: History, t: Time)
    requires Rested(h, t)
    ensures CooledDown(h, t)
  {
    if LastRecovery(h).Some? {
      LastRecoveryIsReal(h);
    }
  }

  /** Whenever there is evidence of a wedge and the last power-cycle is 900 s old, the
      very next thing that happens, at that very instant, is a power-cycle. */
  lemma WedgeIsAnswered(cfg: Config, p: History, c: History, b: History, q: History)
    requires Reachable(cfg, p) && p.Then? && cfg.canRecover
    requires Evidence(p.past, c, b, q) && Rested(p.past, p.past.last.at)
    ensures p.last.Recovery? && p.last.at == p.past.last.at
  {
    var now := ReachableLawful(cfg, p);
    var h := p.past;
    RestedCooledDown(h, h.last.at);
    if Adjacent(c, b) && Adjacent(b, h) {
      ThreeDenseFailuresSuffice(c, b, h);
    } else if h.last.Trouble? {
      PastIsReachable(cfg, p);
      LongTroubleSuffices(cfg, q, h);
    } else {
      ErrorRunMeaning(h, 5);
    }
    hide CooledDown, Alarm, Evidence, Adjacent, FailedTail;
  }

  lemma PastIsReachable(cfg: Config, p: History)
    requires Reachable(cfg, p) && p.Then?
    ensures Reachable(cfg, p.past)
  {
    var clock: Time, turns: seq<Turn> :| Prefix(p, Run(Init(cfg, clock), turns).h);
    assert Prefix(p.past, p);
    PrefixTrans(p.past, p, Run(Init(cfg, clock), turns).h);
    hide Run;
  }

  // ---- Promises made in passing -------------------------------------------

  /** The connection that c made has not dropped. */
  ghost predicate StillUp(c: History, h: History) {
    c == h || (h.Then? && !h.last.Dropped? && StillUp(c, h.past))
  }

  lemma {:induction false} HeldMeaning(h: History)
    ensures Held(h) <==> exists c :: StillUp(c, h) && c.Then? && c.last.Connected?
  {
    if h.Then? {
      HeldMeaning(h.past);
      if c :| StillUp(c, h.past) && c.Then? && c.last.Connected? {
        assert !h.last.Dropped? ==> StillUp(c, h);
      }
      assert StillUp(h, h);
    }
  }

  /** Neither an automatic power-cycle nor a stale-link reclaim ever happens while a
      connection is up, so neither can cut the manager's own live link. */
  lemma HandsOff(cfg: Config, p: History, c: History)
    requires Reachable(cfg, p) && p.Then?
    requires p.last.Recovery? || p.last.ReclaimHit? || p.last.ReclaimMiss?
    ensures c.Then? && c.last.Connected? ==> !StillUp(c, p.past)
  {
    var now := ReachableLawful(cfg, p);
    HeldMeaning(p.past);
    if p.last.Recovery? {
      assert Alarm(p.past);
    }
    hide InGrace, CooledDown;
  }

  lemma {:induction false} HeldHasNoClock(cfg: Config, h: History)
    requires Lawful(cfg, h) && Held(h)
    ensures UnreachableSince(h).None?
  {
    hide Due, InGrace;
    if !h.last.Connected? {
      HeldHasNoClock(cfg, h.past);
    }
  }

  lemma {:induction false} InGraceHasNoClock(cfg: Config, h: History, now: Time)
    requires Lawful(cfg, h) && Timely(h, now) && InGrace(h, now)
    ensures UnreachableSince(h).None?
  {
    hide Due;
    if h.last.PowerSent? {
      HeldHasNoClock(cfg, h.past);
    } else {
      assert InGrace(h.past, h.last.at);
      InGraceHasNoClock(cfg, h.past, h.last.at);
    }
  }

  /** Within a minute after a power command the unreachable clock is always stopped, so
      skipping the check there leaves no stale start time behind. */
  lemma GraceHasNoClock(cfg: Config, r: History, h: History)
    requires Reachable(cfg, h) && Prefix(r, h) && r.Then? && r.last.PowerSent? && h.last.at - r.last.at < 60.0
    ensures UnreachableSince(h).None?
  {
    var now := ReachableLawful(cfg, h);
    Later(h, h.last.at, h.last.at);
    LastPowerIsLatest(r, h, h.last.at);
    InGraceHasNoClock(cfg, h, h.last.at);
  }

  // ---- No reason, no recovery ---------------------------------------------

  /** The scan ended cleanly and saw neither the speaker nor its beacon. */
  predicate Absent(t: Turn) {
    t.scan.value == Clean(false, false)
  }

  lemma {:induction false} WaitsDoNotRecover(w: World, acts: seq<Act>)
    ensures Recoveries(DoAll(w, acts).h) == Recoveries(w.h)
    decreases |acts|
  {
    if acts != [] {
      WaitsDoNotRecover(Do(w, acts[0]), acts[1..]);
    }
  }

  lemma AbsentPass(w: World, t: Turn)
    requires Absent(t)
    ensures Recoveries(Pass(w, t).h) == Recoveries(w.h)
  {
    WaitsDoNotRecover(w, t.scan.during);
    var scanned := DoAll(w, t.scan.during);
    var seen := Log(scanned, ScanClean(scanned.clock, false, false));
    WaitsDoNotRecover(seen, t.reclaim.during);
    var ready := Scan(w, t);
    hide DoAll, Do, Asleep, EmptyRun;
    assert Recoveries(ready.h) == Recoveries(w.h);
    WaitsDoNotRecover(ready, Asleep(RetryDelay(w.cfg, ready.h), t.sleep));
    WaitsDoNotRecover(ready, Asleep(RetryDelay(ready.cfg, ready.h), t.sleep));
  }

  /** While every scan is clean and finds nothing and no beacon, the adapter is never
      power-cycled, however long the run and whatever the state it starts from. */
  lemma {:induction false} AbsenceNeverRecovers(w: World, turns: seq<Turn>)
    requires forall i | 0 <= i < |turns| :: Absent(turns[i])
    ensures Recoveries(Run(w, turns).h) == Recoveries(w.h)
    decreases |turns|
  {
    if turns != [] {
      AbsenceNeverRecovers(w, turns[..|turns| - 1]);
      AbsentPass(Run(w, turns[..|turns| - 1]), turns[|turns| - 1]);
      hide Pass;
    }
  }

  // ---- The scan backoff ---------------------------------------------------

  /** After q: no sleep, and nothing that starts the backoff over. */
  ghost predicate Sleepless(q: History, h: History) {
    q == h || (h.Then? && !h.last.Slept? && !h.last.Connected? && !h.last.ReclaimHit? && Sleepless(q, h.past))
  }

  lemma {:induction false} SleeplessKeeps(cfg: Config, q: History, h: History, now: Time)
    requires Sleepless(q, h) && Lawful(cfg, h) && Timely(h, now)
    ensures SleepsSinceReset(h) == SleepsSinceReset(q) && Lawful(cfg, q)
  {
    hide Legal;
    if q != h {
      SleeplessKeeps(cfg, q, h.past, h.last.at);
    }
  }

  /** The first sleep of a run, or after a connection or a reclaim that freed the link,
      lasts the configured delay; any other twice the one before it, at most a minute. */
  lemma ScanBackoff(cfg: Config, q: History, p: History)
    requires Reachable(cfg, p) && p.Then? && p.last.Slept? && Sleepless(q, p.past)
    ensures q.Start? || q.last.Connected? || q.last.ReclaimHit? ==> p.last.delay == cfg.base
    ensures q.Then? && q.last.Slept? ==> p.last.delay == Min(2.0 * q.last.delay, 60.0)
  {
    var now := ReachableLawful(cfg, p);
    SleeplessKeeps(cfg, q, p.past, p.last.at);
    hide Due, Alarm, Held, PhaseOf, InGrace;
  }

  /** So the k-th of them in a row lasts base * 2^k, at most 60 s; but a first delay
      configured above 60 s is slept in full once. */
  lemma ScanBackoffClosedForm(cfg: Config, p: History)
    requires Reachable(cfg, p) && p.Then? && p.last.Slept?
    ensures var k := SleepsSinceReset(p.past);
            if k == 0 then p.last.delay == cfg.base else p.last.delay == Min(Backoff.Grown(cfg.base, 2.0, k), 60.0)
  {
    var now := ReachableLawful(cfg, p);
    hide Due, Backoff.Times;
    Backoff.ClosedForm(cfg.base, 2.0, RECONNECT_MAX, SleepsSinceReset(p.past));
  }

  // ---- The reclaim cool-down ----------------------------------------------

  /** After m: no reclaim has freed the link. */
  ghost predicate NoHitSince(m: History, h: History) {
    m == h || (h.Then? && !h.last.ReclaimHit? && NoHitSince(m, h.past))
  }

  lemma {:induction false} LastMissIsLatest(cfg: Config, m: History, h: History, now: Time)
    requires Lawful(cfg, h) && Timely(h, now) && Prefix(m, h) && NoHitSince(m, h) && m.Then? && m.last.ReclaimMiss?
    ensures LastMiss(h).Some? && m.last.asOf <= LastMiss(h).value
  {
    hide Due;
    if m != h && NoHitSince(m, h.past) && Prefix(m, h.past) {
      LastMissIsLatest(cfg, m, h.past, h.last.at);
    }
  }

  /** A reclaim that found nothing rules out another within 30 s, unless one has freed the
      link since. */
  lemma ReclaimsApart(cfg: Config, m: History, p: History)
    requires Reachable(cfg, p) && p.Then? && (p.last.ReclaimHit? || p.last.ReclaimMiss?)
    requires Prefix(m, p.past) && NoHitSince(m, p.past) && m.Then? && m.last.ReclaimMiss?
    ensures (if p.last.ReclaimMiss? then p.last.asOf else p.last.at) - m.last.asOf >= 30.0
  {
    var now := ReachableLawful(cfg, p);
    LastMissIsLatest(cfg, m, p.past, p.last.at);
    hide Due;
  }
}
