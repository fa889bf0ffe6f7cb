/** Whether a connect failure explained by a stale link can lie inside a dense run of
    counted ones: exactly when it is configured, and the first retry delay is short enough. */
module ReclaimedFailures {
  import opened Prelude
  import opened Backoff
  import opened RecoveryHistory
  import opened RecoveryReasons
  import opened DeviceManagers

  /** p is a recovery for the dense failures c, b and p.past, and r, a failure explained
      by a stale link, lies among them. */
  ghost predicate Intervenes(cfg: Config, p: History, c: History, b: History, r: History) {
    && Reachable(cfg, p) && p.Then? && p.last.Recovery? && p.last.why == DenseFailures
    && Adjacent(c, b) && Adjacent(b, p.past)
    && r.Then? && r.last.ReclaimedFailure? && Prefix(r, p.past) && Prefix(c, r)
  }

  const LONGEST_BASE := 540.0

  // ---- It needs a short first delay ---------------------------------------

  lemma {:induction false} AdvancedFloor(base: Duration, k: nat)
    ensures Advanced(base, 2.0, RECONNECT_MAX, k) >= Min(base, RECONNECT_MAX)
  {
    if k > 0 {
      AdvancedFloor(base, k - 1);
    }
  }

  /** The least sleep that follows a failure x. */
  function Pause(cfg: Config, x: History): real {
    if SleepsSinceReset(x) == 0 then cfg.base else Min(cfg.base, RECONNECT_MAX)
  }

  /** Either the loop has not moved on since failure x, or it has slept since. */
  ghost predicate Paused(cfg: Config, x: History, h: History)
    requires x.Then?
  {
    || (LatestStep(h) == x && (SleepsSinceReset(x) == 0 ==> SleepsSinceReset(h) == 0))
    || (LatestStep(h).Then? && LatestStep(h).last.at >= x.last.at + Pause(cfg, x))
  }

  lemma {:induction false} AlwaysPaused(cfg: Config, x: History, h: History, now: Time)
    requires Lawful(cfg, h) && Timely(h, now) && Prefix(x, h) && x.Then? && IsFailure(x.last)
    ensures Paused(cfg, x, h)
  {
    hide Due, InGrace;
    if x != h {
      AlwaysPaused(cfg, x, h.past, h.last.at);
      StepBound(h.past, h.last.at);
      AdvancedFloor(cfg.base, SleepsSinceReset(h.past));
      hide Advanced, Lawful;
    }
  }

  /** From a failure to the moment the loop has found the speaker again. */
  lemma FailuresApart(cfg: Config, x: History, h: History, now: Time)
    requires Lawful(cfg, h) && Timely(h, now) && Prefix(x, h) && x.Then? && IsFailure(x.last) && PhaseOf(h) == Found
    ensures LatestStep(h).Then? && LatestStep(h).last.at >= x.last.at + Pause(cfg, x)
  {
    AlwaysPaused(cfg, x, h, now);
    hide Lawful, Timely, Prefix, SleepsSinceReset;
  }

  /** Between two counted failures, a reclaimed one costs two sleeps, the second of them
      the whole first delay. */
  lemma ReclaimCosts(cfg: Config, x: History, r: History, y: History, now: Time)
    requires Lawful(cfg, y) && Timely(y, now) && y.Then? && y.last.CountedFailure?
    requires Prefix(r, y.past) && r.Then? && r.last.ReclaimedFailure?
    requires Prefix(x, r.past) && x.Then? && x.last.CountedFailure?
    ensures y.last.asOf - x.last.asOf >= cfg.base + Min(cfg.base, RECONNECT_MAX)
  {
    PrefixLawful(cfg, r, y.past, y.last.at);
    PrefixLawful(cfg, x, r.past, r.last.at);
    CountedLegal(cfg, x);
    LegalFailure(cfg, y);
    LegalFailure(cfg, r);
    FailuresApart(cfg, r, y.past, y.last.at);
    FailuresApart(cfg, x, r.past, r.last.at);
    StepBound(r.past, r.last.at);
    hide Lawful, Timely, Prefix, LatestStep, PhaseOf, InGrace, Held, LastPower;
  }

  lemma LegalFailure(cfg: Config, y: History)
    requires Lawful(cfg, y) && y.Then? && (y.last.CountedFailure? || y.last.ReclaimedFailure?)
    ensures PhaseOf(y.past) == Found && Lawful(cfg, y.past)
    ensures y.last.CountedFailure? ==> LatestStep(y.past).last.at <= y.last.asOf
    ensures y.last.ReclaimedFailure? ==> SleepsSinceReset(y) == 0
  {
    hide Due, InGrace;
  }

  lemma InterveningNeeds(cfg: Config, p: History, c: History, b: History, r: History)
    requires Intervenes(cfg, p, c, b, r)
    ensures cfg.canRecover && cfg.canReclaim && cfg.base <= LONGEST_BASE
  {
    var now := ReachableLawful(cfg, p);
    var a := p.past;
    OnlyIfReclaiming(cfg, r, a, now);
    assert cfg.canRecover by { hide Alarm, CooledDown; }
    PrefixLinear(r, b, a.past);
    if Prefix(r, b) {
      PrefixLawful(cfg, b, a, now);
      ReclaimCosts(cfg, c, r, b, now);
    } else {
      ReclaimCosts(cfg, b, r, a, now);
    }
  }

  /** Without a configured reclaim no run contains a failure explained by one. */
  lemma OnlyIfReclaiming(cfg: Config, r: History, h: History, now: Time)
    requires Lawful(cfg, h) && Timely(h, now) && Prefix(r, h) && r.Then? && r.last.ReclaimedFailure?
    ensures cfg.canReclaim
  {
    PrefixLawful(cfg, r, h, now);
    hide Due, PhaseOf;
  }

  // ---- It happens whenever that is so -------------------------------------

  /** A pass that sees the speaker after d seconds of scanning and cannot connect. */
  function Refused(d: Duration, hit: bool): Turn {
    Turn(Reply([Tick(d)], Clean(true, true)), Reply([], false), Reply([], hit), [], [], [], [], [])
  }

  /** What such a pass notes: a failure explained by a stale link, or a counted one. */
  function Noted(h: History, now: Time, hit: bool): History {
    var seen := Then(h, ScanClean(now, true, true));
    if hit then Then(Then(seen, ReclaimHit(now)), ReclaimedFailure(now))
    else Then(Then(seen, ReclaimMiss(now, now)), CountedFailure(now, now))
  }

  /** The rest of the pass: trouble, and a sleep. */
  function Slumber(cfg: Config, h: History, now: Time): World {
    var tried := Then(h, Trouble(now));
    var delay := RetryDelay(cfg, tried);
    World(cfg, Then(tried, Slept(now + delay, delay)), now + delay)
  }

  lemma TickOnly(w: World, d: Duration)
    ensures DoAll(w, [Tick(d)]) == w.(clock := w.clock + d) && DoAll(w, []) == w
    ensures Asleep(d, []) == [Tick(d)]
  {
    assert [Tick(d)][1..] == [];
  }

  /** Nothing keeps such a failure from being noted as it is. */
  ghost predicate Plain(w: World, hit: bool) {
    && w.cfg.canReclaim && LastPower(w.h).None?
    && (LastMiss(w.h).Some? ==> w.clock - LastMiss(w.h).value >= RECLAIM_COOLDOWN)
    && (UnreachableSince(w.h).Some? ==> w.clock - UnreachableSince(w.h).value < WEDGE_UNREACHABLE_TIMEOUT)
    && (!hit ==> !Alarm(Noted(w.h, w.clock, false)))
  }

  lemma PlainlyNoted(w: World, hit: bool)
    requires Plain(w, hit)
    ensures NoteFailure(w.(h := Then(w.h, ScanClean(w.clock, true, true))), Reply([], hit), []) ==
            w.(h := Noted(w.h, w.clock, hit))
  {
    var seen := w.(h := Then(w.h, ScanClean(w.clock, true, true)));
    TickOnly(seen, 0.0);
    assert Reclaim(seen, Reply([], hit)) == w.(h := Noted(w.h, w.clock, hit).past);
    hide DoAll, Alarm, LastRecovery;
  }

  lemma PlainTrouble(w: World, hit: bool)
    requires Plain(w, hit)
    ensures var noted := w.(h := Noted(w.h, w.clock, hit));
            NoteUnreachable(noted, []) == Log(noted, Trouble(w.clock))
  {
    var noted := Noted(w.h, w.clock, hit);
    assert UnreachableSince(noted.past.past) == UnreachableSince(w.h) && LastPower(noted.past.past) == LastPower(w.h);
    assert UnreachableSince(noted.past) == UnreachableSince(w.h) && LastPower(noted.past) == LastPower(w.h);
    assert UnreachableSince(noted) == UnreachableSince(w.h) && LastPower(noted) == LastPower(w.h);
    hide DoAll, LastRecovery;
  }

  lemma RefusedPass(w: World, d: Duration, hit: bool)
    requires Plain(w.(clock := w.clock + d), hit)
    ensures Pass(w, Refused(d, hit)) == Slumber(w.cfg, Noted(w.h, w.clock + d, hit), w.clock + d)
  {
    var now := w.(clock := w.clock + d);
    var tried := now.(h := Then(Noted(w.h, now.clock, hit), Trouble(now.clock)));
    TickOnly(w, d);
    TickOnly(tried, RetryDelay(w.cfg, tried.h));
    PlainlyNoted(now, hit);
    PlainTrouble(now, hit);
    hide NoteFailure, NoteUnreachable, RetryDelay, Noted, DoAll, Asleep, Plain;
  }

  /** What is remembered once it is noted, and at the end of the pass. */
  function NotedMemory(cfg: Config, m: Memory, now: Time, hit: bool): Memory {
    if hit then m.(scanErrors := 0, emptyScans := 0, lastFailedReclaim := None, retryDelay := cfg.base)
    else Counted(m.(scanErrors := 0, emptyScans := 0, lastFailedReclaim := Some(now)), now)
  }

  function SlumberMemory(m: Memory, now: Time): Memory {
    m.(unreachableSince := if m.unreachableSince.None? then Some(now) else m.unreachableSince,
       retryDelay := Min(Times(m.retryDelay, 2.0), RECONNECT_MAX))
  }

  lemma NotedRemembers(cfg: Config, h: History, now: Time, hit: bool)
    ensures Remembered(cfg, Noted(h, now, hit)) == NotedMemory(cfg, Remembered(cfg, h), now, hit)
  {
    hide Remembered, RetryDelay, Times;
    var noted := Noted(h, now, hit);
    var seen := noted.past.past;
    RememberIsExact(cfg, h, seen.last);
    RememberIsExact(cfg, seen, noted.past.last);
    RememberIsExact(cfg, noted.past, noted.last);
  }

  lemma SlumberRemembers(cfg: Config, h: History, now: Time)
    ensures var m, after := Remembered(cfg, h), Slumber(cfg, h, now);
            Remembered(cfg, after.h) == SlumberMemory(m, now) && after.clock == now + m.retryDelay
  {
    var tried := Then(h, Trouble(now));
    Recall(cfg, tried);
    hide Remembered, RetryDelay, Times;
    RememberIsExact(cfg, h, Trouble(now));
    RememberIsExact(cfg, tried, Slept(now + RetryDelay(cfg, tried), RetryDelay(cfg, tried)));
  }

  lemma PlainIf(w: World, hit: bool)
    requires var m := Remembered(w.cfg, w.h);
             && w.cfg.canReclaim && m.lastPowerCommand.None?
             && (m.lastFailedReclaim.Some? ==> w.clock - m.lastFailedReclaim.value >= RECLAIM_COOLDOWN)
             && (m.unreachableSince.Some? ==> w.clock - m.unreachableSince.value < WEDGE_UNREACHABLE_TIMEOUT)
             && (!hit ==> m.connectFailures < 2)
    ensures Plain(w, hit)
  {
    Recall(w.cfg, w.h);
    NotedRemembers(w.cfg, w.h, w.clock, false);
    Recall(w.cfg, Noted(w.h, w.clock, false));
    hide Remembered, DenseRun, UnreachableSince, LastMiss, LastPower, RetryDelay;
  }

  /** Counted failures stay adjacent across such passes. */
  lemma PassLeads(cfg: Config, h: History, now: Time, hit: bool)
    ensures var noted, after := Noted(h, now, hit), Slumber(cfg, Noted(h, now, hit), now).h;
            Uneventful(h, noted.past) && Uneventful(noted, after) && (hit ==> Uneventful(h, after))
  {
    var noted := Noted(h, now, hit);
    assert Uneventful(h, noted.past.past);
    assert Uneventful(noted, Then(noted, Trouble(now)));
    assert hit ==> Uneventful(h, noted);
    assert hit ==> Uneventful(h, Then(noted, Trouble(now)));
    hide RetryDelay;
  }

  lemma {:induction false} UneventfulIsPrefix(q: History, h: History)
    requires Uneventful(q, h)
    ensures Prefix(q, h)
  {
    if q != h {
      UneventfulIsPrefix(q, h.past);
    }
  }

  lemma {:induction false} UneventfulTrans(p: History, q: History, h: History)
    requires Uneventful(p, q) && Uneventful(q, h)
    ensures Uneventful(p, h)
  {
    if q != h {
      UneventfulTrans(p, q, h.past);
    }
  }

  lemma RunSnoc(w: World, turns: seq<Turn>, t: Turn)
    ensures Run(w, turns + [t]) == Pass(Run(w, turns), t)
  {
    assert (turns + [t])[..|turns|] == turns;
    hide Pass;
  }

  /** The first pass finds nothing, which puts the first delay behind. */
  function Nothing(): Turn {
    Turn(Reply([], Clean(false, false)), Reply([], false), Reply([], false), [], [], [], [], [])
  }

  lemma NothingPass(cfg: Config)
    ensures var w := Pass(Init(cfg, 0.0), Nothing());
            && w.cfg == cfg && w.clock == cfg.base
            && Remembered(cfg, w.h) == Remembered(cfg, Start).(
                 emptyScans := if cfg.canReclaim then 1 else 0, retryDelay := Min(Times(cfg.base, 2.0), RECONNECT_MAX))
  {
    var h1 := Then(Start, ScanClean(0.0, false, false));
    var h2 := Then(h1, ClockStopped(0.0));
    var w := Pass(Init(cfg, 0.0), Nothing());
    TickOnly(Init(cfg, 0.0), 0.0);
    TickOnly(World(cfg, h2, 0.0), cfg.base);
    assert RetryDelay(cfg, h2) == cfg.base;
    assert w == World(cfg, Then(h2, Slept(cfg.base, cfg.base)), cfg.base) by { hide RetryDelay, DoAll, Asleep; }
    RememberIsExact(cfg, Start, h1.last);
    RememberIsExact(cfg, h1, h2.last);
    RememberIsExact(cfg, h2, Slept(cfg.base, cfg.base));
    hide Pass, RetryDelay, Times;
  }

  /** The third counted failure is one too many. */
  lemma LastPass(w: World)
    requires var m := Remembered(w.cfg, w.h);
             && w.cfg.canReclaim && w.cfg.canRecover && m.lastPowerCommand.None? && m.lastRecovery.None?
             && (m.lastFailedReclaim.Some? ==> w.clock - m.lastFailedReclaim.value >= RECLAIM_COOLDOWN)
             && m.connectFailures == 2 && w.clock - m.lastConnectFailure <= WEDGE_WINDOW
    ensures Prefix(Then(Noted(w.h, w.clock, false), Recovery(w.clock, DenseFailures)), Pass(w, Refused(0.0, false)).h)
  {
    var noted := Noted(w.h, w.clock, false);
    Recall(w.cfg, w.h);
    NotedRemembers(w.cfg, w.h, w.clock, false);
    Recall(w.cfg, noted);
    hide Remembered, RetryDelay;
    var seen := w.(h := Then(w.h, ScanClean(w.clock, true, true)));
    TickOnly(w, 0.0);
    var begun := w.(h := Then(noted, Recovery(w.clock, DenseFailures)));
    assert NoteFailure(seen, Reply([], false), []) == begun by {
      assert Reclaim(seen, Reply([], false)) == w.(h := noted.past);
      assert Due(w.cfg, noted);
    }
    TroubleGrows(begun);
    SleepGrows(NoteUnreachable(begun, []));
    PrefixTrans(begun.h, NoteUnreachable(begun, []).h, Sleep(NoteUnreachable(begun, []), []).h);
    hide NoteFailure, NoteUnreachable, Sleep, DoAll, Noted;
  }

  lemma TroubleGrows(w: World)
    ensures Prefix(w.h, NoteUnreachable(w, []).h)
  {
    assert Prefix(w.h, Then(w.h, Trouble(w.clock)));
    hide Due, InGrace;
  }

  lemma SleepGrows(w: World)
    ensures Prefix(w.h, Sleep(w, []).h)
  {
    TickOnly(w, RetryDelay(w.cfg, w.h));
    hide RetryDelay, DoAll, Asleep;
  }

  // ---- The run ------------------------------------------------------------

  /** The sleeps of the run below. */
  function Sleeps(cfg: Config, k: nat): Duration {
    AdvancedIsDuration(cfg.base, k);
    Advanced(cfg.base, 2.0, RECONNECT_MAX, k)
  }

  lemma SleepsAreShort(cfg: Config, k: nat)
    requires k > 0
    ensures Sleeps(cfg, k) <= RECONNECT_MAX && Sleeps(cfg, k + 1) == Min(Times(Sleeps(cfg, k), 2.0), RECONNECT_MAX)
  {
    hide Times;
  }

  function Rest(cfg: Config, k: nat): Duration
    requires k > 0
  {
    SleepsAreShort(cfg, k);
    RECONNECT_MAX - Sleeps(cfg, k)
  }

  lemma RestIsRest(cfg: Config, k: nat)
    requires k > 0
    ensures Rest(cfg, k) + Sleeps(cfg, k) == RECONNECT_MAX
  {
  }

  /** One pass finds nothing; then failures a minute apart: counted, counted, explained
      by a stale link; and after the whole first delay, counted again. */
  function Turns(cfg: Config): seq<Turn> {
    [Nothing()] + [Refused(0.0, false)] + [Refused(Rest(cfg, 1), false)] + [Refused(Rest(cfg, 2), true)] + [Refused(0.0, false)]
  }

  /** A pass refused n failures into the run. */
  lemma OneRefused(w: World, d: Duration, hit: bool) returns (w': World)
    requires Plain(w.(clock := w.clock + d), hit)
    ensures var now, m := w.clock + d, NotedMemory(w.cfg, Remembered(w.cfg, w.h), w.clock + d, hit);
            && w' == Pass(w, Refused(d, hit)) && w' == Slumber(w.cfg, Noted(w.h, now, hit), now)
            && w'.cfg == w.cfg && w'.clock == now + m.retryDelay && Remembered(w.cfg, w'.h) == SlumberMemory(m, now)
  {
    var now := w.clock + d;
    RefusedPass(w, d, hit);
    NotedRemembers(w.cfg, w.h, now, hit);
    SlumberRemembers(w.cfg, Noted(w.h, now, hit), now);
    w' := Pass(w, Refused(d, hit));
    hide Pass, Remembered, Noted, Plain, RetryDelay;
  }

  /** Where the run stands. */
  ghost predicate Stands(
    cfg: Config, w: World, clock: Time, failures: nat, counted: Time, since: Option<Time>, miss: Option<Time>, k: nat)
  {
    var m := Remembered(cfg, w.h);
    && w.cfg == cfg && w.clock == clock && m.lastPowerCommand.None? && m.lastRecovery.None?
    && m.connectFailures == failures && m.lastConnectFailure == counted && m.unreachableSince == since
    && m.lastFailedReclaim == miss && m.retryDelay == Sleeps(cfg, k)
  }

  lemma Opens(cfg: Config) returns (w: World)
    ensures w == Pass(Init(cfg, 0.0), Nothing()) && Stands(cfg, w, cfg.base, 0, 0.0, None, None, 1)
  {
    NothingPass(cfg);
    w := Pass(Init(cfg, 0.0), Nothing());
    hide Pass, Times;
  }

  lemma CountsOn(
    cfg: Config, w: World, failures: nat, counted: Time, since: Option<Time>, miss: Option<Time>, k: nat, d: Duration, now: Time)
    returns (w': World)
    requires Stands(cfg, w, now - d, failures, counted, since, miss, k) && k > 0 && cfg.canReclaim && failures < 2
    requires now - counted <= WEDGE_WINDOW || failures == 0
    requires miss.Some? ==> now - miss.value >= RECLAIM_COOLDOWN
    requires since.Some? ==> now - since.value < WEDGE_UNREACHABLE_TIMEOUT
    ensures w' == Pass(w, Refused(d, false)) && w' == Slumber(cfg, Noted(w.h, now, false), now)
    ensures Stands(cfg, w', now + Sleeps(cfg, k), failures + 1, now, if since.None? then Some(now) else since, Some(now), k + 1)
  {
    hide Remembered, Noted, Plain, Times, Pass, Slumber, Sleeps, Refused;
    SleepsAreShort(cfg, k);
    assert w.clock + d == now;
    PlainIf(w.(clock := now), false);
    w' := OneRefused(w, d, false);
  }

  lemma IsReclaimed(
    cfg: Config, w: World, failures: nat, counted: Time, since: Time, miss: Time, k: nat, d: Duration, now: Time)
    returns (w': World)
    requires Stands(cfg, w, now - d, failures, counted, Some(since), Some(miss), k) && cfg.canReclaim
    requires now - miss >= RECLAIM_COOLDOWN && now - since < WEDGE_UNREACHABLE_TIMEOUT
    ensures w' == Pass(w, Refused(d, true)) && w' == Slumber(cfg, Noted(w.h, now, true), now)
    ensures Stands(cfg, w', now + cfg.base, failures, counted, Some(since), None, 1)
  {
    hide Remembered, Noted, Plain, Times, Pass, Slumber, Sleeps, Refused;
    FirstSleep(cfg);
    assert w.clock + d == now;
    PlainIf(w.(clock := now), true);
    w' := OneRefused(w, d, true);
  }

  lemma FirstSleep(cfg: Config)
    ensures Sleeps(cfg, 1) == Min(Times(cfg.base, 2.0), RECONNECT_MAX)
  {
    hide Times;
    assert Sleeps(cfg, 0) == cfg.base;
  }

  /** The four passes before the last. */
  ghost predicate Chain(cfg: Config, w1: World, w2: World, w3: World, w4: World) {
    && w1 == Pass(Init(cfg, 0.0), Nothing()) && w2 == Pass(w1, Refused(0.0, false))
    && w3 == Pass(w2, Refused(Rest(cfg, 1), false)) && w4 == Pass(w3, Refused(Rest(cfg, 2), true))
    && w2 == Slumber(cfg, Noted(w1.h, cfg.base, false), cfg.base)
    && w3 == Slumber(cfg, Noted(w2.h, cfg.base + 60.0, false), cfg.base + 60.0)
    && w4 == Slumber(cfg, Noted(w3.h, cfg.base + 120.0, true), cfg.base + 120.0)
    && Stands(cfg, w4, cfg.base + 120.0 + cfg.base, 2, cfg.base + 60.0, Some(cfg.base), None, 1)
  }

  lemma FourPasses(cfg: Config) returns (w1: World, w2: World, w3: World, w4: World)
    requires cfg.canReclaim
    ensures Chain(cfg, w1, w2, w3, w4)
  {
    hide Remembered, Pass, Sleeps, Noted, Slumber, Stands, Rest, Refused, Nothing, Times;
    var t, r1, r2 := cfg.base, Rest(cfg, 1), Rest(cfg, 2);
    RestIsRest(cfg, 1);
    RestIsRest(cfg, 2);
    assert t + Sleeps(cfg, 1) == t + 60.0 - r1 && t + 60.0 + Sleeps(cfg, 2) == t + 120.0 - r2;
    w1 := Opens(cfg);
    w2 := CountsOn(cfg, w1, 0, 0.0, None, None, 1, 0.0, t);
    w3 := CountsOn(cfg, w2, 1, t, Some(t), Some(t), 2, r1, t + 60.0);
    w4 := IsReclaimed(cfg, w3, 2, t + 60.0, t, t + 60.0, 3, r2, t + 120.0);
  }

  lemma InterveningHappens(cfg: Config) returns (p: History, c: History, b: History, r: History)
    requires cfg.canRecover && cfg.canReclaim && cfg.base <= LONGEST_BASE
    ensures Intervenes(cfg, p, c, b, r)
  {
    var w1, w2, w3, w4 := FourPasses(cfg);
    p, c, b, r := Reap(cfg, w1, w2, w3, w4);
    hide Intervenes, Chain;
  }

  lemma Reap(cfg: Config, w1: World, w2: World, w3: World, w4: World)
    returns (p: History, c: History, b: History, r: History)
    requires Chain(cfg, w1, w2, w3, w4) && cfg.canRecover && cfg.canReclaim && cfg.base <= LONGEST_BASE
    ensures Intervenes(cfg, p, c, b, r)
  {
    hide Remembered, Pass, Sleeps, Noted, Slumber, Rest, Refused, Nothing, Adjacent, Prefix, Reachable, Times;
    var t, clock := cfg.base, w4.clock;
    assert clock - (t + 60.0) <= WEDGE_WINDOW;
    hide Stands;
    c, b, r := Noted(w1.h, t, false), Noted(w2.h, t + 60.0, false), Noted(w3.h, t + 120.0, true);
    p := Then(Noted(w4.h, clock, false), Recovery(clock, DenseFailures));
    Culminates(cfg, w4, t);
    RunOf(cfg, w1, w2, w3, w4);
    ChainOf(cfg, w1, w2, w3, w4, t);
    Reaches(cfg, w4, p);
    NotedLast(w3.h, t + 120.0);
  }

  lemma NotedLast(h: History, now: Time)
    ensures Noted(h, now, true).Then? && Noted(h, now, true).last.ReclaimedFailure?
  {
  }

  lemma Culminates(cfg: Config, w: World, t: Time)
    requires Stands(cfg, w, t + 120.0 + cfg.base, 2, t + 60.0, Some(t), None, 1)
    requires cfg.canRecover && cfg.canReclaim && cfg.base <= LONGEST_BASE
    ensures Prefix(Then(Noted(w.h, w.clock, false), Recovery(w.clock, DenseFailures)), Pass(w, Refused(0.0, false)).h)
  {
    hide Remembered, Pass, Noted;
    LastPass(w);
  }

  lemma RunOf(cfg: Config, w1: World, w2: World, w3: World, w4: World)
    requires w1 == Pass(Init(cfg, 0.0), Nothing()) && w2 == Pass(w1, Refused(0.0, false))
    requires w3 == Pass(w2, Refused(Rest(cfg, 1), false)) && w4 == Pass(w3, Refused(Rest(cfg, 2), true))
    ensures Run(Init(cfg, 0.0), Turns(cfg)) == Pass(w4, Refused(0.0, false))
  {
    hide Pass, Refused, Nothing;
    var w := Init(cfg, 0.0);
    var a, b, c, d, e :=
      Nothing(), Refused(0.0, false), Refused(Rest(cfg, 1), false), Refused(Rest(cfg, 2), true), Refused(0.0, false);
    assert [] + [a] == [a];
    RunSnoc(w, [], a);
    RunSnoc(w, [a], b);
    RunSnoc(w, [a] + [b], c);
    RunSnoc(w, [a] + [b] + [c], d);
    RunSnoc(w, [a] + [b] + [c] + [d], e);
  }

  lemma ChainOf(cfg: Config, w1: World, w2: World, w3: World, w4: World, t: Time)
    requires w2 == Slumber(cfg, Noted(w1.h, t, false), t)
    requires w3 == Slumber(cfg, Noted(w2.h, t + 60.0, false), t + 60.0)
    requires w4 == Slumber(cfg, Noted(w3.h, t + 120.0, true), t + 120.0)
    requires w4.clock - (t + 60.0) <= WEDGE_WINDOW
    ensures var c, b := Noted(w1.h, t, false), Noted(w2.h, t + 60.0, false);
            var r, a := Noted(w3.h, t + 120.0, true), Noted(w4.h, w4.clock, false);
            Adjacent(c, b) && Adjacent(b, a) && Prefix(r, a) && Prefix(c, r)
  {
    var c, b := Noted(w1.h, t, false), Noted(w2.h, t + 60.0, false);
    var r, a := Noted(w3.h, t + 120.0, true), Noted(w4.h, w4.clock, false);
    hide Slumber;
    PassLeads(cfg, w1.h, t, false);
    PassLeads(cfg, w2.h, t + 60.0, false);
    PassLeads(cfg, w3.h, t + 120.0, true);
    PassLeads(cfg, w4.h, w4.clock, false);
    Link(c, w2.h, b);
    UneventfulTrans(b, w3.h, w4.h);
    Link(b, w4.h, a);
    UneventfulIsPrefix(r, w4.h);
    UneventfulIsPrefix(w4.h, a.past);
    PrefixTrans(r, w4.h, a.past);
    UneventfulIsPrefix(b, w3.h);
    UneventfulIsPrefix(w3.h, r.past);
    PrefixTrans(b, w3.h, r.past);
    PrefixTrans(c, b, r.past);
    hide Uneventful;
  }

  lemma Link(c: History, h: History, b: History)
    requires Uneventful(c, h) && b.Then? && Uneventful(h, b.past) && c.Then?
    requires c.last.CountedFailure? && b.last.CountedFailure? && b.last.asOf - c.last.asOf <= WEDGE_WINDOW
    ensures Adjacent(c, b) && Prefix(c, b)
  {
    UneventfulTrans(c, h, b.past);
    UneventfulIsPrefix(c, b.past);
    hide Uneventful;
  }

  lemma Reaches(cfg: Config, w: World, p: History)
    requires Run(Init(cfg, 0.0), Turns(cfg)) == Pass(w, Refused(0.0, false)) && Prefix(p, Pass(w, Refused(0.0, false)).h)
    ensures Reachable(cfg, p)
  {
    hide Run, Pass, Turns, Prefix;
    assert Prefix(p, Run(Init(cfg, 0.0), Turns(cfg)).h);
  }

  /** A failure explained by a stale link can lie among the three failures of a dense run
      in some run of the manager if and only if recovery and reclaim are both configured
      and the first retry delay is at most 540 s. */
  lemma InterveningIsPossible(cfg: Config)
    ensures (exists p, c, b, r :: Intervenes(cfg, p, c, b, r)) <==>
              cfg.canRecover && cfg.canReclaim && cfg.base <= LONGEST_BASE
  {
    hide Intervenes;
    if p, c, b, r :| Intervenes(cfg, p, c, b, r) {
      InterveningNeeds(cfg, p, c, b, r);
    }
    if cfg.canRecover && cfg.canReclaim && cfg.base <= LONGEST_BASE {
      var p, c, b, r := InterveningHappens(cfg);
    }
  }
}
