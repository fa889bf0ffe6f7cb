/** `_drain_with_health_check`: when a held connection is given up, and how often the
    speaker is asked whether it is awake. */
module HealthCheck {
  import opened Prelude
  import opened Snapshots
  import opened RecoveryHistory
  import Battery

  const HEALTH_CHECK_INTERVAL := 15.0
  const STREAMING_HEALTH_CHECK_INTERVAL := 60.0
  const STANDBY_LIVENESS_POLL_INTERVAL := 120.0
  const HEALTH_CHECK_FAILURE_LIMIT := 2

  /** How a request over the link can come back without an answer. */
  datatype Probe<T> =
    | Answered(value: T)
    | Unanswered   // it timed out
    | Broken       // the attempt failed; the link may still be there
    | Gone         // the link is known to be gone

  /** Everything the link contributes to one cycle, and what happens meanwhile. */
  datatype Cycle = Cycle(
    asked: seq<Act>,
    streaming: bool,
    waited: seq<Act>,
    drained: bool,                                      // a disconnect was signalled during the wait
    probing: seq<Act>,
    verify: Probe<()>,
    battery: Probe<Option<Battery.BatteryStatus>>,      // None: no battery capability
    firmware: Probe<()>,
    confirmed: bool)                                    // the transport knows of a disconnect by now

  datatype Verdict = Fine | Blip | Over

  /** The cycles of one connection so far. */
  datatype Trace =
    | Opening
    | Round(past: Trace, interval: Duration, verified: bool, standby: bool, polled: bool, verdict: Verdict)

  // ---- Questions about a trace --------------------------------------------

  /** Ambiguous failures in a row, ending with the latest cycle. */
  function Blips(t: Trace): nat {
    if t.Opening? || !t.verdict.Blip? then 0 else Blips(t.past) + 1
  }

  /** Verified-cycle time since the last liveness poll. */
  function SincePoll(t: Trace): Duration {
    if t.Opening? || t.polled then 0.0 else SincePoll(t.past) + if t.verified then t.interval else 0.0
  }

  predicate Ended(t: Trace) {
    t.Round? && (t.verdict.Over? || Blips(t) >= HEALTH_CHECK_FAILURE_LIMIT)
  }

  // ---- One cycle ----------------------------------------------------------

  datatype Watch = Watch(face: Face, trace: Trace)

  function Interval(c: Cycle): Duration {
    if c.streaming then STREAMING_HEALTH_CHECK_INTERVAL else HEALTH_CHECK_INTERVAL
  }

  function Ambiguous(c: Cycle): Verdict {
    if c.confirmed then Over else Blip
  }

  /** What a liveness poll hears: battery first, firmware only if that is silent. */
  function Hear(c: Cycle): Probe<Answer> {
    match c.battery
    case Broken => Broken
    case Gone => Gone
    case Answered(Some(status)) => Answered(Charge(status))
    case _ =>
      match c.firmware
      case Broken => Broken
      case Gone => Gone
      case Answered(_) => Answered(Firmware)
      case Unanswered => Answered(Silence)
  }

  predicate StandbyConfirmed(f: Face) {
    f.misses >= LIVENESS_MISS_LIMIT
  }

  predicate PollDue(w: Watch, c: Cycle) {
    !StandbyConfirmed(w.face) || SincePoll(w.trace) + Interval(c) >= STANDBY_LIVENESS_POLL_INTERVAL
  }

  function Attend(w: Watch, c: Cycle): Watch {
    var interval, standby := Interval(c), StandbyConfirmed(w.face);
    if c.drained then Watch(w.face, Round(w.trace, interval, false, standby, false, Over))
    else
      match c.verify
      case Gone => Watch(w.face, Round(w.trace, interval, false, standby, false, Over))
      case Answered(_) =>
        if PollDue(w, c) then AttendPoll(w, c) else Watch(w.face, Round(w.trace, interval, true, standby, false, Fine))
      case _ => Watch(w.face, Round(w.trace, interval, false, standby, false, Ambiguous(c)))
  }

  function AttendPoll(w: Watch, c: Cycle): Watch {
    var interval, standby := Interval(c), StandbyConfirmed(w.face);
    match Hear(c)
    case Answered(a) => Watch(Apply(w.face, Poll(a)), Round(w.trace, interval, true, standby, true, Fine))
    case Gone => Watch(w.face, Round(w.trace, interval, true, standby, true, Over))
    case _ => Watch(w.face, Round(w.trace, interval, true, standby, true, Ambiguous(c)))
  }

  /** The cycles a connection lives through: until the watch ends it. */
  function AttendAll(w: Watch, cycles: seq<Cycle>): Watch
    decreases |cycles|
  {
    if cycles == [] || Ended(w.trace) then w else AttendAll(Attend(w, cycles[0]), cycles[1..])
  }

  // ---- The verdict --------------------------------------------------------

  /** The watch just before cycle k, if nothing has ended it. */
  function Before(w: Watch, cycles: seq<Cycle>, k: nat): Watch
    requires k <= |cycles|
  {
    AttendAll(w, cycles[..k])
  }

  /** The link was proved alive and a liveness poll was due. */
  predicate Polls(w: Watch, c: Cycle) {
    !c.drained && c.verify.Answered? && PollDue(w, c)
  }

  /** A request went wrong without proof that the link is gone. */
  predicate Fails(w: Watch, c: Cycle) {
    !c.drained && (c.verify.Unanswered? || c.verify.Broken? || (Polls(w, c) && Hear(c).Broken?))
  }

  /** A disconnect was signalled, or the link is known to be gone. */
  predicate Loses(w: Watch, c: Cycle) {
    || c.drained || c.verify.Gone? || (Polls(w, c) && Hear(c).Gone?)
    || (Fails(w, c) && c.confirmed)
  }

  /** Cycle k is one to end a connection: it lost the link, or it failed and so had the
      cycle just before it. */
  predicate Final(w: Watch, cycles: seq<Cycle>, k: nat)
    requires k < |cycles|
  {
    || Loses(Before(w, cycles, k), cycles[k])
    || (Fails(Before(w, cycles, k), cycles[k]) && k > 0 && Fails(Before(w, cycles, k - 1), cycles[k - 1]))
  }

  function Rounds(t: Trace): nat {
    if t.Opening? then 0 else Rounds(t.past) + 1
  }

  lemma {:induction false} AttendAllSnoc(w: Watch, cycles: seq<Cycle>, c: Cycle)
    ensures var before := AttendAll(w, cycles);
            AttendAll(w, cycles + [c]) == if Ended(before.trace) then before else Attend(before, c)
    decreases |cycles|
  {
    hide Attend, Ended;
    if cycles == [] {
      assert cycles + [c] == [c] && [c][1..] == [];
    } else if !Ended(w.trace) {
      assert (cycles + [c])[1..] == cycles[1..] + [c];
      AttendAllSnoc(Attend(w, cycles[0]), cycles[1..], c);
    }
  }

  /** What one cycle does to the verdict. */
  lemma AttendVerdict(w: Watch, c: Cycle)
    ensures var t := Attend(w, c).trace;
            && t.Round? && t.past == w.trace
            && (t.verdict.Over? <==> Loses(w, c)) && (t.verdict.Blip? <==> Fails(w, c) && !c.confirmed)
  {
    hide Apply, StandbyConfirmed;
  }

  /** Until a final cycle, every cycle is lived through, and the failure count is one
      exactly after a failed cycle. */
  lemma {:induction false} NothingFinalYet(w: Watch, cycles: seq<Cycle>, k: nat)
    requires w.trace.Opening? && k <= |cycles| && forall j | 0 <= j < k :: !Final(w, cycles, j)
    ensures var t := Before(w, cycles, k).trace;
            && !Ended(t) && Rounds(t) == k
            && Blips(t) == if k > 0 && Fails(Before(w, cycles, k - 1), cycles[k - 1]) then 1 else 0
  {
    if k == 0 {
      assert cycles[..0] == [];
    } else {
      NothingFinalYet(w, cycles, k - 1);
      FinalStep(w, cycles, k - 1);
    }
  }

  lemma FinalStep(w: Watch, cycles: seq<Cycle>, k: nat)
    requires k < |cycles| && var t := Before(w, cycles, k).trace;
             && !Ended(t) && Rounds(t) == k
             && Blips(t) == if k > 0 && Fails(Before(w, cycles, k - 1), cycles[k - 1]) then 1 else 0
    ensures var t := Before(w, cycles, k + 1).trace;
            && (Ended(t) <==> Final(w, cycles, k)) && Rounds(t) == k + 1
            && (!Final(w, cycles, k) ==> Blips(t) == if Fails(Before(w, cycles, k), cycles[k]) then 1 else 0)
  {
    hide Attend, Polls, Fails, Loses;
    assert cycles[..k + 1] == cycles[..k] + [cycles[k]];
    AttendAllSnoc(w, cycles[..k], cycles[k]);
    AttendVerdict(Before(w, cycles, k), cycles[k]);
    FailsConfirmedLoses(Before(w, cycles, k), cycles[k]);
    hide AttendAll;
  }

  lemma FailsConfirmedLoses(w: Watch, c: Cycle)
    ensures Fails(w, c) && c.confirmed ==> Loses(w, c)
  {
  }

  lemma {:induction false} EndedStays(w: Watch, cycles: seq<Cycle>, k: nat)
    requires k <= |cycles| && Ended(Before(w, cycles, k).trace)
    ensures AttendAll(w, cycles) == Before(w, cycles, k)
    decreases |cycles| - k
  {
    hide Attend, Ended;
    if k == |cycles| {
      assert cycles[..k] == cycles;
    } else {
      assert cycles[..k + 1] == cycles[..k] + [cycles[k]];
      AttendAllSnoc(w, cycles[..k], cycles[k]);
      EndedStays(w, cycles, k + 1);
    }
  }

  /** The connection ends exactly at the first cycle in which a disconnect was signalled
      or the link proved gone, or which failed right after another failure. */
  lemma VerdictIsExact(w: Watch, cycles: seq<Cycle>, k: nat)
    requires w.trace.Opening? && k < |cycles|
    requires Final(w, cycles, k) && forall j | 0 <= j < k :: !Final(w, cycles, j)
    ensures var last := AttendAll(w, cycles);
            Ended(last.trace) && Rounds(last.trace) == k + 1 && last == Attend(Before(w, cycles, k), cycles[k])
  {
    hide Final;
    NothingFinalYet(w, cycles, k);
    FinalStep(w, cycles, k);
    EndedStays(w, cycles, k + 1);
    assert cycles[..k + 1] == cycles[..k] + [cycles[k]];
    AttendAllSnoc(w, cycles[..k], cycles[k]);
    hide AttendAll, Attend, Ended, Rounds, Fails, Blips;
  }

  /** Without such a cycle it never ends, however many isolated failures there are. */
  lemma IsolatedFailuresAreHarmless(w: Watch, cycles: seq<Cycle>)
    requires w.trace.Opening? && forall j | 0 <= j < |cycles| :: !Final(w, cycles, j)
    ensures !Ended(AttendAll(w, cycles).trace) && Rounds(AttendAll(w, cycles).trace) == |cycles|
  {
    NothingFinalYet(w, cycles, |cycles|);
    assert cycles[..|cycles|] == cycles;
    hide AttendAll, Ended, Rounds, Final;
  }

  // ---- The liveness cadence -----------------------------------------------

  ghost predicate Prefix(s: Trace, t: Trace) {
    s == t || (t.Round? && Prefix(s, t.past))
  }

  /** Every verified cycle polls, except in confirmed standby, where one polls exactly
      when 120 s of verified cycles have gone by since the last poll. */
  ghost predicate Paced(t: Trace) {
    t.Round? ==>
      && Paced(t.past)
      && t.interval in {HEALTH_CHECK_INTERVAL, STREAMING_HEALTH_CHECK_INTERVAL}
      && (t.polled <==> t.verified && (!t.standby || SincePoll(t.past) + t.interval >= STANDBY_LIVENESS_POLL_INTERVAL))
  }

  lemma {:induction false} AttendPaced(w: Watch, c: Cycle)
    requires Paced(w.trace)
    ensures Paced(Attend(w, c).trace)
  {
  }

  lemma {:induction false} AlwaysPaced(w: Watch, cycles: seq<Cycle>)
    requires Paced(w.trace)
    ensures Paced(AttendAll(w, cycles).trace)
    decreases |cycles|
  {
    hide Attend, Ended, Paced;
    if cycles != [] && !Ended(w.trace) {
      AttendPaced(w, cycles[0]);
      AlwaysPaced(Attend(w, cycles[0]), cycles[1..]);
    }
  }

  lemma {:induction false} PacedPrefix(s: Trace, t: Trace)
    requires Paced(t) && Prefix(s, t)
    ensures Paced(s)
  {
    if s != t {
      PacedPrefix(s, t.past);
    }
  }

  lemma {:induction false} NeverOverdue(t: Trace)
    requires Paced(t)
    ensures SincePoll(t) < STANDBY_LIVENESS_POLL_INTERVAL
  {
    if t.Round? {
      NeverOverdue(t.past);
    }
  }

  /** In confirmed standby, a poll comes 120 to 180 s of verified cycles after the poll
      before it; outside standby every verified cycle polls. */
  lemma StandbyCadence(f: Face, cycles: seq<Cycle>, s: Trace)
    requires Prefix(s, AttendAll(Watch(f, Opening), cycles).trace) && s.Round? && s.verified
    ensures s.standby && s.polled ==>
              STANDBY_LIVENESS_POLL_INTERVAL <= SincePoll(s.past) + s.interval
              < STANDBY_LIVENESS_POLL_INTERVAL + STREAMING_HEALTH_CHECK_INTERVAL
    ensures s.standby && !s.polled ==> SincePoll(s) < STANDBY_LIVENESS_POLL_INTERVAL
    ensures !s.standby ==> s.polled
  {
    var t := AttendAll(Watch(f, Opening), cycles).trace;
    AlwaysPaced(Watch(f, Opening), cycles);
    PacedPrefix(s, t);
    NeverOverdue(s.past);
  }

  /** Seconds of verified cycles since the last poll, told from the cycles. */
  function Unpolled(w: Watch, cycles: seq<Cycle>, n: nat): real
    requires n <= |cycles|
  {
    if n == 0 || PolledAt(w, cycles, n - 1) then 0.0
    else
      Unpolled(w, cycles, n - 1) +
      if cycles[n - 1].drained || !cycles[n - 1].verify.Answered? then 0.0
      else if cycles[n - 1].streaming then 60.0
      else 15.0
  }

  lemma {:induction false} SincePollCounts(w: Watch, cycles: seq<Cycle>, n: nat)
    requires n <= |cycles| && w.trace.Opening? && !Ended(Before(w, cycles, n).trace)
    ensures SincePoll(Before(w, cycles, n).trace) == Unpolled(w, cycles, n)
  {
    if n == 0 {
      BeforeAny(w, cycles);
    } else {
      assert cycles[..n] == cycles[..n - 1] + [cycles[n - 1]];
      AttendAllSnoc(w, cycles[..n - 1], cycles[n - 1]);
      SincePollCounts(w, cycles, n - 1);
      AttendCounts(Before(w, cycles, n - 1), cycles[n - 1]);
      hide AttendAll, Attend, Polls, Ended, SincePoll;
    }
  }

  /** What one cycle adds to the time without a poll, and how long it waits. */
  lemma AttendCounts(w: Watch, c: Cycle)
    ensures Attend(w, c).trace.Round? && Attend(w, c).trace.interval == (if c.streaming then 60.0 else 15.0)
    ensures SincePoll(Attend(w, c).trace) ==
            if Polls(w, c) then 0.0
            else SincePoll(w.trace) + if c.drained || !c.verify.Answered? then 0.0 else if c.streaming then 60.0 else 15.0
  {
    hide Apply, Hear;
  }

  /** Once the link is verified, a poll follows in the same cycle, unless neither probe of
      the last two polls got an answer: then only when 120 s of verified cycles have gone
      by without one. A cycle counts 15 s, or 60 s while audio is streaming. */
  lemma PollsWhenDue(f: Face, s: Session, k: nat)
    requires Coherent(f) && Honest(f.snapshot)
    requires k < |s.Cycles()| && var c := s.Cycles()[k]; !c.drained && c.verify.Answered?
    requires !Ended(Before(Opened(f, s), s.Cycles(), k).trace)
    ensures var w, cycles := Opened(f, s), s.Cycles();
            PolledAt(w, cycles, k) <==>
              || !LastTwoMute(w, cycles, k)
              || Unpolled(w, cycles, k) + (if cycles[k].streaming then 60.0 else 15.0) >= 120.0
  {
    var w := Opened(f, s);
    OpenedFace(f, s);
    MuteTailCounts(w, s.Cycles(), k);
    MuteTailMeaning(w, s.Cycles(), k);
    SincePollCounts(w, s.Cycles(), k);
    hide Before, Opened, LastTwoMute, MuteTail, EverReplied, Unpolled, SincePoll, Coherent, Honest, Ended;
  }

  // ---- A whole connection, and a whole run --------------------------------

  /** What happens while a cycle lasts. */
  function CycleActs(c: Cycle): seq<Act> {
    c.asked + if c.drained then c.waited else Asleep(Interval(c), c.waited) + c.probing
  }

  function Elapsing(acts: seq<Act>): real {
    if acts == [] then 0.0 else (if acts[0].Tick? then acts[0].d else 0.0) + Elapsing(acts[1..])
  }

  lemma {:induction false} ElapsingLasts(w: World, acts: seq<Act>)
    ensures DoAll(w, acts).clock == w.clock + Elapsing(acts)
    decreases |acts|
  {
    hide Held, ManualBusy, ManualCooling;
    if acts != [] {
      ElapsingLasts(Do(w, acts[0]), acts[1..]);
    }
  }

  /** A cycle that no disconnect cuts short waits 15 s, or 60 s while audio is streaming,
      besides what its requests take. */
  lemma CycleLasts(w: World, c: Cycle)
    ensures DoAll(w, CycleActs(c)).clock == w.clock + Elapsing(c.asked) +
            if c.drained then Elapsing(c.waited) else (if c.streaming then 60.0 else 15.0) + Elapsing(c.probing)
  {
    hide DoAll, Elapsing, Asleep;
    var asked := DoAll(w, c.asked);
    ElapsingLasts(w, c.asked);
    if c.drained {
      DoAllAppend(w, c.asked, c.waited);
      ElapsingLasts(asked, c.waited);
    } else {
      var slept := Asleep(Interval(c), c.waited);
      DoAllAppend(w, c.asked, slept + c.probing);
      DoAllAppend(asked, slept, c.probing);
      AsleepLasts(asked, Interval(c), c.waited);
      ElapsingLasts(DoAll(asked, slept), c.probing);
    }
  }

  function Lived(w: Watch, cycles: seq<Cycle>): seq<Act>
    decreases |cycles|
  {
    if cycles == [] || Ended(w.trace) then [] else CycleActs(cycles[0]) + Lived(Attend(w, cycles[0]), cycles[1..])
  }

  /** One connection, from the first reads to the signalled disconnect that ends it if
      nothing else does. */
  datatype Session = Session(
    address: Option<string>,
    firmware: Option<string>,
    capable: bool,
    status: Option<Battery.BatteryStatus>,
    reading: seq<Act>,
    cycles: seq<Cycle>,
    last: seq<Act>)
  {
    function Refresh(): Op {
      Op.Refresh(address, firmware, capable, status)
    }

    function Cycles(): seq<Cycle> {
      cycles + [Cycle([], false, last, true, [], Unanswered, Unanswered, Unanswered, false)]
    }
  }

  /** The watch as a connection begins. */
  function Opened(f: Face, s: Session): Watch {
    Watch(Apply(f, s.Refresh()), Opening)
  }

  function SessionActs(f: Face, s: Session): seq<Act> {
    s.reading + Lived(Opened(f, s), s.Cycles())
  }

  datatype Visit = Visit(turn: Turn, session: Session)

  function Scanned(f: Face, scan: ScanResult): Face {
    if scan.Raised? then f else Apply(f, Beacon(scan.beacon))
  }

  predicate Connects(t: Turn) {
    t.scan.value.Clean? && t.scan.value.found && t.connect.value
  }

  /** The face after one pass of the connect loop. */
  function FacePass(f: Face, v: Visit): Face {
    var f := Scanned(f, v.turn.scan.value);
    if Connects(v.turn) then
      Apply(AttendAll(Opened(f, v.session), v.session.Cycles()).face, GoDark)
    else f
  }

  /** The turn as the recovery history sees it: the session decides what the hold heard. */
  function TurnOf(f: Face, v: Visit): Turn {
    v.turn.(hold := SessionActs(Scanned(f, v.turn.scan.value), v.session))
  }

  function Faces(f: Face, visits: seq<Visit>): Face {
    if visits == [] then f else FacePass(Faces(f, visits[..|visits| - 1]), visits[|visits| - 1])
  }

  function Turns(f: Face, visits: seq<Visit>): seq<Turn> {
    if visits == [] then []
    else
      var init := visits[..|visits| - 1];
      Turns(f, init) + [TurnOf(Faces(f, init), visits[|visits| - 1])]
  }

  // ---- What a connection hears --------------------------------------------

  /** The answers to the liveness polls of these cycles, in order. */
  function Heard(w: Watch, cycles: seq<Cycle>): seq<Answer>
    decreases |cycles|
  {
    if cycles == [] || Ended(w.trace) then []
    else
      (if Polls(w, cycles[0]) && Hear(cycles[0]).Answered? then [Hear(cycles[0]).value] else []) +
      Heard(Attend(w, cycles[0]), cycles[1..])
  }

  lemma AttendFace(w: Watch, c: Cycle)
    ensures Attend(w, c).face ==
            if Polls(w, c) && Hear(c).Answered? then Apply(w.face, Poll(Hear(c).value)) else w.face
  {
    hide Apply, Hear;
  }

  /** What the snapshot makes of a connection is what it makes of the answers heard. */
  lemma {:induction false} FaceOfHeard(w: Watch, cycles: seq<Cycle>)
    ensures AttendAll(w, cycles).face == Polled(w.face, Heard(w, cycles))
    decreases |cycles|
  {
    hide Attend, Ended, Apply, Polls, Hear, Polled;
    if cycles == [] || Ended(w.trace) {
      assert Polled(w.face, []) == w.face by { NothingPolled(w.face); }
    } else {
      var next := Attend(w, cycles[0]);
      AttendFace(w, cycles[0]);
      FaceOfHeard(next, cycles[1..]);
      if Polls(w, cycles[0]) && Hear(cycles[0]).Answered? {
        PolledCons(w.face, Hear(cycles[0]).value, Heard(next, cycles[1..]));
      } else {
        assert [] + Heard(next, cycles[1..]) == Heard(next, cycles[1..]);
      }
    }
  }

  lemma NothingPolled(f: Face)
    ensures Polled(f, []) == f
  {
  }

  /** What a poll hears, from the two probes: the battery's reading if it gave one, else
      whether the firmware answered, and silence only if neither did. A probe that broke
      decides by itself, and a firmware that was never asked decides nothing. */
  lemma HearMeaning(c: Cycle)
    ensures forall status :: Hear(c) == Answered(Charge(status)) <==> c.battery == Answered(Some(status))
    ensures Hear(c) == Answered(Firmware) <==> !BatterySays(c) && c.firmware.Answered?
    ensures Hear(c) == Answered(Silence) <==> Mute(c)
    ensures Hear(c).Broken? <==> c.battery.Broken? || (!BatterySays(c) && c.firmware.Broken?)
    ensures Hear(c).Gone? <==> c.battery.Gone? || (!BatterySays(c) && c.firmware.Gone?)
    ensures !Hear(c).Unanswered?
  {
  }

  /** The battery probe settles the matter: a reading, or a failure of the link. */
  predicate BatterySays(c: Cycle) {
    c.battery.Broken? || c.battery.Gone? || (c.battery.Answered? && c.battery.value.Some?)
  }

  /** Neither probe got an answer. */
  predicate Mute(c: Cycle) {
    (c.battery.Unanswered? || c.battery == Answered(None)) && c.firmware.Unanswered?
  }

  /** One of them did. */
  predicate Replied(c: Cycle) {
    || (c.battery.Answered? && c.battery.value.Some?)
    || ((c.battery.Unanswered? || c.battery == Answered(None)) && c.firmware.Answered?)
  }

  /** Cycle k of the connection came to a poll. */
  predicate PolledAt(w: Watch, cycles: seq<Cycle>, k: nat)
    requires k < |cycles|
  {
    !Ended(Before(w, cycles, k).trace) && Polls(Before(w, cycles, k), cycles[k])
  }

  predicate MuteAt(w: Watch, cycles: seq<Cycle>, k: nat)
    requires k < |cycles|
  {
    PolledAt(w, cycles, k) && Mute(cycles[k])
  }

  predicate RepliedAt(w: Watch, cycles: seq<Cycle>, k: nat)
    requires k < |cycles|
  {
    PolledAt(w, cycles, k) && Replied(cycles[k])
  }

  /** Of the polls of the first n cycles that got through, the last two were mute. */
  ghost predicate LastTwoMute(w: Watch, cycles: seq<Cycle>, n: nat)
    requires n <= |cycles|
  {
    exists i, j | 0 <= i < j < n :: TwoMute(w, cycles, i, j, n)
  }

  ghost predicate TwoMute(w: Watch, cycles: seq<Cycle>, i: nat, j: nat, n: nat)
    requires i < j < n <= |cycles|
  {
    MuteAt(w, cycles, i) && MuteAt(w, cycles, j) && forall m | i < m < n :: !RepliedAt(w, cycles, m)
  }

  ghost predicate EverReplied(w: Watch, cycles: seq<Cycle>, n: nat)
    requires n <= |cycles|
  {
    exists k | 0 <= k < n :: RepliedAt(w, cycles, k)
  }

  /** Mute polls since the last reply. */
  function MuteTail(w: Watch, cycles: seq<Cycle>, n: nat): nat
    requires n <= |cycles|
  {
    if n == 0 || RepliedAt(w, cycles, n - 1) then 0
    else MuteTail(w, cycles, n - 1) + if MuteAt(w, cycles, n - 1) then 1 else 0
  }

  lemma StepsOn(w: Watch, cycles: seq<Cycle>, n: nat)
    requires n < |cycles|
    ensures var was, now := Before(w, cycles, n), Before(w, cycles, n + 1);
            now.face == if MuteAt(w, cycles, n) then Apply(was.face, Poll(Silence))
                        else if RepliedAt(w, cycles, n) then Apply(was.face, Poll(Hear(cycles[n]).value))
                        else was.face
    ensures RepliedAt(w, cycles, n) ==> Hear(cycles[n]).Answered? && Hear(cycles[n]).value != Silence
  {
    hide AttendAll, Attend, Apply, Ended, Polls;
    assert cycles[..n + 1] == cycles[..n] + [cycles[n]];
    AttendAllSnoc(w, cycles[..n], cycles[n]);
    AttendFace(Before(w, cycles, n), cycles[n]);
  }

  /** What a poll makes of an awake flag and a miss count. */
  lemma PollCounts(f: Face, a: Answer)
    ensures var g := Apply(f, Poll(a));
            && g.misses == (if a.Silence? then f.misses + 1 else 0)
            && g.snapshot.speakerAwake == (!a.Silence? || (f.misses < 1 && f.snapshot.speakerAwake))
            && g.snapshot.connected == f.snapshot.connected
            && g.snapshot.address == f.snapshot.address && g.snapshot.firmware == f.snapshot.firmware
            && g.snapshot.hasBattery == (f.snapshot.hasBattery || a.Charge?)
  {
    hide Battery.ChargePercent;
  }

  lemma BeforeAny(w: Watch, cycles: seq<Cycle>)
    ensures Before(w, cycles, 0) == w
  {
    assert cycles[..0] == [];
  }

  lemma {:induction false} MuteTailCounts(w: Watch, cycles: seq<Cycle>, n: nat)
    requires n <= |cycles| && w.face.misses == 0
    ensures var now := Before(w, cycles, n).face;
            && now.misses == MuteTail(w, cycles, n) && now.snapshot.connected == w.face.snapshot.connected
            && now.snapshot.address == w.face.snapshot.address && now.snapshot.firmware == w.face.snapshot.firmware
            && (now.snapshot.speakerAwake <==>
                MuteTail(w, cycles, n) < 2 && (EverReplied(w, cycles, n) || w.face.snapshot.speakerAwake))
  {
    hide Before, Apply, MuteAt, RepliedAt, Hear;
    if n == 0 {
      BeforeAny(w, cycles);
    } else {
      MuteTailCounts(w, cycles, n - 1);
      StepsOn(w, cycles, n - 1);
      var was := Before(w, cycles, n - 1).face;
      PollCounts(was, Silence);
      MuteBefore(w, cycles, n);
      if RepliedAt(w, cycles, n - 1) {
        PollCounts(was, Hear(cycles[n - 1]).value);
      }
      assert EverReplied(w, cycles, n) <==> EverReplied(w, cycles, n - 1) || RepliedAt(w, cycles, n - 1);
    }
  }

  /** A mute poll that comes first leaves the flag as the first reads set it. */
  lemma MuteBefore(w: Watch, cycles: seq<Cycle>, n: nat)
    requires 0 < n <= |cycles|
    ensures MuteAt(w, cycles, n - 1) ==> !RepliedAt(w, cycles, n - 1)
  {
    hide PolledAt;
  }

  lemma {:induction false} MuteTailMeaning(w: Watch, cycles: seq<Cycle>, n: nat)
    requires n <= |cycles|
    ensures MuteTail(w, cycles, n) >= 1 <==> exists i | 0 <= i < n :: LastMute(w, cycles, i, n)
    ensures MuteTail(w, cycles, n) >= 2 <==> LastTwoMute(w, cycles, n)
  {
    hide MuteAt, RepliedAt;
    if n > 0 {
      var k := n - 1;
      MuteTailMeaning(w, cycles, k);
      MuteBefore(w, cycles, n);
      if RepliedAt(w, cycles, k) {
      } else {
        assert forall i | 0 <= i < k :: LastMute(w, cycles, i, k) <==> LastMute(w, cycles, i, n);
        assert forall i, j | 0 <= i < j < k :: TwoMute(w, cycles, i, j, k) <==> TwoMute(w, cycles, i, j, n);
        assert MuteAt(w, cycles, k) <==> LastMute(w, cycles, k, n);
        assert forall i | 0 <= i < k :: TwoMute(w, cycles, i, k, n) <==> LastMute(w, cycles, i, k) && MuteAt(w, cycles, k);
        if MuteTail(w, cycles, n) >= 2 && MuteTail(w, cycles, k) < 2 {
          var i :| 0 <= i < k && LastMute(w, cycles, i, k);
          assert TwoMute(w, cycles, i, k, n);
        }
      }
    }
  }

  ghost predicate LastMute(w: Watch, cycles: seq<Cycle>, i: nat, n: nat)
    requires i < n <= |cycles|
  {
    MuteAt(w, cycles, i) && forall m | i < m < n :: !RepliedAt(w, cycles, m)
  }

  /** After any cycle of any connection: the speaker is shown asleep exactly when neither
      probe of the last two polls got an answer, or nothing was ever answered; and that,
      standby or on, is what the last state event said. Address and firmware are the ones
      the connection began with. */
  lemma AwakeMeaning(f: Face, s: Session, n: nat)
    requires n <= |s.Cycles()| && Coherent(f) && Honest(f.snapshot)
    ensures var w, now := Opened(f, s), Before(Opened(f, s), s.Cycles(), n).face;
            var asleep := LastTwoMute(w, s.Cycles(), n) ||
                          (s.firmware.None? && !(s.capable && s.status.Some?) && !EverReplied(w, s.Cycles(), n));
            && now.snapshot.connected && now.snapshot.address == s.address && now.snapshot.firmware == s.firmware
            && (now.snapshot.speakerAwake <==> !asleep)
            && Replay(now.emitted) == (if asleep then Standby else On)
  {
    var w := Opened(f, s);
    OpenedFace(f, s);
    MuteTailCounts(w, s.Cycles(), n);
    MuteTailMeaning(w, s.Cycles(), n);
    AttendAllTalking(w, s.Cycles()[..n]);
    hide AttendAll, LastTwoMute, EverReplied, MuteTail, NoStutter, Honest, Opened;
  }

  lemma OpenedFace(f: Face, s: Session)
    requires Coherent(f) && Honest(f.snapshot)
    ensures var g := Opened(f, s).face;
            && g.misses == 0 && Talking(g) && g.snapshot.address == s.address && g.snapshot.firmware == s.firmware
            && (g.snapshot.speakerAwake <==> s.firmware.Some? || (s.capable && s.status.Some?))
            && g.snapshot.hasBattery == s.capable
  {
    ApplyKeeps(f, s.Refresh());
    hide Coherent, Honest, Battery.ChargePercent;
  }

  predicate ReadAt(w: Watch, cycles: seq<Cycle>, k: nat)
    requires k < |cycles|
  {
    PolledAt(w, cycles, k) && cycles[k].battery.Answered? && cycles[k].battery.value.Some?
  }

  lemma {:induction false} BatteryMeaning(w: Watch, cycles: seq<Cycle>, n: nat)
    requires n <= |cycles|
    ensures Before(w, cycles, n).face.snapshot.hasBattery <==>
              w.face.snapshot.hasBattery || exists k | 0 <= k < n :: ReadAt(w, cycles, k)
  {
    hide Before, Apply;
    if n == 0 {
      BeforeAny(w, cycles);
    } else {
      BatteryMeaning(w, cycles, n - 1);
      StepsOn(w, cycles, n - 1);
      hide PolledAt;
      var was := Before(w, cycles, n - 1).face;
      PollCounts(was, Silence);
      HearMeaning(cycles[n - 1]);
      if RepliedAt(w, cycles, n - 1) {
        PollCounts(was, Hear(cycles[n - 1]).value);
        assert Hear(cycles[n - 1]).value.Charge? <==> ReadAt(w, cycles, n - 1);
      }
      hide Hear, MuteAt;
      assert ReadAt(w, cycles, n - 1) ==> RepliedAt(w, cycles, n - 1);
    }
  }

  /** A battery is shown as present exactly when one was there from the start or has
      answered a poll. */
  lemma BatteryShown(f: Face, s: Session, n: nat)
    requires n <= |s.Cycles()| && Coherent(f) && Honest(f.snapshot)
    ensures Before(Opened(f, s), s.Cycles(), n).face.snapshot.hasBattery <==>
              s.capable || exists k | 0 <= k < n :: ReadAt(Opened(f, s), s.Cycles(), k)
  {
    OpenedFace(f, s);
    BatteryMeaning(Opened(f, s), s.Cycles(), n);
    hide Before, Opened, ReadAt, Coherent, Honest;
  }

  /** What the first n cycles of a session have heard. */
  function HeardBy(f: Face, s: Session, n: nat): seq<Answer>
    requires n <= |s.Cycles()|
  {
    Heard(Opened(f, s), s.Cycles()[..n])
  }

  /** After any cycle of any connection, the reading shown is the latest one heard, the
      first one included, unless two silences in a row have come since. */
  lemma ReadingMeaning(f: Face, s: Session, n: nat)
    requires n <= |s.Cycles()|
    ensures Before(Opened(f, s), s.Cycles(), n).face.snapshot.batteryStatus ==
            LatestReading(if s.capable then s.status else None, HeardBy(f, s, n))
  {
    FaceOfHeard(Opened(f, s), s.Cycles()[..n]);
    PolledReading(Opened(f, s).face, HeardBy(f, s, n));
    hide AttendAll, Polled, Heard, Silences, LatestReading, Battery.ChargePercent;
  }

  // ---- Every face of a run ------------------------------------------------

  /** What holds of the face at every loop head. */
  ghost predicate Resting(f: Face) {
    Coherent(f) && Honest(f.snapshot) && !f.snapshot.connected
  }

  ghost predicate Talking(f: Face) {
    Coherent(f) && Honest(f.snapshot) && f.snapshot.connected
  }

  lemma AttendTalking(w: Watch, c: Cycle)
    requires Talking(w.face)
    ensures Talking(Attend(w, c).face)
  {
    AttendFace(w, c);
    if Polls(w, c) && Hear(c).Answered? {
      ApplyKeeps(w.face, Poll(Hear(c).value));
    }
    hide Coherent, Honest, Hear, Attend, Polls, Battery.ChargePercent;
  }

  /** The faces shown cycle by cycle. */
  function CycleFaces(w: Watch, cycles: seq<Cycle>): seq<Face>
    decreases |cycles|
  {
    if cycles == [] || Ended(w.trace) then []
    else [Attend(w, cycles[0]).face] + CycleFaces(Attend(w, cycles[0]), cycles[1..])
  }

  /** The faces shown by every snapshot update of a pass, in order. */
  function PassFaces(f: Face, v: Visit): seq<Face> {
    var scanned := Scanned(f, v.turn.scan.value);
    var w := Opened(scanned, v.session);
    [scanned] +
    if Connects(v.turn) then [w.face] + CycleFaces(w, v.session.Cycles()) + [FacePass(f, v)] else []
  }

  /** ... and of a run. */
  function RunFaces(f: Face, visits: seq<Visit>): seq<Face> {
    if visits == [] then [f]
    else
      var init := visits[..|visits| - 1];
      RunFaces(f, init) + PassFaces(Faces(f, init), visits[|visits| - 1])
  }

  ghost predicate True(f: Face) {
    Coherent(f) && Honest(f.snapshot)
  }

  ghost predicate AllTrue(fs: seq<Face>) {
    forall i | 0 <= i < |fs| :: True(fs[i])
  }

  lemma AllTrueAppend(a: seq<Face>, b: seq<Face>)
    requires AllTrue(a) && AllTrue(b)
    ensures AllTrue(a + b)
  {
  }

  lemma {:induction false} AttendAllTalking(w: Watch, cycles: seq<Cycle>)
    requires Talking(w.face)
    ensures Talking(AttendAll(w, cycles).face) && AllTrue(CycleFaces(w, cycles))
    decreases |cycles|
  {
    hide Attend, Ended, Coherent, Honest;
    if cycles != [] && !Ended(w.trace) {
      var next := Attend(w, cycles[0]);
      AttendTalking(w, cycles[0]);
      AttendAllTalking(next, cycles[1..]);
      AllTrueAppend([next.face], CycleFaces(next, cycles[1..]));
    }
  }

  lemma FacePassKeeps(f: Face, v: Visit)
    requires Resting(f)
    ensures Resting(FacePass(f, v)) && AllTrue(PassFaces(f, v))
  {
    var scanned := Scanned(f, v.turn.scan.value);
    if v.turn.scan.value.Clean? {
      ApplyKeeps(f, Beacon(v.turn.scan.value.beacon));
    }
    assert Resting(scanned) by { hide Coherent; }
    if Connects(v.turn) {
      SessionKeeps(scanned, v.session);
      hide Coherent, Honest, AttendAll, CycleFaces;
      var faces := CycleFaces(Opened(scanned, v.session), v.session.Cycles());
      AllTrueAppend([Opened(scanned, v.session).face] + faces, [FacePass(f, v)]);
      AllTrueAppend([scanned], [Opened(scanned, v.session).face] + faces + [FacePass(f, v)]);
    }
    hide Coherent, Honest, AttendAll, CycleFaces;
  }

  lemma SessionKeeps(f: Face, s: Session)
    requires Resting(f)
    ensures var w := Opened(f, s);
            && AllTrue([w.face] + CycleFaces(w, s.Cycles()))
            && Resting(Apply(AttendAll(w, s.Cycles()).face, GoDark))
  {
    var w := Opened(f, s);
    ApplyKeeps(f, s.Refresh());
    assert Talking(w.face) by { hide Coherent, Honest; }
    AttendAllTalking(w, s.Cycles());
    AllTrueAppend([w.face], CycleFaces(w, s.Cycles()));
    ApplyKeeps(AttendAll(w, s.Cycles()).face, GoDark);
    hide Coherent, Honest, AttendAll, CycleFaces;
  }

  /** After every snapshot update of every run: following the events sent so far from
      "off" leads to the state shown, none repeats the one before, and the snapshot is
      honest. At every loop head it is disconnected and blank, and no device is held. */
  lemma {:induction false} EveryFaceIsTrue(cfg: Config, clock: Time, visits: seq<Visit>)
    ensures forall g | g in RunFaces(BLANK, visits) :: Coherent(g) && Honest(g.snapshot)
    ensures Resting(Faces(BLANK, visits))
    ensures !Held(RecoveryHistory.Run(Init(cfg, clock), Turns(BLANK, visits)).h)
  {
    FacesKeep(BLANK, visits);
    RecoveryHistory.RunKeeps(cfg, clock, Turns(BLANK, visits));
    hide Coherent, Honest, Faces, RunFaces, RecoveryHistory.Run, Lawful, Timely, Due, Held;
  }

  lemma {:induction false} FacesKeep(f: Face, visits: seq<Visit>)
    requires Resting(f)
    ensures Resting(Faces(f, visits)) && AllTrue(RunFaces(f, visits))
  {
    if visits != [] {
      var init := visits[..|visits| - 1];
      FacesKeep(f, init);
      FacePassKeeps(Faces(f, init), visits[|visits| - 1]);
      hide Resting, FacePass, PassFaces;
      AllTrueAppend(RunFaces(f, init), PassFaces(Faces(f, init), visits[|visits| - 1]));
    }
  }

  /** The latest visit whose scan did not raise. */
  function LastScanned(visits: seq<Visit>): (last: Option<Visit>)
    ensures last.Some? ==> last.value.turn.scan.value.Clean?
  {
    if visits == [] then None
    else
      var n := |visits| - 1;
      if visits[n].turn.scan.value.Raised? then LastScanned(visits[..n]) else Some(visits[n])
  }

  /** Between connections: "unreachable" is what the last event said exactly when the
      latest scan to complete saw the beacon and no connection came of it, else "off". */
  lemma {:induction false} ShownAtRest(visits: seq<Visit>)
    ensures var last, shown := LastScanned(visits), Replay(Faces(BLANK, visits).emitted);
            && shown in {Off, Unreachable}
            && (shown == Unreachable <==>
                && last.Some? && last.value.turn.scan.value.beacon
                && !(last.value.turn.scan.value.found && last.value.turn.connect.value))
  {
    FacesKeep(BLANK, visits);
    if visits != [] {
      ShownAtRest(visits[..|visits| - 1]);
      FacesKeep(BLANK, visits[..|visits| - 1]);
      AfterVisit(Faces(BLANK, visits[..|visits| - 1]), visits[|visits| - 1]);
    }
    hide FacePass, NoStutter, RunFaces, Honest;
  }

  lemma AfterVisit(f: Face, v: Visit)
    requires Resting(f)
    ensures var shown, scan := FacePass(f, v).snapshot, v.turn.scan.value;
            && (scan.Raised? ==> shown == f.snapshot)
            && (scan.Clean? && scan.found && v.turn.connect.value ==> !shown.connected && !shown.beaconSeen)
            && (scan.Clean? && !(scan.found && v.turn.connect.value) ==> !shown.connected && shown.beaconSeen == scan.beacon)
  {
    hide AttendAll, Opened, NoStutter;
  }

  lemma {:induction false} DoAllAppend(w: World, a: seq<Act>, b: seq<Act>)
    ensures DoAll(w, a + b) == DoAll(DoAll(w, a), b)
    decreases |a|
  {
    hide Do;
    if a == [] {
      assert a + b == b;
    } else {
      assert (a + b)[1..] == a[1..] + b;
      DoAllAppend(Do(w, a[0]), a[1..], b);
    }
  }
}
