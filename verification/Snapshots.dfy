/** What partyboxd shows of the speaker: the status snapshot, and the state-change
    events that announce it. */
module Snapshots {
  import opened Prelude
  import Battery

  const LIVENESS_MISS_LIMIT := 2

  datatype StatusSnapshot = StatusSnapshot(
    connected: bool,
    address: Option<string>,
    firmware: Option<string>,
    battery: Option<int>,
    batteryStatus: Option<Battery.BatteryStatus>,
    hasBattery: bool,
    speakerAwake: bool,
    beaconSeen: bool)
  {
    function SpeakerState(): SpeakerState {
      if !connected then if beaconSeen then Unreachable else Off
      else if !speakerAwake then Standby
      else On
    }
  }

  const DISCONNECTED := StatusSnapshot(false, None, None, None, None, false, true, false)

  /** The snapshot, the liveness probes missed in a row, and every SpeakerStateChanged
      event so far. */
  datatype Face = Face(snapshot: StatusSnapshot, misses: nat, emitted: seq<SpeakerState>)

  const BLANK := Face(DISCONNECTED, 0, [])

  /** What a liveness poll got out of the speaker. */
  datatype Answer = Charge(status: Battery.BatteryStatus) | Firmware | Silence

  datatype Op =
    | Beacon(seen: bool)
    | Refresh(address: Option<string>, firmware: Option<string>, capable: bool, status: Option<Battery.BatteryStatus>)
    | Poll(answer: Answer)
    | GoDark

  function Show(f: Face, s: StatusSnapshot): Face {
    var state := s.SpeakerState();
    f.(snapshot := s, emitted := if state == f.snapshot.SpeakerState() then f.emitted else f.emitted + [state])
  }

  function Percent(status: Option<Battery.BatteryStatus>): Option<int> {
    if status.None? then None else Battery.ChargePercent(status.value)
  }

  /** The snapshot after an answer, with or without a battery reading. */
  function Told(s: StatusSnapshot, status: Option<Battery.BatteryStatus>): StatusSnapshot {
    if status.None? then s.(speakerAwake := true)
    else s.(speakerAwake := true, hasBattery := true, battery := Percent(status), batteryStatus := status)
  }

  function Apply(f: Face, op: Op): Face {
    match op
    case Beacon(seen) => Show(f, f.snapshot.(beaconSeen := seen))
    case Refresh(address, firmware, capable, status) =>
      var status := if capable then status else None;
      Show(f.(misses := 0),
           StatusSnapshot(true, address, firmware, Percent(status), status, capable, firmware.Some? || status.Some?, true))
    case Poll(Silence) =>
      var missed := f.(misses := f.misses + 1);
      if missed.misses < LIVENESS_MISS_LIMIT then missed
      else Show(missed, f.snapshot.(speakerAwake := false, battery := None, batteryStatus := None))
    case Poll(Firmware) => Show(f.(misses := 0), Told(f.snapshot, None))
    case Poll(Charge(status)) => Show(f.(misses := 0), Told(f.snapshot, Some(status)))
    case GoDark => Show(f, DISCONNECTED)
  }

  // ---- What is shown is true, and announced -------------------------------

  /** The state a subscriber arrives at by following the events from "off". */
  function Replay(emitted: seq<SpeakerState>): SpeakerState {
    if emitted == [] then Off else emitted[|emitted| - 1]
  }

  /** Every event is news. */
  ghost predicate NoStutter(emitted: seq<SpeakerState>) {
    forall i | 0 <= i < |emitted| :: emitted[i] != Replay(emitted[..i])
  }

  ghost predicate Coherent(f: Face) {
    Replay(f.emitted) == f.snapshot.SpeakerState() && NoStutter(f.emitted)
  }

  /** Nothing is shown that the speaker did not say: no reading while asleep, the level
      is the reading's own charge percentage, and a disconnected snapshot is blank but
      for the beacon. */
  ghost predicate Honest(s: StatusSnapshot) {
    && (!s.speakerAwake ==> s.batteryStatus.None?)
    && s.battery == (if s.batteryStatus.None? then None else Battery.ChargePercent(s.batteryStatus.value))
    && (s.batteryStatus.Some? ==> s.hasBattery)
    && (!s.connected ==> s == DISCONNECTED.(beaconSeen := s.beaconSeen))
  }

  lemma ShowKeeps(f: Face, s: StatusSnapshot)
    requires Coherent(f)
    ensures Coherent(Show(f, s))
  {
    var e := Show(f, s).emitted;
    forall i | 0 <= i < |e| ensures e[i] != Replay(e[..i]) {
      if i < |f.emitted| {
        assert e[..i] == f.emitted[..i];
        assert f.emitted[i] != Replay(f.emitted[..i]);
      } else {
        assert e[..i] == f.emitted;
      }
    }
  }

  /** Probing only happens on a connection. */
  ghost predicate Possible(f: Face, op: Op) {
    op.Poll? ==> f.snapshot.connected
  }

  /** Following the events always leads to the state shown, no event repeats the one
      before it, and the snapshot stays honest, whatever happens next. */
  lemma ApplyKeeps(f: Face, op: Op)
    requires Coherent(f) && Honest(f.snapshot) && Possible(f, op)
    ensures Coherent(Apply(f, op)) && Honest(Apply(f, op).snapshot)
  {
    hide Coherent, Battery.ChargePercent;
    ShowKeeps(f, Apply(f, op).snapshot);
    var quiet := f.(misses := Apply(f, op).misses);
    SameFace(f, quiet);
    ShowKeeps(quiet, Apply(f, op).snapshot);
  }

  lemma SameFace(f: Face, g: Face)
    requires g == f.(misses := g.misses)
    ensures Coherent(f) <==> Coherent(g)
  {
  }

  // ---- One connection -----------------------------------------------------

  function Polled(f: Face, answers: seq<Answer>): Face {
    if answers == [] then f else Apply(Polled(f, answers[..|answers| - 1]), Poll(answers[|answers| - 1]))
  }

  /** Polls unanswered in a row, ending with the latest. */
  function Silences(answers: seq<Answer>): nat {
    if answers == [] || answers[|answers| - 1] != Silence then 0 else Silences(answers[..|answers| - 1]) + 1
  }

  /** The reading to be shown: the latest one heard, unless two silences in a row have
      come since; before any, the one the connection began with. */
  function LatestReading(first: Option<Battery.BatteryStatus>, answers: seq<Answer>): Option<Battery.BatteryStatus> {
    if answers == [] then first
    else
      var n := |answers| - 1;
      match answers[n]
      case Charge(status) => Some(status)
      case Silence => if n > 0 && answers[n - 1].Silence? then None else LatestReading(first, answers[..n])
      case Firmware => LatestReading(first, answers[..n])
  }

  lemma {:induction false} PolledReading(f: Face, answers: seq<Answer>)
    requires f.misses == 0
    ensures Polled(f, answers).misses == Silences(answers)
    ensures Polled(f, answers).snapshot.batteryStatus == LatestReading(f.snapshot.batteryStatus, answers)
  {
    hide Battery.ChargePercent;
    if answers != [] {
      var before := answers[..|answers| - 1];
      PolledReading(f, before);
      DoubleSilence(f.snapshot.batteryStatus, before);
    }
  }

  /** Two or more silences in a row already blank the reading. */
  lemma DoubleSilence(first: Option<Battery.BatteryStatus>, answers: seq<Answer>)
    ensures Silences(answers) >= 2 ==> LatestReading(first, answers) == None
    ensures Silences(answers) >= 1 <==> answers != [] && answers[|answers| - 1].Silence?
  {
  }

  lemma {:induction false} PolledCons(f: Face, a: Answer, answers: seq<Answer>)
    ensures Polled(f, [a] + answers) == Polled(Apply(f, Poll(a)), answers)
    decreases |answers|
  {
    hide Apply;
    var all := [a] + answers;
    if answers == [] {
      assert all[..0] == [];
    } else {
      var n := |answers| - 1;
      assert all[..|all| - 1] == [a] + answers[..n];
      PolledCons(f, a, answers[..n]);
    }
  }
}
