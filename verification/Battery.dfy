/** The battery message: the commands that ask for it, the TLV payload that
    answers, and the percentage derived from it. */
module Battery {
  import opened Prelude
  import opened Frames

  // ---- Commands -----------------------------------------------------------

  const OPCODE_POWER: Byte := 0x03
  const OPCODE_FIRMWARE_REQUEST: Byte := 0x21
  const OPCODE_FIRMWARE_RESPONSE: Byte := 0x22
  const OPCODE_BATTERY_REQUEST: Byte := 0x9D
  const OPCODE_BATTERY_RESPONSE: Byte := 0x9E
  const PLAYTIME_UNKNOWN := 0xFFFF

  datatype PowerState = On | Off

  /** `BatteryFeature`, in ascending id order. */
  datatype Feature =
    | BatteryId | RemainingPlaytime | TemperatureMax | RemainingCapacity
    | FullChargeCapacity | DesignCapacity | CycleCount | StateOfHealth
    | ChargingState | HealthNotification | TotalPowerOn | TotalPlayback

  function FeatureId(f: Feature): Byte {
    match f
    case BatteryId => 1
    case RemainingPlaytime => 2
    case TemperatureMax => 3
    case RemainingCapacity => 4
    case FullChargeCapacity => 5
    case DesignCapacity => 6
    case CycleCount => 7
    case StateOfHealth => 8
    case ChargingState => 9
    case HealthNotification => 10
    case TotalPowerOn => 11
    case TotalPlayback => 12
  }

  function FeatureOf(id: Byte): Option<Feature> {
    match id
    case 1 => Some(BatteryId)
    case 2 => Some(RemainingPlaytime)
    case 3 => Some(TemperatureMax)
    case 4 => Some(RemainingCapacity)
    case 5 => Some(FullChargeCapacity)
    case 6 => Some(DesignCapacity)
    case 7 => Some(CycleCount)
    case 8 => Some(StateOfHealth)
    case 9 => Some(ChargingState)
    case 10 => Some(HealthNotification)
    case 11 => Some(TotalPowerOn)
    case 12 => Some(TotalPlayback)
    case _ => None
  }

  lemma FeatureIdsInvert(f: Feature, id: Byte)
    ensures FeatureOf(id) == Some(f) <==> id == FeatureId(f)
  {
  }

  datatype Command = Power(state: PowerState) | FirmwareRequest | BatteryRequest(features: seq<Feature>)

  function FeatureIds(features: seq<Feature>): (ids: Bytes)
    ensures |ids| == |features|
  {
    seq(|features|, i requires 0 <= i < |features| => FeatureId(features[i]))
  }

  /** `encode`. A one-byte length cannot describe more than 255 features; Python's
      `bytes` raises there, which None stands for. */
  function Encode(c: Command): Option<Bytes> {
    match c
    case Power(s) => Some([SOF, OPCODE_POWER, 1, if s.On? then 0x05 else 0x04])
    case FirmwareRequest => Some([SOF, OPCODE_FIRMWARE_REQUEST, 0])
    case BatteryRequest(features) =>
      var payload := FeatureIds(features);
      if |payload| > 255 then None else Some([SOF, OPCODE_BATTERY_REQUEST, |payload|] + payload)
  }

  /** A command survives a fresh reassembler untouched, whatever follows it. */
  lemma EncodedIsOneFrame(c: Command, later: Bytes)
    requires Encode(c).Some?
    ensures Parse(Encode(c).value + later) == Parsed([Encode(c).value] + Parse(later).frames, Parse(later).rest)
    ensures c.BatteryRequest? <==> Encode(c).value[1] == OPCODE_BATTERY_REQUEST
    ensures c.BatteryRequest? ==> Encode(c).value[3..] == FeatureIds(c.features)
  {
  }

  /** The speaker's side of it: what the bytes of a command ask for. */
  function Understood(b: Bytes): Option<Command> {
    if b == [0xAA, 0x03, 0x01, 0x05] then Some(Power(PowerState.On))
    else if b == [0xAA, 0x03, 0x01, 0x04] then Some(Power(PowerState.Off))
    else if b == [0xAA, 0x21, 0x00] then Some(FirmwareRequest)
    else if |b| >= 3 && b[0] == 0xAA && b[1] == 0x9D && b[2] as int == |b| - 3 && AllNumbered(b[3..]) then
      Some(BatteryRequest(FeaturesIn(b[3..])))
    else None
  }

  predicate AllNumbered(ids: Bytes) {
    forall i | 0 <= i < |ids| :: 1 <= ids[i] <= 12
  }

  function FeaturesIn(ids: Bytes): seq<Feature>
    requires AllNumbered(ids)
  {
    seq(|ids|, i requires 0 <= i < |ids| => Numbered(ids[i]))
  }

  /** The features in the order of the vendor's numbering. */
  function Numbered(id: Byte): Feature
    requires 1 <= id <= 12
  {
    [BatteryId, RemainingPlaytime, TemperatureMax, RemainingCapacity, FullChargeCapacity, DesignCapacity, CycleCount,
     StateOfHealth, ChargingState, HealthNotification, TotalPowerOn, TotalPlayback][id - 1]
  }

  lemma NumberedInverts(f: Feature)
    ensures 1 <= FeatureId(f) <= 12 && Numbered(FeatureId(f)) == f
  {
  }

  lemma IdsAreNumbered(features: seq<Feature>)
    ensures AllNumbered(FeatureIds(features)) && FeaturesIn(FeatureIds(features)) == features
  {
    hide FeatureId, Numbered;
    forall i | 0 <= i < |features|
      ensures 1 <= FeatureIds(features)[i] <= 12 && Numbered(FeatureIds(features)[i]) == features[i]
    {
      NumberedInverts(features[i]);
    }
  }

  /** The speaker reads every command as it was meant; the only ones that cannot be
      sent name more than 255 features. */
  lemma CommandIsUnderstood(c: Command)
    ensures Encode(c).Some? <==> !(c.BatteryRequest? && |c.features| > 255)
    ensures Encode(c).Some? ==> Understood(Encode(c).value) == Some(c)
  {
    hide FeatureIds, AllNumbered, FeaturesIn;
    if c.BatteryRequest? {
      IdsAreNumbered(c.features);
      hide FeatureId;
      if Encode(c).Some? {
        var b, ids := Encode(c).value, FeatureIds(c.features);
        assert b[0] == 0xAA && b[1] == 0x9D && b[2] as int == |ids| && b[3..] == ids;
        assert b[..] != [0xAA, 0x03, 0x01, 0x05] && b[..] != [0xAA, 0x03, 0x01, 0x04] && b[..] != [0xAA, 0x21, 0x00];
      }
    }
  }

  // ---- TLV ----------------------------------------------------------------

  datatype Field = Field(id: Byte, value: Bytes)

  ghost predicate FieldsOk(fs: seq<Field>) {
    forall i | 0 <= i < |fs| :: |fs[i].value| <= 255
  }

  /** The layout a speaker sends: id, length, value, for each field in turn. */
  function EncodeFields(fs: seq<Field>): Bytes
    requires FieldsOk(fs)
  {
    if fs == [] then [] else [fs[0].id, |fs[0].value|] + (fs[0].value + EncodeFields(fs[1..]))
  }

  /** A payload end that does not hold one whole field. */
  predicate Cut(tail: Bytes) {
    |tail| < 2 || |tail| < 2 + tail[1] as int
  }

  /** The whole fields at the front of a payload. */
  function SplitFields(p: Bytes): (fs: seq<Field>)
    ensures FieldsOk(fs)
    decreases |p|
  {
    if Cut(p) then []
    else
      var n := 2 + p[1] as int;
      [Field(p[0], p[2..n])] + SplitFields(p[n..])
  }

  /** What is left of a payload after its whole fields. */
  function CutTail(p: Bytes): (tail: Bytes)
    ensures Cut(tail)
    decreases |p|
  {
    if Cut(p) then p else CutTail(p[2 + p[1] as int..])
  }

  lemma SplitHead(f: Field, more: Bytes)
    requires |f.value| <= 255
    ensures var p := [f.id, |f.value|] + (f.value + more);
            SplitFields(p) == [f] + SplitFields(more) && CutTail(p) == CutTail(more) && !Cut(p)
  {
    var p := [f.id, |f.value|] + (f.value + more);
    var n := 2 + |f.value|;
    assert p[2..n] == f.value && p[n..] == more;
  }

  /** Splitting undoes encoding, whatever cut field trails behind. */
  lemma {:induction false} SplitOfEncode(fs: seq<Field>, tail: Bytes)
    requires FieldsOk(fs) && Cut(tail)
    ensures SplitFields(EncodeFields(fs) + tail) == fs && CutTail(EncodeFields(fs) + tail) == tail
  {
    hide SplitFields, CutTail;
    if fs == [] {
      assert EncodeFields(fs) + tail == tail;
      SplitCut(tail);
    } else {
      var f, more := fs[0], EncodeFields(fs[1..]);
      assert EncodeFields(fs) + tail == [f.id, |f.value|] + (f.value + (more + tail));
      SplitHead(f, more + tail);
      SplitOfEncode(fs[1..], tail);
      assert [f] + fs[1..] == fs;
    }
  }

  lemma SplitCut(tail: Bytes)
    requires Cut(tail)
    ensures SplitFields(tail) == [] && CutTail(tail) == tail
  {
  }

  /** Encoding undoes splitting: no payload byte is lost but the cut tail. */
  lemma {:induction false} EncodeOfSplit(p: Bytes)
    ensures EncodeFields(SplitFields(p)) + CutTail(p) == p
    decreases |p|
  {
    hide SplitFields, CutTail;
    if Cut(p) {
      SplitCut(p);
    } else {
      var n := 2 + p[1] as int;
      var f, more := Field(p[0], p[2..n]), p[n..];
      assert p == [f.id, |f.value|] + (f.value + more);
      SplitHead(f, more);
      EncodeOfSplit(more);
      var fs := SplitFields(more);
      assert ([f] + fs)[1..] == fs;
      assert EncodeFields([f] + fs) == [f.id, |f.value|] + (f.value + EncodeFields(fs));
    }
  }

  // ---- Last value of each known feature -----------------------------------

  type Readings = map<Feature, Bytes>

  function Store(r: Readings, f: Field): Readings {
    match FeatureOf(f.id)
    case Some(known) => r[known := f.value]
    case None => r
  }

  function LastValues(fs: seq<Field>): Readings {
    if fs == [] then map[] else Store(LastValues(fs[..|fs| - 1]), fs[|fs| - 1])
  }

  ghost predicate IsLast(fs: seq<Field>, feature: Feature, i: int) {
    && 0 <= i < |fs| && fs[i].id == FeatureId(feature)
    && forall j | i < j < |fs| :: fs[j].id != FeatureId(feature)
  }

  /** The last field that carries a feature's id decides its value... */
  lemma {:induction false} LastFieldDecides(fs: seq<Field>, feature: Feature, i: nat)
    requires IsLast(fs, feature, i)
    ensures feature in LastValues(fs) && LastValues(fs)[feature] == fs[i].value
  {
    var n := |fs| - 1;
    FeatureIdsInvert(feature, fs[n].id);
    if i < n {
      LastFieldDecides(fs[..n], feature, i);
    }
  }

  /** ...and nothing else leaves a trace: a feature that is read has such a field. */
  lemma {:induction false} ReadFeatureHasField(fs: seq<Field>, feature: Feature) returns (i: nat)
    requires feature in LastValues(fs)
    ensures IsLast(fs, feature, i)
  {
    var n := |fs| - 1;
    FeatureIdsInvert(feature, fs[n].id);
    if fs[n].id == FeatureId(feature) {
      i := n;
    } else {
      i := ReadFeatureHasField(fs[..n], feature);
    }
  }

  /** The same, storing from the front on top of earlier readings. */
  function StoreAll(r: Readings, fs: seq<Field>): Readings
    decreases |fs|
  {
    if fs == [] then r else StoreAll(Store(r, fs[0]), fs[1..])
  }

  lemma {:induction false} StoreAllSnoc(r: Readings, fs: seq<Field>, f: Field)
    ensures StoreAll(r, fs + [f]) == Store(StoreAll(r, fs), f)
    decreases |fs|
  {
    hide Store;
    if fs == [] {
      assert [] + [f] == [f];
    } else {
      assert (fs + [f])[1..] == fs[1..] + [f];
      StoreAllSnoc(Store(r, fs[0]), fs[1..], f);
    }
  }

  lemma {:induction false} StoreAllIsLast(fs: seq<Field>)
    ensures StoreAll(map[], fs) == LastValues(fs)
  {
    if fs != [] {
      var n := |fs| - 1;
      StoreAllIsLast(fs[..n]);
      StoreAllSnoc(map[], fs[..n], fs[n]);
      assert fs == fs[..n] + [fs[n]];
    }
  }

  /** Reading one more whole field, or finding none. */
  lemma DecodeStep(p: Bytes, r: Readings)
    ensures StoreAll(r, SplitFields(p)) ==
            if Cut(p) then r
            else
              var n := 2 + p[1] as int;
              StoreAll(Store(r, Field(p[0], p[2..n])), SplitFields(p[n..]))
  {
    hide Store;
    if !Cut(p) {
      var n := 2 + p[1] as int;
      assert ([Field(p[0], p[2..n])] + SplitFields(p[n..]))[1..] == SplitFields(p[n..]);
    }
  }

  /** The same, i bytes into a payload. */
  lemma DecodeAt(payload: Bytes, i: nat, r: Readings)
    requires i <= |payload|
    ensures var rest := StoreAll(r, SplitFields(payload[i..]));
            if i + 2 <= |payload| && i + 2 + payload[i + 1] as int <= |payload| then
              var end := i + 2 + payload[i + 1] as int;
              rest == StoreAll(Store(r, Field(payload[i], payload[i + 2..end])), SplitFields(payload[end..]))
            else rest == r
  {
    hide StoreAll, SplitFields, Store;
    var p := payload[i..];
    DecodeStep(p, r);
    if !Cut(p) {
      var n := 2 + p[1] as int;
      assert p[2..n] == payload[i + 2..i + n];
      assert p[n..] == payload[i + n..];
    }
  }

  /** `_decode_battery`'s loop over the payload. */
  method DecodeFields(payload: Bytes) returns (fields: Readings)
    ensures fields == LastValues(SplitFields(payload))
  {
    fields := map[];
    var i := 0;
    assert payload[0..] == payload;
    StoreAllIsLast(SplitFields(payload));
    hide LastValues, SplitFields, FeatureOf, StoreAll;
    ghost var all := LastValues(SplitFields(payload));
    while i + 2 <= |payload|
      invariant 0 <= i <= |payload|
      invariant StoreAll(fields, SplitFields(payload[i..])) == all
      decreases |payload| - i
    {
      DecodeAt(payload, i, fields);
      var id, len := payload[i], payload[i + 1] as int;
      if |payload| < i + 2 + len {
        break;
      }
      var value := payload[i + 2..i + 2 + len];
      i := i + 2 + len;
      match FeatureOf(id) {
        case Some(known) => fields := fields[known := value];
        case None =>
      }
    }
    DecodeAt(payload, i, fields);
  }

  // ---- Little-endian numbers ----------------------------------------------

  function FromLittle(b: Bytes): (n: nat) {
    if b == [] then 0 else b[0] as int + 256 * FromLittle(b[1..])
  }

  function ToLittle(n: nat, width: nat): (b: Bytes)
    ensures |b| == width
  {
    if width == 0 then [] else [n % 256] + ToLittle(n / 256, width - 1)
  }

  function Pow256(k: nat): (p: nat)
    ensures p > 0
  {
    if k == 0 then 1 else 256 * Pow256(k - 1)
  }

  lemma {:induction false} FromOfTo(n: nat, width: nat)
    requires n < Pow256(width)
    ensures FromLittle(ToLittle(n, width)) == n
  {
    if width > 0 {
      FromOfTo(n / 256, width - 1);
      assert ToLittle(n, width)[1..] == ToLittle(n / 256, width - 1);
    }
  }

  lemma {:induction false} ToOfFrom(b: Bytes)
    ensures FromLittle(b) < Pow256(|b|) && ToLittle(FromLittle(b), |b|) == b
  {
    if b != [] {
      ToOfFrom(b[1..]);
      assert b == [b[0]] + b[1..];
      var m := FromLittle(b);
      assert m % 256 == b[0] && m / 256 == FromLittle(b[1..]);
    }
  }

  /** A value of `width` bytes reads back as itself, and every value is the
      encoding of the number it reads as. */
  lemma LittleRoundTrip(n: nat, b: Bytes)
    ensures n < Pow256(|b|) ==> FromLittle(ToLittle(n, |b|)) == n
    ensures FromLittle(b) < Pow256(|b|) && ToLittle(FromLittle(b), |b|) == b
  {
    hide FromLittle, ToLittle, Pow256;
    if n < Pow256(|b|) {
      FromOfTo(n, |b|);
    }
    ToOfFrom(b);
  }

  /** The i-th byte counts 256^i. */
  function Weighed(b: Bytes): nat {
    if b == [] then 0
    else
      var k := |b| - 1;
      var weight: nat := b[k] as int * Pow256(k);
      Weighed(b[..k]) + weight
  }

  lemma {:induction false} LittleIsWeighed(b: Bytes)
    ensures FromLittle(b) == Weighed(b)
  {
    if b != [] {
      LittleIsWeighed(b[..|b| - 1]);
      LittleSnoc(b[..|b| - 1], b[|b| - 1]);
      assert b == b[..|b| - 1] + [b[|b| - 1]];
    }
  }

  lemma {:induction false} LittleSnoc(b: Bytes, x: Byte)
    ensures FromLittle(b + [x]) == FromLittle(b) + x as int * Pow256(|b|)
  {
    if b != [] {
      assert (b + [x])[1..] == b[1..] + [x];
      LittleSnoc(b[1..], x);
      var w := x as int * Pow256(|b| - 1);
      assert x as int * Pow256(|b|) == 256 * w;
    }
  }

  // ---- The response -------------------------------------------------------

  datatype Charging = Charging | Discharging | Full {
    predicate OnMains() {
      Charging? || Full?
    }
  }

  function ChargingOf(raw: int): Option<Charging> {
    if raw == 1 then Some(Charging.Charging)
    else if raw == 2 then Some(Discharging)
    else if raw == 3 then Some(Full)
    else None
  }

  datatype BatteryStatus = BatteryStatus(
    batteryId: Option<string>,
    playtime: Option<nat>,
    temperatureMax: Option<nat>,
    remaining: Option<nat>,
    fullCharge: Option<nat>,
    design: Option<nat>,
    cycles: Option<nat>,
    health: Option<nat>,
    charging: Option<Charging>,
    powerOnMinutes: Option<nat>,
    playbackMinutes: Option<nat>)

  function Num(r: Readings, f: Feature): Option<nat> {
    if f in r then Some(FromLittle(r[f])) else None
  }

  /** ASCII up to the first NUL; any other byte becomes the replacement character. */
  function Text(b: Bytes): string {
    if b == [] || b[0] == 0 then ""
    else [if b[0] < 128 then b[0] as char else '\U{FFFD}'] + Text(b[1..])
  }

  function StatusOf(r: Readings): BatteryStatus {
    var playtime := Num(r, RemainingPlaytime);
    var charging := Num(r, ChargingState);
    BatteryStatus(
      if BatteryId in r && r[BatteryId] != [] then Some(Text(r[BatteryId])) else None,
      if playtime == Some(PLAYTIME_UNKNOWN) then None else playtime,
      Num(r, TemperatureMax),
      Num(r, RemainingCapacity),
      Num(r, FullChargeCapacity),
      Num(r, DesignCapacity),
      Num(r, CycleCount),
      Num(r, StateOfHealth),
      if charging.Some? then ChargingOf(charging.value) else None,
      Num(r, TotalPowerOn),
      Num(r, TotalPlayback))
  }

  datatype Message = Firmware(major: Byte, minor: Byte, patch: Byte) | Battery(status: BatteryStatus)

  /** `decode`. */
  function Decode(raw: Bytes): Option<Message> {
    if |raw| < 3 || raw[0] != SOF then None
    else
      var end := if |raw| < Declared(raw) then |raw| else Declared(raw);
      var payload := raw[3..end];
      if raw[1] == OPCODE_FIRMWARE_RESPONSE && |payload| >= 3 then
        Some(Firmware(payload[0], payload[1], payload[2]))
      else if raw[1] == OPCODE_BATTERY_RESPONSE then
        Some(Battery(StatusOf(LastValues(SplitFields(payload)))))
      else None
  }

  function BatteryFrame(fs: seq<Field>): Bytes
    requires FieldsOk(fs) && |EncodeFields(fs)| <= 255
  {
    [SOF, OPCODE_BATTERY_RESPONSE, |EncodeFields(fs)|] + EncodeFields(fs)
  }

  /** Fields that fit whole into the first `room` bytes of a payload. */
  function Fit(fs: seq<Field>, room: nat): (n: nat)
    ensures n <= |fs|
  {
    if fs == [] || room < 2 + |fs[0].value| then 0
    else 1 + Fit(fs[1..], room - 2 - |fs[0].value|)
  }

  /** Cutting an encoded field list keeps exactly the fields that end before the cut. */
  lemma {:induction false} SplitOfPrefix(fs: seq<Field>, room: nat)
    requires FieldsOk(fs) && room <= |EncodeFields(fs)|
    ensures SplitFields(EncodeFields(fs)[..room]) == fs[..Fit(fs, room)]
  {
    hide SplitFields, CutTail;
    if fs == [] {
      SplitCut([]);
    } else {
      var f, more := fs[0], EncodeFields(fs[1..]);
      var p := EncodeFields(fs)[..room];
      var n := 2 + |f.value|;
      if room < n {
        SplitCut(p);
      } else {
        assert p == [f.id, |f.value|] + (f.value + more[..room - n]);
        SplitHead(f, more[..room - n]);
        SplitOfPrefix(fs[1..], room - n);
        assert [f] + fs[1..][..Fit(fs[1..], room - n)] == fs[..Fit(fs, room)];
      }
    }
  }

  /** A battery frame, whole or cut anywhere after its header, decodes to the last
      value of each known feature among the fields that arrived whole. */
  lemma DecodeOfBatteryFrame(fs: seq<Field>, end: nat)
    requires FieldsOk(fs) && |EncodeFields(fs)| <= 255
    requires 3 <= end <= |BatteryFrame(fs)|
    ensures Decode(BatteryFrame(fs)[..end]) == Some(Battery(StatusOf(LastValues(fs[..Fit(fs, end - 3)]))))
    ensures end == |BatteryFrame(fs)| ==> Fit(fs, end - 3) == |fs|
  {
    hide SplitFields, LastValues, StatusOf;
    var raw, payload := BatteryFrame(fs)[..end], EncodeFields(fs);
    assert BatteryFrame(fs)[3..] == payload;
    assert raw[3..end] == payload[..end - 3];
    SplitOfPrefix(fs, end - 3);
    FitAll(fs);
  }

  lemma {:induction false} FitAll(fs: seq<Field>)
    requires FieldsOk(fs)
    ensures Fit(fs, |EncodeFields(fs)|) == |fs|
  {
    if fs != [] {
      FitAll(fs[1..]);
    }
  }

  // ---- What a decoded status says, field by field --------------------------

  ghost predicate LastWith(fs: seq<Field>, id: Byte, i: int) {
    0 <= i < |fs| && fs[i].id == id && forall j | i < j < |fs| :: fs[j].id != id
  }

  /** The number that the last field with this id spells in little-endian bytes; none if
      there is no such field. */
  ghost predicate Carries(fs: seq<Field>, id: Byte, n: Option<nat>) {
    if n.None? then forall i | 0 <= i < |fs| :: fs[i].id != id
    else exists i :: LastWith(fs, id, i) && n.value == Weighed(fs[i].value)
  }

  ghost predicate CarriesText(fs: seq<Field>, id: Byte, t: Option<string>) {
    if t.None? then forall i :: LastWith(fs, id, i) ==> fs[i].value == []
    else exists i :: LastWith(fs, id, i) && fs[i].value != [] && Spells(fs[i].value, t.value)
  }

  /** ASCII up to the first NUL, anything else replaced. */
  ghost predicate Spells(b: Bytes, t: string) {
    && |t| <= |b| && (|t| < |b| ==> b[|t|] == 0)
    && forall i | 0 <= i < |t| :: b[i] != 0 && t[i] == if b[i] < 128 then b[i] as char else '\U{FFFD}'
  }

  /** The vendor's numbering of the fields, and what three of them mean. */
  ghost predicate Reads(fs: seq<Field>, s: BatteryStatus) {
    && CarriesText(fs, 1, s.batteryId)
    && CarriesPlaytime(fs, s.playtime)
    && Carries(fs, 3, s.temperatureMax)
    && Carries(fs, 4, s.remaining)
    && Carries(fs, 5, s.fullCharge)
    && Carries(fs, 6, s.design)
    && Carries(fs, 7, s.cycles)
    && Carries(fs, 8, s.health)
    && CarriesCharging(fs, s.charging)
    && Carries(fs, 11, s.powerOnMinutes)
    && Carries(fs, 12, s.playbackMinutes)
  }

  ghost predicate CarriesPlaytime(fs: seq<Field>, playtime: Option<nat>) {
    exists raw :: Carries(fs, 2, raw) && playtime == if raw == Some(0xFFFF) then None else raw
  }

  ghost predicate CarriesCharging(fs: seq<Field>, charging: Option<Charging>) {
    exists raw :: Carries(fs, 9, raw) && ChargingMeans(raw, charging)
  }

  ghost predicate ChargingMeans(raw: Option<nat>, c: Option<Charging>) {
    && (raw == Some(1) <==> c.Some? && c.value.Charging?)
    && (raw == Some(2) <==> c.Some? && c.value.Discharging?)
    && (raw == Some(3) <==> c.Some? && c.value.Full?)
    && (c.Some? ==> (c.value.OnMains() <==> raw in {Some(1), Some(3)}))
  }

  lemma {:induction false} TextSpells(b: Bytes)
    ensures Spells(b, Text(b))
  {
    if b != [] && b[0] != 0 {
      TextSpells(b[1..]);
      assert forall i | 1 <= i < |Text(b)| :: b[i] == b[1..][i - 1] && Text(b)[i] == Text(b[1..])[i - 1];
    }
  }

  lemma NumCarries(fs: seq<Field>, f: Feature, id: Byte)
    requires id == FeatureId(f)
    ensures Carries(fs, id, Num(LastValues(fs), f))
  {
    hide LastValues, FeatureId, Weighed, FromLittle;
    var n := Num(LastValues(fs), f);
    if n.Some? {
      var i := ReadFeatureHasField(fs, f);
      LastFieldDecides(fs, f, i);
      LittleIsWeighed(fs[i].value);
      assert LastWith(fs, id, i);
    } else if exists i :: 0 <= i < |fs| && fs[i].id == id {
      var i := LatestWith(fs, id);
      LastFieldDecides(fs, f, i);
    }
  }

  lemma {:induction false} LatestWith(fs: seq<Field>, id: Byte) returns (i: nat)
    requires exists i :: 0 <= i < |fs| && fs[i].id == id
    ensures LastWith(fs, id, i)
  {
    var n := |fs| - 1;
    if fs[n].id == id {
      i := n;
    } else {
      var k :| 0 <= k < |fs| && fs[k].id == id;
      assert fs[..n][k].id == id;
      i := LatestWith(fs[..n], id);
    }
  }

  lemma TextCarries(fs: seq<Field>, t: Option<string>)
    requires var r := LastValues(fs); t == if BatteryId in r && r[BatteryId] != [] then Some(Text(r[BatteryId])) else None
    ensures CarriesText(fs, 1, t)
  {
    hide LastValues, Text, Spells;
    if BatteryId in LastValues(fs) {
      var i := ReadFeatureHasField(fs, BatteryId);
      LastFieldDecides(fs, BatteryId, i);
      TextSpells(fs[i].value);
      assert LastWith(fs, 1, i);
    } else if i :| LastWith(fs, 1, i) {
      LastFieldDecides(fs, BatteryId, i);
    }
  }

  lemma PlaytimeAndChargingRead(fs: seq<Field>)
    ensures var s := StatusOf(LastValues(fs)); CarriesPlaytime(fs, s.playtime) && CarriesCharging(fs, s.charging)
  {
    var r := LastValues(fs);
    NumCarries(fs, RemainingPlaytime, 2);
    NumCarries(fs, ChargingState, 9);
    hide Carries, LastValues, Num, Text;
    var playtime, charging := Num(r, RemainingPlaytime), Num(r, ChargingState);
    assert Carries(fs, 2, playtime) && Carries(fs, 9, charging);
  }

  lemma StatusReads(fs: seq<Field>)
    ensures Reads(fs, StatusOf(LastValues(fs)))
  {
    hide Carries, CarriesText, CarriesPlaytime, CarriesCharging, LastValues, Num, Text;
    TextCarries(fs, StatusOf(LastValues(fs)).batteryId);
    PlaytimeAndChargingRead(fs);
    NumCarries(fs, TemperatureMax, 3);
    NumCarries(fs, RemainingCapacity, 4);
    NumCarries(fs, FullChargeCapacity, 5);
    NumCarries(fs, DesignCapacity, 6);
    NumCarries(fs, CycleCount, 7);
    NumCarries(fs, StateOfHealth, 8);
    NumCarries(fs, TotalPowerOn, 11);
    NumCarries(fs, TotalPlayback, 12);
  }

  predicate IsBatteryFrame(raw: Bytes) {
    |raw| >= 3 && raw[0] == 0xAA && raw[1] == 0x9E
  }

  /** The whole fields in a frame, of those its length byte admits. */
  function FieldsOf(raw: Bytes): seq<Field>
    requires |raw| >= 3
  {
    SplitFields(raw[3..if |raw| < 3 + raw[2] as int then |raw| else 3 + raw[2] as int])
  }

  /** A frame decodes to a battery status exactly when it has the battery header, and
      then each component is what its own fields say. */
  lemma DecodeMeaning(raw: Bytes)
    ensures IsBatteryFrame(raw) <==> Decode(raw).Some? && Decode(raw).value.Battery?
    ensures IsBatteryFrame(raw) ==> Reads(FieldsOf(raw), Decode(raw).value.status)
    ensures Decode(raw).Some? && Decode(raw).value.Firmware? <==>
              |raw| >= 6 && raw[0] == 0xAA && raw[1] == 0x22 && raw[2] >= 3
    ensures Decode(raw).Some? && Decode(raw).value.Firmware? ==> Decode(raw).value == Firmware(raw[3], raw[4], raw[5])
  {
    hide SplitFields, LastValues, StatusOf, Reads;
    if IsBatteryFrame(raw) {
      StatusReads(FieldsOf(raw));
    }
  }

  /** The fields a speaker sends in a frame, cut anywhere after its header, are what
      the decoded status reads, as far as they arrived whole. */
  lemma DecodedStatus(fs: seq<Field>, end: nat)
    requires FieldsOk(fs) && |EncodeFields(fs)| <= 255
    requires 3 <= end <= |BatteryFrame(fs)|
    ensures var m := Decode(BatteryFrame(fs)[..end]);
            m.Some? && m.value.Battery? && Reads(fs[..Fit(fs, end - 3)], m.value.status)
  {
    DecodeOfBatteryFrame(fs, end);
    hide Decode, LastValues, StatusOf, Reads;
    StatusReads(fs[..Fit(fs, end - 3)]);
  }

  /** The level shown is the remaining charge over the full capacity, from fields 4 and 5. */
  lemma DecodedLevel(fs: seq<Field>, s: BatteryStatus, i: int, j: int)
    requires Reads(fs, s) && LastWith(fs, 4, i) && LastWith(fs, 5, j)
    ensures var r, f := Weighed(fs[i].value), Weighed(fs[j].value);
            if f == 0 then ChargePercent(s) == None
            else
              && ChargePercent(s).Some? && 0 <= ChargePercent(s).value <= 100
              && (if r <= f then Nearest(100 * r, f, ChargePercent(s).value) else ChargePercent(s) == Some(100))
  {
    hide Weighed, CarriesText, CarriesPlaytime, CarriesCharging;
    var r, f := Weighed(fs[i].value), Weighed(fs[j].value);
    assert s.remaining == Some(r) && s.fullCharge == Some(f);
    if f > 0 {
      PercentAccuracy(r, f);
      hide Percent, Nearest;
    }
  }

  /** Without both fields no level is shown. */
  lemma NoLevel(fs: seq<Field>, s: BatteryStatus)
    requires Reads(fs, s)
    requires (forall i | 0 <= i < |fs| :: fs[i].id != 4) || (forall i | 0 <= i < |fs| :: fs[i].id != 5)
    ensures ChargePercent(s) == None
  {
    hide CarriesText, CarriesPlaytime, CarriesCharging;
  }

  // ---- Reading a status off a fragmented link -----------------------------

  function FirstBattery(frames: seq<Bytes>): Option<BatteryStatus> {
    if frames == [] then None
    else
      match Decode(frames[0])
      case Some(Battery(status)) => Some(status)
      case _ => FirstBattery(frames[1..])
  }

  lemma {:induction false} FirstBatteryAppend(a: seq<Bytes>, b: seq<Bytes>)
    ensures FirstBattery(a + b) == if FirstBattery(a).Some? then FirstBattery(a) else FirstBattery(b)
  {
    hide Decode;
    if a == [] {
      assert a + b == b;
    } else {
      assert (a + b)[1..] == a[1..] + b;
      FirstBatteryAppend(a[1..], b);
    }
  }

  ghost predicate IsFirstBattery(frames: seq<Bytes>, i: int) {
    0 <= i < |frames| && IsBatteryFrame(frames[i]) && forall j | 0 <= j < i :: !IsBatteryFrame(frames[j])
  }

  /** What these frames answer: the fields of the first battery frame, if there is one. */
  ghost predicate Answers(frames: seq<Bytes>, r: Option<BatteryStatus>) {
    if r.None? then forall i | 0 <= i < |frames| :: !IsBatteryFrame(frames[i])
    else exists i :: IsFirstBattery(frames, i) && Reads(FieldsOf(frames[i]), r.value)
  }

  lemma {:induction false} FirstBatteryAnswers(frames: seq<Bytes>)
    ensures Answers(frames, FirstBattery(frames))
  {
    hide Decode, Reads, SplitFields;
    if frames != [] {
      DecodeMeaning(frames[0]);
      var r := FirstBattery(frames);
      if IsBatteryFrame(frames[0]) {
        assert IsFirstBattery(frames, 0);
      } else {
        var rest := frames[1..];
        FirstBatteryAnswers(rest);
        assert r == FirstBattery(rest);
        if r.Some? {
          var i :| IsFirstBattery(rest, i) && Reads(FieldsOf(rest[i]), r.value);
          assert IsFirstBattery(frames, i + 1) && frames[i + 1] == rest[i];
        }
      }
    }
  }

  /** `BatteryCapability.status` over the notifications received before its
      deadline: None is its TimeoutError. The answer depends on the bytes alone,
      not on how the link cut them. */
  method Status(arrivals: seq<Bytes>) returns (r: Option<BatteryStatus>)
    ensures r == FirstBattery(Parse(Concat(arrivals)).frames) && Answers(Parse(Concat(arrivals)).frames, r)
  {
    hide Decode, Parse, FindSof, Answers;
    FirstBatteryAnswers(Parse(Concat(arrivals)).frames);
    var reassembler := new FrameReassembler();
    ghost var frames: seq<Bytes> := [];
    assert Parse([]) == Parsed([], []) by { ParsePending([]); }
    for i := 0 to |arrivals|
      invariant Parsed(frames, reassembler.buffer) == Parse(Concat(arrivals[..i]))
      invariant FirstBattery(frames).None?
    {
      ghost var sofar := Concat(arrivals[..i]);
      assert arrivals[..i + 1][..i] == arrivals[..i];
      ParseCut(sofar, arrivals[i]);
      var more := reassembler.Push(arrivals[i]);
      ghost var before := frames;
      frames := frames + more;
      r := PickBattery(more);
      FirstBatteryAppend(before, more);
      if r.Some? {
        StatusIsStable(arrivals, i + 1);
        return;
      }
    }
    assert arrivals[..|arrivals|] == arrivals;
    r := None;
  }

  method PickBattery(frames: seq<Bytes>) returns (r: Option<BatteryStatus>)
    ensures r == FirstBattery(frames)
  {
    hide Decode;
    for i := 0 to |frames|
      invariant FirstBattery(frames) == FirstBattery(frames[i..])
    {
      var response := Decode(frames[i]);
      match response {
        case Some(Battery(status)) => return Some(status);
        case _ =>
      }
      assert frames[i..][1..] == frames[i + 1..];
    }
    r := None;
  }

  /** Once a battery frame has arrived, later notifications cannot change the answer. */
  lemma {:induction false} StatusIsStable(arrivals: seq<Bytes>, n: nat)
    requires n <= |arrivals|
    requires FirstBattery(Parse(Concat(arrivals[..n])).frames).Some?
    ensures FirstBattery(Parse(Concat(arrivals)).frames) == FirstBattery(Parse(Concat(arrivals[..n])).frames)
    decreases |arrivals|
  {
    hide Decode, Parse, FindSof;
    if n == |arrivals| {
      assert arrivals[..n] == arrivals;
    } else {
      var init, last := arrivals[..|arrivals| - 1], arrivals[|arrivals| - 1];
      assert init[..n] == arrivals[..n];
      StatusIsStable(init, n);
      ParseCut(Concat(init), last);
      FirstBatteryAppend(Parse(Concat(init)).frames, Parse(Parse(Concat(init)).rest + last).frames);
    }
  }

  // ---- The derived percentage ---------------------------------------------

  /** Python's `round` of the quotient a/b: to nearest, ties to even. */
  function RoundHalfEven(a: int, b: int): int
    requires b > 0
  {
    var q, r := a / b, a % b;
    if 2 * r < b || (2 * r == b && q % 2 == 0) then q else q + 1
  }

  function Clamp(n: int): int {
    if n < 0 then 0 else if n > 100 then 100 else n
  }

  function Percent(r: int, f: int): (pct: int)
    requires f > 0
    ensures 0 <= pct <= 100
  {
    Clamp(RoundHalfEven(100 * r, f))
  }

  /** `charge_percent`. */
  function ChargePercent(s: BatteryStatus): Option<int> {
    if s.remaining.None? || s.fullCharge.None? || s.fullCharge.value == 0 then None
    else Some(Percent(s.remaining.value, s.fullCharge.value))
  }

  /** n is a nearest integer to a/b, and the even one of two equally near. */
  ghost predicate Nearest(a: int, b: int, n: int) {
    var twice := 2 * (a - n * b);
    -b <= twice <= b && (twice in {-b, b} ==> n % 2 == 0)
  }

  lemma RoundIsNearest(a: int, b: int)
    requires b > 0
    ensures Nearest(a, b, RoundHalfEven(a, b))
  {
    var q, r := a / b, a % b;
    assert a == q * b + r;
    assert (q + 1) * b == q * b + b;
  }

  /** Of two quotients in order, the nearest integers are in order; so the nearest
      integer is unique and rounding is exactly that. */
  lemma NearestMonotone(a: int, b: int, m: int, c: int, d: int, n: int)
    requires b > 0 && d > 0 && a * d <= c * b
    requires Nearest(a, b, m) && Nearest(c, d, n)
    ensures m <= n
  {
    // (2m - 1)bd <= 2ad <= 2cb <= (2n + 1)bd
    var x, y := b * d, 2 * (a * d);
    var z := 2 * (c * b);
    Scaled(a, b, m, d);
    Scaled(c, d, n, b);
    assert d * b == x;
    if m > n {
      Scale(2 * n + 1, 2 * m - 1, x);
      assert (2 * m - 1) * x == y == z == (2 * n + 1) * x;
      Cancel(2 * m - 1, 2 * n + 1, x);
    }
  }

  lemma Scaled(a: int, b: int, m: int, d: int)
    requires b > 0 && d > 0 && Nearest(a, b, m)
    ensures (2 * m - 1) * (b * d) <= 2 * (a * d) <= (2 * m + 1) * (b * d)
    ensures 2 * (a * d) in {(2 * m - 1) * (b * d), (2 * m + 1) * (b * d)} ==> m % 2 == 0
  {
    var t := 2 * (a - m * b);
    assert t * d == 2 * (a * d) - 2 * m * (b * d) by {
      assert (m * b) * d == m * (b * d);
      assert (a - m * b) * d == a * d - (m * b) * d;
    }
    Scale(-b, t, d);
    Scale(t, b, d);
    if t * d == -b * d {
      Cancel(t, -b, d);
    } else if t * d == b * d {
      Cancel(t, b, d);
    }
  }

  lemma Scale(x: int, y: int, k: int)
    requires x <= y && k >= 0
    ensures x * k <= y * k
  {
  }

  lemma Cancel(x: int, y: int, k: int)
    requires k > 0 && x * k == y * k
    ensures x == y
  {
    assert (x - y) * k == 0;
  }

  /** More charge never shows less; a larger full capacity never shows more. */
  lemma PercentMonotone(r: nat, f: nat, r': nat, f': nat)
    requires f > 0 && f' > 0 && r <= r' && f' <= f
    ensures Percent(r, f) <= Percent(r', f')
  {
    hide RoundHalfEven, Nearest;
    Scale(100 * r, 100 * r', f');
    Scale(f', f, 100 * r');
    RoundIsNearest(100 * r, f);
    RoundIsNearest(100 * r', f');
    assert (100 * r) * f' <= (100 * r') * f;
    NearestMonotone(100 * r, f, RoundHalfEven(100 * r, f), 100 * r', f', RoundHalfEven(100 * r', f'));
  }

  /** Where the rounding steps from k - 1 to k. */
  lemma NearestStep(a: int, b: int, n: int, k: int)
    requires b > 0 && Nearest(a, b, n)
    ensures n >= k <==> 2 * a > (2 * k - 1) * b || (2 * a == (2 * k - 1) * b && k % 2 == 0)
  {
    var nb, kb := n * b, k * b;
    assert (2 * k - 1) * b == 2 * kb - b;
    if n >= k + 1 {
      Scale(k + 1, n, b);
    } else if n <= k - 2 {
      Scale(n, k - 2, b);
    } else if n == k - 1 {
      assert nb == kb - b;
    }
  }

  /** Below full the figure is a nearest integer to the true percentage; it is 100
      exactly from 99.5 % up, so a full battery always shows as full, and 0 exactly
      up to 0.5 %. */
  lemma PercentAccuracy(r: nat, f: nat)
    requires f > 0
    ensures r <= f ==> Nearest(100 * r, f, Percent(r, f))
    ensures Percent(r, f) == 100 <==> 200 * r >= 199 * f
    ensures Percent(r, f) == 0 <==> 200 * r <= f
  {
    hide RoundHalfEven, Nearest;
    var n := RoundHalfEven(100 * r, f);
    RoundIsNearest(100 * r, f);
    NearestStep(100 * r, f, n, 0);
    NearestStep(100 * r, f, n, 1);
    NearestStep(100 * r, f, n, 100);
    NearestStep(100 * r, f, n, 101);
  }

  ghost predicate NearestReal(q: real, n: int) {
    var d := q - n as real;
    -0.5 <= d <= 0.5 && (d in {-0.5, 0.5} ==> n % 2 == 0)
  }

  /** A floating-point quotient rounds to the same integer as the exact one when its
      error stays under half a unit of the divisor and half-integers come out exact. */
  lemma RoundingToleratesError(a: int, b: int, q: real)
    requires b > 0
    requires -0.5 < q * b as real - a as real < 0.5
    requires (2 * a) % b == 0 ==> q * b as real == a as real
    ensures NearestReal(q, RoundHalfEven(a, b))
  {
    hide RoundHalfEven;
    var n := RoundHalfEven(a, b);
    RoundIsNearest(a, b);
    var nb := n * b;
    if 2 * (a - nb) in {-b, b} {
      TieIsExact(a, b, n);
    }
    Compare(q, q * b as real, n as real, nb as real, b as real);
    if 2 * (a - nb) !in {-b, b} {
      assert -b < 2 * (a - nb) < b;
    }
  }

  function Abs(x: real): real {
    if x < 0.0 then -x else x
  }

  /** How far a/b is from half of m, times b. */
  function HalfError(a: int, b: int, m: int): real {
    Abs((m * b) as real / 2.0 - a as real)
  }

  const TWO_TO_THE_32 := 0x1_0000_0000
  const TWO_TO_THE_53 := 0x20_0000_0000_0000

  /** What double-precision division promises of a/b: a relative error of at most
      2^-53, and a result at least as close as any half-integer, all of which up to 2^52
      are doubles. */
  ghost predicate DoubleQuotient(a: nat, b: nat, q: real) {
    var e := Abs(q * b as real - a as real);
    && e * TWO_TO_THE_53 as real <= a as real
    && forall m: int | -TWO_TO_THE_53 < m < TWO_TO_THE_53 :: e <= HalfError(a, b, m)
  }

  /** For capacities of up to 32 bits, rounding the floating-point quotient gives the
      percentage that exact arithmetic gives. */
  lemma FloatingPointAgrees(r: nat, f: nat, q: real, n: int)
    requires 0 < f < TWO_TO_THE_32 && r < TWO_TO_THE_32
    requires DoubleQuotient(100 * r, f, q) && NearestReal(q, n)
    ensures Clamp(n) == Percent(r, f)
  {
    SmallError(100 * r, q * f as real - (100 * r) as real);
    if (2 * (100 * r)) % f == 0 {
      TieIsHalf(100 * r, f);
    }
    RoundingToleratesError(100 * r, f, q);
    hide RoundHalfEven, DoubleQuotient, HalfError, Abs;
  }

  lemma SmallError(a: nat, e: real)
    requires a < 100 * TWO_TO_THE_32 && Abs(e) * TWO_TO_THE_53 as real <= a as real
    ensures -0.5 < e < 0.5
  {
  }

  lemma TieIsHalf(a: nat, b: nat)
    requires b > 0 && (2 * a) % b == 0
    ensures var m := 2 * a / b; 0 <= m <= 2 * a && HalfError(a, b, m) == 0.0
  {
    var x := 2 * a;
    var m := x / b;
    Exact(x, b);
    assert m >= 1 ==> m * 1 <= m * b by {
      if m >= 1 {
        Scale(1, b, m);
      }
    }
  }

  lemma Exact(x: int, b: int)
    requires b > 0 && x % b == 0 && x >= 0
    ensures x / b * b == x && x / b >= 0
  {
  }

  lemma TieIsExact(a: int, b: int, n: int)
    requires b > 0 && 2 * (a - n * b) in {-b, b}
    ensures (2 * a) % b == 0
  {
    MultipleOf(2 * a, if 2 * (a - n * b) == b then 2 * n + 1 else 2 * n - 1, b);
  }

  /** Distances from q to n, and from q * w to n * w, compare alike with a half. */
  lemma Compare(q: real, qw: real, n: real, nw: real, w: real)
    requires w > 0.0 && qw == q * w && nw == n * w
    ensures -w <= qw - nw + qw - nw <= w ==> -0.5 <= q - n <= 0.5
    ensures -w < qw - nw + qw - nw < w ==> -0.5 < q - n < 0.5
  {
    var d := q - n;
    var dw := d * w;
    assert dw == qw - nw;
    if d >= 0.5 {
      assert (d - 0.5) * w >= 0.0;
      assert (d - 0.5) * w == dw - 0.5 * w;
      if d > 0.5 { assert (d - 0.5) * w > 0.0; }
    } else if d <= -0.5 {
      assert (d + 0.5) * w <= 0.0;
      assert (d + 0.5) * w == dw + 0.5 * w;
      if d < -0.5 { assert (d + 0.5) * w < 0.0; }
    }
  }

  lemma MultipleOf(x: int, k: int, b: int)
    requires b > 0 && x == k * b
    ensures x % b == 0
  {
    var q, r := x / b, x % b;
    assert (k - q) * b == r;
    if k - q >= 1 {
      Scale(1, k - q, b);
    } else if k - q <= -1 {
      Scale(k - q, -1, b);
    }
  }
}
