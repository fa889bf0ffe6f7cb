/** Small datatypes shared by every component. */
module Prelude {
  datatype Option<+T> = None | Some(value: T)

  /** One octet of a notification or a command. */
  type Byte = b: int | 0 <= b < 256

  type Bytes = seq<Byte>

  /** Seconds. Every timestamp in the appliance is a reading of a clock that never goes back. */
  type Time = real

  /** How long something took. */
  type Duration = d: real | 0.0 <= d

  function Min(a: real, b: real): real {
    if a < b then a else b
  }

  /** The coarse power state partyboxd derives and the companion acts on. */
  datatype SpeakerState = Off | Unreachable | Standby | On
}
