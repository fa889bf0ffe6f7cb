/** `_idle_battery_shutdown`: power the Pi off after sustained idle time on battery. */
module IdleShutdown {
  import opened Prelude
  import Battery

  const STANDBY_GRACE := 1800.0
  const OFF_GRACE := 90.0

  /** What one poll sees: the time, the speaker state and any charging status. */
  datatype Poll = Poll(at: Time, state: SpeakerState, charging: Option<Battery.Charging>)

  function Threshold(s: SpeakerState): Option<Time> {
    match s
    case Standby => Some(STANDBY_GRACE)
    case Unreachable => Some(STANDBY_GRACE)
    case Off => Some(OFF_GRACE)
    case On => None
  }

  // ---- The rule, read off the whole trace ---------------------------------

  /** Poll k is the latest up to poll n that reported a charging status. */
  ghost predicate Latest(polls: seq<Poll>, k: int, n: int) {
    && 0 <= k <= n < |polls| && polls[k].charging.Some?
    && forall j | k < j <= n :: polls[j].charging.None?
  }

  /** The speaker is not "on" and was on battery when last heard from. */
  ghost predicate Idle(polls: seq<Poll>, n: int) {
    && 0 <= n < |polls| && polls[n].state != SpeakerState.On
    && exists k :: Latest(polls, k, n) && polls[k].charging == Some(Battery.Discharging)
  }

  /** Whether that was so, one poll at a time. */
  function LastKnown(polls: seq<Poll>, n: int): Option<bool>
    requires n < |polls|
    decreases n
  {
    if n < 0 then None
    else if polls[n].charging.Some? then Some(!polls[n].charging.value.OnMains())
    else LastKnown(polls, n - 1)
  }

  lemma {:induction false} LastKnownMeaning(polls: seq<Poll>, n: int)
    requires n < |polls|
    ensures LastKnown(polls, n) == Some(true) <==>
              exists k :: Latest(polls, k, n) && polls[k].charging == Some(Battery.Discharging)
    decreases n
  {
    if n >= 0 {
      if polls[n].charging.Some? {
        assert Latest(polls, n, n);
      } else {
        LastKnownMeaning(polls, n - 1);
        if k :| Latest(polls, k, n - 1) && polls[k].charging == Some(Battery.Discharging) {
          assert Latest(polls, k, n);
        }
        if k :| Latest(polls, k, n) && polls[k].charging == Some(Battery.Discharging) {
          assert Latest(polls, k, n - 1);
        }
      }
    }
  }

  /** m starts the unbroken idle spell that n belongs to. */
  ghost predicate SpellStart(polls: seq<Poll>, m: int, n: int) {
    && 0 <= m <= n && (forall j | m <= j <= n :: Idle(polls, j))
    && !Idle(polls, m - 1)
  }

  /** 90 s for a speaker that is off, half an hour for one asleep or out of reach. */
  ghost predicate Old(polls: seq<Poll>, m: int, n: int) {
    && 0 <= m <= n < |polls|
    && polls[n].at - polls[m].at >= if polls[n].state == SpeakerState.Off then 90.0 else 1800.0
  }

  /** The spell is old enough for the state it has now; how long it spent in any
      earlier state does not matter. */
  ghost predicate Due(polls: seq<Poll>, n: int) {
    && Idle(polls, n)
    && exists m :: SpellStart(polls, m, n) && Old(polls, m, n)
  }

  lemma SpellStartUnique(polls: seq<Poll>, m: int, k: int, n: int)
    requires SpellStart(polls, m, n) && SpellStart(polls, k, n)
    ensures m == k
  {
  }

  // ---- The watcher --------------------------------------------------------

  ghost predicate FirstDue(polls: seq<Poll>, n: int) {
    0 <= n < |polls| && Due(polls, n) && forall i | 0 <= i < n :: !Due(polls, i)
  }

  /** The polls at which `power_off` is called: the first due one, and never again. */
  method Watch(polls: seq<Poll>) returns (calls: seq<nat>)
    ensures calls == [] || (|calls| == 1 && FirstDue(polls, calls[0]))
    ensures calls == [] ==> forall n | 0 <= n < |polls| :: !Due(polls, n)
  {
    calls := [];
    var idleSince: Option<Time> := None;
    var triggered := false;
    var lastKnownOnBattery: Option<bool> := None;
    ghost var start := 0;
    for i := 0 to |polls|
      invariant !triggered ==> calls == [] && forall n | 0 <= n < i :: !Due(polls, n)
      invariant triggered ==> |calls| == 1 && FirstDue(polls, calls[0])
      invariant !triggered ==> lastKnownOnBattery == LastKnown(polls, i - 1)
      invariant !triggered ==> (idleSince.Some? <==> Idle(polls, i - 1))
      invariant !triggered && idleSince.Some? ==> SpellStart(polls, start, i - 1) && idleSince.value == polls[start].at
    {
      if triggered {
        continue;
      }
      var snap := polls[i];
      if snap.charging.Some? {
        lastKnownOnBattery := Some(!snap.charging.value.OnMains());
      }
      LastKnownMeaning(polls, i);
      var threshold := Threshold(snap.state);
      if threshold.Some? && lastKnownOnBattery == Some(true) {
        if idleSince.None? {
          idleSince := Some(snap.at);
          start := i;
          assert SpellStart(polls, i, i);
        } else if snap.at - idleSince.value >= threshold.value {
          assert SpellStart(polls, start, i) && Old(polls, start, i);
          triggered := true;
          calls := calls + [i];
        } else {
          assert SpellStart(polls, start, i);
        }
        if !triggered {
          NotDue(polls, start, i);
        }
      } else {
        idleSince := None;
      }
    }
  }

  lemma NotDue(polls: seq<Poll>, m: int, n: int)
    requires SpellStart(polls, m, n) && !Old(polls, m, n)
    ensures !Due(polls, n)
  {
    if k :| SpellStart(polls, k, n) && Old(polls, k, n) {
      SpellStartUnique(polls, m, k, n);
    }
  }
}
