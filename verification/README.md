# PartyBox companion: what the appliance promises, proved

A PartyBox companion is a small computer that keeps a battery speaker usable: `partybox`
speaks the speaker's vendor protocol over BLE, `partyboxd` holds one control connection and
heals the Bluetooth adapter when it wedges, and `companion` keeps the A2DP audio link up,
advertises Spotify Connect only while there is something to play through, stores the portal's
settings, and powers the machine off when it idles on battery. This project models the parts
of that system whose correctness is not visible in any one function, and proves it.

The two connection keepers are specified by their *histories*. A history is the list of what
has happened (`AudioHistory.History`, `RecoveryHistory.History`), and every decision is a
question about it: how many short connections since the last long one, when the current
unreachable stretch began, whether an adapter power-cycle is due. The classes
`AudioServices.AudioService` and `DeviceManagers.DeviceManager` have the counters and
timestamps of the original and its control flow; each method is proved to do to the history
what the specification says, for every interleaving of the clock, other coroutines and the
outside world at every suspension point. The theorems are then about all histories.

| file | content |
|---|---|
| `Frames.dfy` | vendor frames: the stream grammar and the resynchronising reassembler |
| `Battery.dfy` | commands, TLV fields, little-endian numbers, battery status, charge percentage |
| `EventBus.dfy` | bounded subscriber queues |
| `RecoveryHistory.dfy`, `RecoveryReasons.dfy` | when the manager power-cycles the adapter, and why |
| `RecoveryLiveness.dfy` | what the connect loop never fails to do: notice trouble, answer a wedge, look for stale links |
| `ReclaimedFailures.dfy` | whether a failure blamed on a stale link can lie inside a dense run of counted ones |
| `Snapshots.dfy`, `HealthCheck.dfy` | what the daemon shows of the speaker; when a connection is given up |
| `DeviceManager.dfy` | the class that does all of this |
| `AudioHistory.dfy`, `AudioService.dfy` | the A2DP retry loop: its account and its class |
| `AudioTurns.dfy` | what each turn of that loop takes on the clock, tells, and does to the ladder |
| `SpotifyGate.dfy` | when Spotify is live on any stream of events; exclusion, from the audio service through the bus to the gate |
| `IdleShutdown.dfy` | power-off after idling on battery |
| `ConfigStore.dfy` | serialised settings on a disk that can lose power at any moment |
| `Backoff.dfy` | capped exponential delays and the supervisor |
| `Text.dfy`, `WifiList.dfy`, `AuthorizedKeys.dfy` | lines of text, nmcli listings, authorized_keys blocks |

Time is a real number of seconds read from a clock that never goes back. Code between two
suspension points is one atomic step. Everything the outside world contributes to one pass of
a loop (what a scan, a connect, a helper process, a probe or a portal user does, and when) is
an input, so a statement over all inputs is a statement over all runs.

## Where the code says something other than its prose, or than one might expect

- A connect failure explained by a stale link is not counted, but what was counted before it is
  not cleared either (`packages/partyboxd/src/partyboxd/device/manager.py:890-891`), so it may
  lie between the three failures of a dense run. That happens in some run if and only if recovery
  and reclaim are both configured and the first retry delay is at most 540 s
  (`ReclaimedFailures.InterveningIsPossible`).
- The bus drops events for a full queue. For every capacity some alternating stream of readiness
  events then reaches the gate with two equal neighbours (`EventBus.DropsBreakAlternation`) and
  leaves Spotify live for ever though nothing plays (`SpotifyGate.DropsBreakTheGate`). On an
  arbitrary stream the gate outstays a "not ready" spell if and only if a second "not ready" ends
  the countdown that the first one began (`SpotifyGate.OverstaysExactlyWhenMissed`). Delivery is
  complete exactly when the queue was never full (`EventBus.DeliveredAll`), and then the gate is
  exact (`SpotifyGate.SpotifyExclusion`).
- A first delay above the cap is slept in full once: the closed form of a capped backoff holds at
  every step exactly when the first delay is within the cap (`Backoff.ClosedForm`).
- A settings patch that sends null for the name or the bitrate is accepted and costs every other
  field as well, because the file no longer parses; any other patch changes exactly the fields it
  sends, to the values it sends (`ConfigStores.UpdateMeans`).
- Encoding a battery request for more than 255 features fails (`Battery.Encode` is None there).

## Model

| member | source | states |
|---|---|---|
| Frames.ParseOfWire | packages/partybox/src/partybox/protocol/codec.py:102-129 | any frames laid out between SOF-free junk and ended by an incomplete frame are read back as exactly those frames and that tail |
| Frames.WireOfParse | packages/partybox/src/partybox/protocol/codec.py:102-129 | every byte stream at all is such a layout of what parsing returns: nothing is invented, reordered or dropped but bytes before a SOF |
| Frames.ParseShape | packages/partybox/src/partybox/protocol/codec.py:110-129 | every emitted frame starts with SOF and has the length it declares; the leftover is empty or a SOF-headed incomplete frame of at most 257 bytes |
| Frames.ParseCut | packages/partybox/src/partybox/protocol/codec.py:102-108 | cutting a stream anywhere changes neither the frames nor the leftover |
| Frames.FrameReassembler.TakeFrame | packages/partybox/src/partybox/protocol/codec.py:110-129 | detaches the first frame of the buffer, or leaves exactly the tail no frame can be taken from; the buffer shrinks |
| Frames.FrameReassembler.Push | packages/partybox/src/partybox/protocol/codec.py:102-108 | the frames returned and the bytes kept are the parse of the old buffer followed by the notification |
| Frames.Reassemble | packages/partybox/src/partybox/protocol/codec.py:83-129 | any fragmentation pushed into a fresh reassembler gives what one push of the whole stream gives |
| Battery.EncodedIsOneFrame | packages/partybox/src/partybox/protocol/codec.py:36-56 | an encoded command passes a fresh reassembler as one untouched frame, whatever follows it |
| Battery.CommandIsUnderstood | packages/partybox/src/partybox/protocol/codec.py:36-56 | the speaker, reading the bytes by the vendor's numbers, understands every command as it was meant; only a request for more than 255 features cannot be sent |
| Battery.SplitOfEncode | packages/partybox/src/partybox/protocol/codec.py:139-147 | splitting a payload undoes the speaker's field layout and ignores exactly the cut field behind it |
| Battery.EncodeOfSplit | packages/partybox/src/partybox/protocol/codec.py:139-147 | laying the split fields out again gives the payload back up to its cut tail |
| Battery.DecodeFields | packages/partybox/src/partybox/protocol/codec.py:139-151 | the decoding loop over any payload computes the last values of the fields that are whole |
| Battery.LastFieldDecides | packages/partybox/src/partybox/protocol/codec.py:148-151 | the last field with a known id decides that feature's value |
| Battery.ReadFeatureHasField | packages/partybox/src/partybox/protocol/codec.py:148-151 | a feature is read only if some field carries its id, and then from the last one |
| Battery.LittleRoundTrip | packages/partybox/src/partybox/protocol/codec.py:153-155 | little-endian reading and writing are inverse to each other at every width |
| Battery.LittleIsWeighed | packages/partybox/src/partybox/protocol/codec.py:153-155 | the i-th byte of a value counts 256^i |
| Battery.DecodeOfBatteryFrame | packages/partybox/src/partybox/protocol/codec.py:59-80 | a battery frame cut anywhere after its header decodes to the last value of each known feature among the fields that arrived whole; uncut, among all of them |
| Battery.DecodeMeaning | packages/partybox/src/partybox/protocol/codec.py:59-80 | a frame decodes to a battery status exactly when it has the battery header, and each component is then what the last whole field with its own id says; likewise the firmware version |
| Battery.DecodedStatus | packages/partybox/src/partybox/protocol/codec.py:139-187 | in a frame with any fields, cut anywhere after its header, remaining charge is the little-endian value of the last whole field 4, full capacity of field 5, and so on for every component; playtime is none exactly without a field 2 or at 0xFFFF, charging is by codes 1, 2 and 3 of field 9, else none |
| Battery.DecodedLevel | packages/partybox/src/partybox/protocol/messages.py:142-154 | the percentage of a decoded status is the nearest to field 4 over field 5, 100 above full, and none over a capacity of 0 |
| Battery.NoLevel | packages/partybox/src/partybox/protocol/messages.py:149-150 | and none unless both fields arrived |
| Battery.Status | packages/partybox/src/partybox/device/capabilities/battery.py:32-63 | the receive loop returns what the fields of the first battery frame in the received bytes say, however the link cut them, or times out if there is none |
| Battery.StatusIsStable | packages/partybox/src/partybox/device/capabilities/battery.py:32-63 | once a battery frame has arrived, later notifications cannot change the answer |
| Battery.RoundIsNearest | packages/partybox/src/partybox/protocol/messages.py:151-154 | the rounded quotient is a nearest integer, the even one of two |
| Battery.NearestMonotone | packages/partybox/src/partybox/protocol/messages.py:151-154 | nearest integers of ordered quotients are ordered, so the nearest integer is unique |
| Battery.PercentMonotone | packages/partybox/src/partybox/protocol/messages.py:142-154 | the percentage never falls with more charge nor rises with a larger full capacity |
| Battery.PercentAccuracy | packages/partybox/src/partybox/protocol/messages.py:142-154 | up to full it is a nearest integer to the true percentage; it is 100 exactly from 99.5 % up and 0 exactly up to 0.5 % |
| Battery.FloatingPointAgrees | packages/partybox/src/partybox/protocol/messages.py:151-154 | for capacities of up to 32 bits, rounding what double-precision division gives (relative error at most 2^-53, no half-integer closer) yields the percentage of exact arithmetic |
| EventBus.DeliveredInOrder | packages/partyboxd/src/partyboxd/eventbus.py:39-48 | what a subscriber has consumed or will consume is picked, in order and without repetition, from what was offered to it |
| EventBus.DeliveredAll | packages/partyboxd/src/partyboxd/eventbus.py:39-48 | it is all of that if and only if the queue was never full when an event came |
| EventBus.Queue.PutNowait | packages/partyboxd/src/partyboxd/eventbus.py:44-48 | an event is queued unless the queue is full; nothing else about the queue changes |
| EventBus.Queue.GetNowait | packages/partyboxd/src/partyboxd/eventbus.py:26-30 | the consumer takes the oldest event |
| EventBus.EventBus.Subscribe | packages/partyboxd/src/partyboxd/eventbus.py:26-30 | a fresh empty queue joins at the end and is owed the events from now on |
| EventBus.EventBus.Preload | packages/companion/src/companion/services/audio.py:237-238 | an event put by hand into a queue that has just joined is owed to it before everything emitted since |
| EventBus.EventBus.Unsubscribe | packages/partyboxd/src/partyboxd/eventbus.py:32-37 | exactly that queue leaves and the others keep their order; an unknown queue is ignored |
| EventBus.EventBus.Emit | packages/partyboxd/src/partyboxd/eventbus.py:39-48 | every queue is offered the event once, and each queue's contents remain a function of its own history alone |
| EventBus.EventBus.Take | packages/partyboxd/src/partyboxd/eventbus.py:26-30 | a consumer takes the oldest waiting event, if any; no other queue notices |
| EventBus.DropsBreakAlternation | packages/partyboxd/src/partyboxd/eventbus.py:39-48 | for every capacity an alternating stream can reach the subscriber as an alternating one followed by a repetition of its last event |
| RecoveryHistory.RunKeeps | packages/partyboxd/src/partyboxd/device/manager.py:585-622 | at every loop head of every run: only legal events, in time order, no connection held, no recovery owing |
| RecoveryHistory.RecoversExactlyWhenDue | packages/partyboxd/src/partyboxd/device/manager.py:1032-1060 | at every moment of every run an automatic power-cycle begins if and only if an alarm was raised the moment before and the cool-down had passed |
| RecoveryHistory.StormBrake | packages/partyboxd/src/partyboxd/device/manager.py:1042-1053 | between a power-cycle and a later automatic one pass at least 900 s for each automatic one up to and including it, so n of them span at least 900 (n - 1) s and none starts within 900 s after a manual reset succeeded |
| RecoveryHistory.ManualResets | packages/partyboxd/src/partyboxd/device/manager.py:556-583 | manual resets never overlap, and none begins within 30 s after one has ended, whatever its outcome |
| RecoveryHistory.QueuedPresses | packages/partyboxd/src/partyboxd/device/manager.py:557-564 | however many presses queue up behind a running reset, they find the cool-down it leaves and change nothing |
| RecoveryLiveness.PressBegins | packages/partyboxd/src/partyboxd/device/manager.py:557-583 | a press begins a manual reset exactly if one is configured, none is unfinished and none has ended within the last 30 s |
| RecoveryLiveness.PowerOpensGrace | packages/partyboxd/src/partyboxd/device/manager.py:454-472 | a power command that completes on a live connection is remembered at its time |
| RecoveryReasons.LongUnreachableJustified | packages/partyboxd/src/partyboxd/device/manager.py:902-954 | a recovery for long unreachability names a start at least 600 s earlier, outside the grace window of every power command, with no successful connect and no beacon-free empty scan since |
| RecoveryReasons.LongTroubleSuffices | packages/partyboxd/src/partyboxd/device/manager.py:947-954 | conversely, trouble 600 s after earlier trouble always raises the alarm unless a connect or a silent scan came between |
| RecoveryLiveness.TroubleIsNoticed | packages/partyboxd/src/partyboxd/device/manager.py:1072-1104 | every pass that cannot scan, sees the beacon without the speaker, or is refused the connect, and begins outside the grace window, consults the unreachable clock; nothing in it starts that clock over |
| RecoveryLiveness.NoTroubleNoClock | packages/partyboxd/src/partyboxd/device/manager.py:607-646 | any other pass does not consult it |
| RecoveryLiveness.LongTroubleRecovers | packages/partyboxd/src/partyboxd/device/manager.py:902-1060 | end to end: such passes going on for 600 s without a connect or a silent scan contain a power-cycle, if every earlier one is by then 900 s old |
| RecoveryLiveness.ScanErrorsRecover | packages/partyboxd/src/partyboxd/device/manager.py:1017-1060 | end to end: so do five passes in a row whose scan raises |
| RecoveryLiveness.RefusalsRecover | packages/partyboxd/src/partyboxd/device/manager.py:862-1060 | end to end: so do three refused connects in a row, each within 600 s of the one before, that no stale link explains |
| RecoveryReasons.DenseFailuresJustified | packages/partyboxd/src/partyboxd/device/manager.py:862-900 | a recovery for dense failures names three counted connect failures, each 60 s or more after every power command, with adjacent gaps of at most 600 s and no success, power-cycle or grace-window failure since the first |
| RecoveryReasons.ThreeDenseFailuresSuffice | packages/partyboxd/src/partyboxd/device/manager.py:892-900 | conversely, three such failures always raise the alarm |
| RecoveryReasons.ReclaimedFailuresAreInvisible | packages/partyboxd/src/partyboxd/device/manager.py:883-891 | failures explained by a stale link neither count nor interrupt a dense run |
| ReclaimedFailures.InterveningIsPossible | packages/partyboxd/src/partyboxd/device/manager.py:883-900 | some run recovers for dense failures with a reclaimed failure among them if and only if recovery and reclaim are configured and the first retry delay is at most 540 s |
| ReclaimedFailures.InterveningNeeds | packages/partyboxd/src/partyboxd/device/manager.py:862-900 | any such run has that configuration: a reclaimed failure between counted ones costs two sleeps, the second the whole first delay |
| ReclaimedFailures.InterveningHappens | packages/partyboxd/src/partyboxd/device/manager.py:862-900 | with that configuration five explicit turns of the loop are such a run |
| ReclaimedFailures.OnlyIfReclaiming | packages/partyboxd/src/partyboxd/device/manager.py:977-1015 | without a configured reclaim no run contains a reclaimed failure |
| RecoveryReasons.ErrorRunMeaning | packages/partyboxd/src/partyboxd/device/manager.py:1026-1030 | the error counter reaches k exactly when the last k scans all failed with no power-cycle among them |
| RecoveryReasons.ScanErrorsJustified | packages/partyboxd/src/partyboxd/device/manager.py:1017-1030 | a recovery for scan errors follows at least five failed scans in a row |
| RecoveryReasons.WedgeIsAnswered | packages/partyboxd/src/partyboxd/device/manager.py:862-1060 | whenever there is evidence of a wedge of any of the three kinds and every power-cycle is 900 s old, the very next thing, at that instant, is a power-cycle |
| RecoveryReasons.AbsenceNeverRecovers | packages/partyboxd/src/partyboxd/device/manager.py:1084-1104 | while every scan is clean and finds neither speaker nor beacon the adapter is never power-cycled, whatever the starting state |
| RecoveryReasons.HandsOff | packages/partyboxd/src/partyboxd/device/manager.py:338-341 | no automatic power-cycle and no stale-link reclaim ever happens after a connect and before its drop |
| RecoveryReasons.GraceHasNoClock | packages/partyboxd/src/partyboxd/device/manager.py:927-938 | less than 60 s after a power command the unreachable clock is never running, as the source's comment claims |
| RecoveryReasons.ScanBackoff | packages/partyboxd/src/partyboxd/device/manager.py:1062-1070 | the first sleep of a run, or after a connection or a successful reclaim, lasts the configured delay; any other twice the one before it, at most 60 s |
| RecoveryReasons.ScanBackoffClosedForm | packages/partyboxd/src/partyboxd/device/manager.py:1062-1070 | so the k-th in a row lasts min(base * 2^k, 60), except that a first delay above 60 s is slept in full |
| RecoveryReasons.ReclaimsApart | packages/partyboxd/src/partyboxd/device/manager.py:977-1015 | a reclaim that found nothing rules out another within 30 s, unless one has freed the link since |
| RecoveryLiveness.ReclaimsOnThirdEmptyScan | packages/partyboxd/src/partyboxd/device/manager.py:956-975 | an empty scan leads to a reclaim exactly if one is configured, the scan is the third of its kind (or sixth, ...) since one found the speaker, and no fruitless reclaim lies less than 30 s back |
| RecoveryLiveness.ReclaimsOnRefusal | packages/partyboxd/src/partyboxd/device/manager.py:876-891 | so does a refused connect outside the grace window, whatever the count of scans |
| RecoveryHistory.AsleepLasts | packages/partyboxd/src/partyboxd/device/manager.py:1069-1070 | a sleep takes exactly its delay on the clock, whatever other coroutines do meanwhile |
| DeviceManagers.RememberIsExact | packages/partyboxd/src/partyboxd/device/manager.py:360-400 | the answers a history gives change with each event exactly as the manager updates its fields |
| DeviceManagers.DeviceManager.constructor | packages/partyboxd/src/partyboxd/device/manager.py:312-400 | a new manager remembers nothing and shows "off" |
| DeviceManagers.DeviceManager.CommandPower | packages/partyboxd/src/partyboxd/device/manager.py:454-472 | a power command that went through opens the grace window; possible only while a device is held |
| DeviceManagers.DeviceManager.BeginReset | packages/partyboxd/src/partyboxd/device/manager.py:557-569 | a manual reset begins exactly when configured, not already running and not cooling down |
| DeviceManagers.DeviceManager.EndReset | packages/partyboxd/src/partyboxd/device/manager.py:569-583 | its completion always starts the manual cool-down, and clears the counters and starts the automatic one exactly on success |
| DeviceManagers.DeviceManager.MaybeRecover | packages/partyboxd/src/partyboxd/device/manager.py:1032-1060 | after an alarm the adapter is power-cycled exactly when due, and old evidence is dropped before it is |
| DeviceManagers.DeviceManager.NoteUnreachableDuration | packages/partyboxd/src/partyboxd/device/manager.py:940-954 | follows the account of the unreachable clock: exempt in grace, started lazily, escalated at 600 s |
| DeviceManagers.DeviceManager.ReclaimStaleLink | packages/partyboxd/src/partyboxd/device/manager.py:977-1015 | true exactly when a reclaim was tried and disconnected something; only misses cool down; a hit resets the backoff |
| DeviceManagers.DeviceManager.NoteConnectFailure | packages/partyboxd/src/partyboxd/device/manager.py:862-900 | classifies a failure as in grace, explained or counted, and recovers exactly when a counted one makes it due |
| DeviceManagers.DeviceManager.CountFailure | packages/partyboxd/src/partyboxd/device/manager.py:892-900 | restarts the count after a gap of more than 600 s, and counts as of when the failure happened |
| DeviceManagers.DeviceManager.NoteScanError | packages/partyboxd/src/partyboxd/device/manager.py:1017-1030 | counts the error and recovers exactly when due |
| DeviceManagers.DeviceManager.NoteEmptyScan | packages/partyboxd/src/partyboxd/device/manager.py:956-975 | reclaims on every third clean empty scan in a row, and only if a reclaim is configured |
| DeviceManagers.DeviceManager.Scan | packages/partyboxd/src/partyboxd/device/manager.py:1072-1107 | a scan leads to the history its outcome specifies and shows the beacon it saw |
| DeviceManagers.DeviceManager.CleanScan | packages/partyboxd/src/partyboxd/device/manager.py:1084-1107 | the same for a scan that did not raise, including stopping the unreachable clock when nothing was seen |
| DeviceManagers.DeviceManager.SleepAndBackoff | packages/partyboxd/src/partyboxd/device/manager.py:1062-1070 | sleeps the delay the history calls for and doubles it up to the cap |
| DeviceManagers.DeviceManager.SetSnapshot | packages/partyboxd/src/partyboxd/device/manager.py:418-429 | the event is sent exactly when the shown state changes |
| DeviceManagers.DeviceManager.Refresh | packages/partyboxd/src/partyboxd/device/manager.py:1109-1155 | the first reads determine the whole snapshot |
| DeviceManagers.DeviceManager.PollLiveness | packages/partyboxd/src/partyboxd/device/manager.py:783-860 | battery first, firmware only if that is silent; a broken link changes nothing |
| DeviceManagers.DeviceManager.HealthCycle | packages/partyboxd/src/partyboxd/device/manager.py:702-781 | one cycle's effect on the snapshot, the failure count, the poll timer and the verdict |
| DeviceManagers.DeviceManager.DrainWithHealthCheck | packages/partyboxd/src/partyboxd/device/manager.py:664-781 | lives through exactly the cycles up to the one that ends the connection |
| DeviceManagers.DeviceManager.ConnectAndMaintain | packages/partyboxd/src/partyboxd/device/manager.py:607-662 | one pass does to history and snapshot exactly what the account says |
| DeviceManagers.DeviceManager.Run | packages/partyboxd/src/partyboxd/device/manager.py:585-597 | every run of the class is a run of the account, so all the theorems about histories and snapshots apply to it |
| Snapshots.ApplyKeeps | packages/partyboxd/src/partyboxd/device/manager.py:418-429 | each update keeps: replaying the state events from "off" gives the state shown, no event repeats its predecessor; no reading while asleep, the level is the reading's percentage, a disconnected snapshot is blank but for the beacon |
| HealthCheck.HearMeaning | packages/partyboxd/src/partyboxd/device/manager.py:783-822 | a poll hears the battery's reading if it gave one, else that the firmware answered, and silence exactly if neither did; a failure of the link comes from whichever probe was made |
| HealthCheck.FaceOfHeard | packages/partyboxd/src/partyboxd/device/manager.py:664-860 | what a connection shows after its cycles is a function of the answers its due liveness polls heard, in order |
| HealthCheck.AwakeMeaning | packages/partyboxd/src/partyboxd/device/manager.py:783-860 | after any cycle of any connection the speaker is shown asleep, and said to be in standby, exactly when neither probe of the last two polls got an answer, or nothing was ever answered; address and firmware are those first read |
| HealthCheck.BatteryShown | packages/partyboxd/src/partyboxd/device/manager.py:829-842 | a battery is shown exactly when there was one from the start or one has answered a poll |
| HealthCheck.ReadingMeaning | packages/partyboxd/src/partyboxd/device/manager.py:843-853 | after any cycle of any connection the reading shown is the latest one heard unless two silences in a row have come since |
| HealthCheck.VerdictIsExact | packages/partyboxd/src/partyboxd/device/manager.py:697-781 | the connection ends exactly at the first cycle in which a disconnect was signalled, a request found the link gone or failed with the disconnect confirmed, or a request failed right after a cycle in which one had |
| HealthCheck.IsolatedFailuresAreHarmless | packages/partyboxd/src/partyboxd/device/manager.py:697-781 | without such a cycle it lives through all of them, however many isolated failures there are |
| HealthCheck.StandbyCadence | packages/partyboxd/src/partyboxd/device/manager.py:729-738 | in confirmed standby, liveness polls are 120 to under 180 s of verified cycles apart; otherwise every verified cycle polls |
| HealthCheck.PollsWhenDue | packages/partyboxd/src/partyboxd/device/manager.py:729-738 | told from the cycles: a verified cycle polls unless the last two polls were mute and less than 120 s of verified cycles have gone by, at 15 s each, or 60 s while streaming |
| HealthCheck.CycleLasts | packages/partyboxd/src/partyboxd/device/manager.py:697-712 | a cycle waits 15 s on the clock, or 60 s while streaming, besides its requests |
| HealthCheck.EveryFaceIsTrue | packages/partyboxd/src/partyboxd/device/manager.py:607-662 | after every snapshot update of every run the events sent lead to the state shown, none repeats its predecessor and the snapshot is honest; at every loop head it is disconnected and blank, and no device is held |
| HealthCheck.ShownAtRest | packages/partyboxd/src/partyboxd/device/manager.py:269-283 | between connections "unreachable" is announced exactly when the latest scan to complete saw the beacon and no connection came of it, else "off" |
| AudioHistory.RunKeeps | packages/companion/src/companion/services/audio.py:344-475 | at every loop head of every run: on the retry ladder, readiness changes told once each, connect attempts disciplined, pins matching rises |
| AudioHistory.LadderInvariant | packages/companion/src/companion/services/audio.py:358-460 | at most four failures outstanding; the next wait is 10, 20, 40 or 60 s, at most min(10 * 2^failures, 60), and exactly that unless a strong wake restarted the ladder |
| AudioHistory.AttemptDiscipline | packages/companion/src/companion/services/audio.py:371-417 | no connect attempt ever starts with three short connections outstanding, with audio up, or in standby |
| AudioHistory.FlapsCountDrops | packages/companion/src/companion/services/audio.py:496-509 | the flap count is the number of connections that ended since the last standby gate, cool-down, or connection of 20 s or more |
| AudioHistory.ToldAlternates | packages/companion/src/companion/services/audio.py:496-509 | subscribers are told up, down, up, ... and the last word is the truth |
| AudioHistory.PinsMatchRises | packages/companion/src/companion/services/audio.py:425-436 | at every loop head the volume has been pinned once per fresh connection |
| AudioTurns.RunAccounts | packages/companion/src/companion/services/audio.py:344-475 | every turn of every run takes exactly the time its outcome calls for (60 s idle, 300 s gate, 120 s or 300 s cool-down, 5 s settling, or the current rung) unless interrupted, tells subscribers exactly what it found out, and moves the ladder accordingly |
| AudioTurns.TurnAccounts | packages/companion/src/companion/services/audio.py:371-475 | the time and the news of one turn, from the outcomes of its helpers alone |
| AudioTurns.TurnClimbs | packages/companion/src/companion/services/audio.py:371-475 | anything but a failure starts the ladder over, and so do the fifth failure and a wait cut short; any other failure doubles the wait up to 60 s |
| AudioTurns.RisesAreDated | packages/companion/src/companion/services/audio.py:496-503 | a new connection counts from the moment the helper that found or made it returned |
| AudioTurns.ParkedTurn | packages/companion/src/companion/services/audio.py:361-370 | without an address the loop takes audio down, waits, and starts afresh |
| AudioTurns.ForgettingTells | packages/companion/src/companion/services/audio.py:330-342 | forgetting the address takes audio down at once and forgets the failures |
| AudioTurns.WaitIsCut | packages/companion/src/companion/services/audio.py:579-618 | the first retry request, new address, forgotten address or (connected only) recheck ends a wait there and then; without one it takes its whole delay |
| AudioTurns.WaitLength | packages/companion/src/companion/services/audio.py:579-618 | a wait lasts exactly its delay unless a strong wake cuts it short |
| AudioTurns.RechecksDoNotWake | packages/companion/src/companion/services/audio.py:579-618 | recheck nudges neither shorten a failure wait nor count as a wake |
| AudioTurns.FailingTurn | packages/companion/src/companion/services/audio.py:442-460 | an outright failure takes its helpers' time and then the current rung and climbs, or at the fifth 300 s and starts over |
| AudioTurns.FailureRunTime | packages/companion/src/companion/services/audio.py:358-460 | n outright failures in a row from a fresh ladder, uninterrupted, take exactly 430 * (n div 5) + [0, 10, 30, 70, 130][n mod 5] seconds on the clock besides their helpers |
| AudioServices.AudioService.Subscribe | packages/companion/src/companion/services/audio.py:224-239 | a new queue whose first event is the current state; every subscriber stays owed exactly what is told from then on |
| AudioServices.AudioService.Announce | packages/companion/src/companion/services/audio.py:496-509 | a change is told once, to every subscriber |
| AudioServices.AudioService.SetAudioReady | packages/companion/src/companion/services/audio.py:485-509 | a transition is logged and told exactly when the value changes, and counts a flap exactly under 20 s |
| AudioServices.AudioService.ForgetAddress | packages/companion/src/companion/services/audio.py:330-342 | forgetting clears the address and the failure count, wakes any wait and takes audio down |
| AudioServices.AudioService.WaitRetry | packages/companion/src/companion/services/audio.py:579-618 | hears everything up to the first wake it listens to, or the timeout, and reports exactly the strong wakes |
| AudioServices.AudioService.WhileConnected | packages/companion/src/companion/services/audio.py:461-475 | the connected branch follows the account |
| AudioServices.AudioService.WhileDisconnected | packages/companion/src/companion/services/audio.py:371-460 | the disconnected branch follows the account: gate, cool-down or attempt |
| AudioServices.AudioService.TryConnect | packages/companion/src/companion/services/audio.py:412-460 | so do the attempt and its three outcomes |
| AudioServices.AudioService.Pass | packages/companion/src/companion/services/audio.py:360-475 | one pass of the loop does exactly what the account says |
| AudioServices.AudioService.RunLoop | packages/companion/src/companion/services/audio.py:344-475 | every run of the class is a run of the account |
| SpotifyGate.Gate | packages/companion/src/companion/__main__.py:169-203 | the gate's loop starts and cancels tasks exactly as specified, event by event |
| SpotifyGate.AtMostOneTask | packages/companion/src/companion/__main__.py:169-203 | at no instant are two Spotify tasks live, whatever the events |
| SpotifyGate.GateIsExact | packages/companion/src/companion/__main__.py:169-203 | on any stream Spotify is live exactly when the last event was "ready", or a "not ready" that a running countdown took for its answer, or one that began a countdown less than 300 s ago |
| SpotifyGate.ExactExclusion | packages/companion/src/companion/__main__.py:169-203 | on an alternating stream Spotify is live at an instant exactly when the last event was "ready", or was a "not ready" less than 300 s old that took something away |
| SpotifyGate.OverstaysExactlyWhenMissed | packages/companion/src/companion/__main__.py:187-197 | Spotify is live 300 s or more into a "not ready" spell if and only if, when the countdown its first event began runs out, the spell still lasts and a further "not ready" has ended that countdown |
| SpotifyGate.MissedSimply | packages/companion/src/companion/__main__.py:187-197 | when no two events coincide that is: the next event is another "not ready" within 300 s and none within those 300 s is a "ready" |
| SpotifyGate.RepeatedDropoutIsMissed | packages/companion/src/companion/__main__.py:187-197 | any stream that ends in "ready", "not ready" and within the grace period "not ready" leaves Spotify live at every later moment, long after it stopped being wanted |
| SpotifyGate.DropsBreakTheGate | packages/companion/src/companion/__main__.py:169-203 | for every queue capacity an alternating stream of events reaches the gate in such a form |
| SpotifyGate.SubscriberStreamAlternates | packages/companion/src/companion/services/audio.py:224-239 | in any run, what any subscriber of the service's bus was offered alternates and ends with the truth |
| SpotifyGate.SpotifyExclusion | packages/companion/src/companion/__main__.py:142-203 | the composition: in any run, on any subscriber's queue that never filled up, the gate makes Spotify live exactly when wanted |
| SpotifyGate.RunAppliance | packages/companion/src/companion/__main__.py:142-203 | the same of every run of the class from its start-up |
| IdleShutdown.Watch | packages/companion/src/companion/__main__.py:329-359 | power-off is called at most once, at exactly the first poll whose unbroken idle spell, with "discharging" the last charging status reported, is 90 s old if the speaker is now off, or 1800 s if it is asleep or unreachable |
| ConfigStores.CrashReads | packages/companion/src/companion/config_store.py:89-135 | a power cut on a safe disk leaves settings the next boot was allowed to find, and a safe disk |
| ConfigStores.PowerCut | packages/companion/src/companion/config_store.py:89-120 | in any state an operation passes through, the reboot finds the old or the new settings |
| ConfigStores.ConfigStore.Write | packages/companion/src/companion/config_store.py:89-135 | every state a write passes through is such a state; once it returns, later boots find only the new settings; if it raises, which of the two is visible |
| ConfigStores.ConfigStore.Replace | packages/companion/src/companion/config_store.py:111-119 | until the rename the visible settings are the old ones, after it the new ones, whichever step refuses |
| ConfigStores.ConfigStore.Read | packages/companion/src/companion/config_store.py:74-87 | absent or unreadable means the defaults; exactly a damaged file is set aside, if the disk lets it, and that changes no reader's answer |
| ConfigStores.ConfigStore.Reset | packages/companion/src/companion/config_store.py:161-179 | likewise for a reset, whose new settings are the defaults |
| ConfigStores.LockedStore.BeginUpdate | packages/companion/src/companion/config_store.py:155-158 | one operation holds the lock at a time, and its merge starts from the settings on disk |
| ConfigStores.LockedStore.FinishUpdate | packages/companion/src/companion/config_store.py:155-159 | the operation takes its place in the order unless its write raised before the rename, and is there to stay unless the directory sync raised; every state of the disk on the way is sound |
| ConfigStores.LockedStore.ResetFile | packages/companion/src/companion/config_store.py:161-179 | likewise for a reset, which waits for nothing while it holds the lock |
| ConfigStores.Interleave | packages/companion/src/companion/config_store.py:137-179 | any interleaving of updates, failures and resets leaves what the completed ones leave one after another, and in it every value sent by one and left alone by all later ones; a power cut at any moment boots into the outcome of the operations completed by then, with or without the one in flight, and short at most of those whose directory sync had failed |
| ConfigStores.UpdateMeans | packages/companion/src/companion/webui/router.py:96-101 | an update changes exactly the fields it sends, to the values it sends; one that nulls the name or the bitrate leaves the defaults, as a reset does |
| ConfigStores.EffectsLoseNothing | packages/companion/src/companion/config_store.py:137-159 | a value sent by one operation and absent from all later ones is what the settings hold |
| ConfigStores.DisjointUpdatesCommute | packages/companion/src/companion/config_store.py:137-159 | updates of different fields come out the same in either order |
| ConfigStores.AddressKept | packages/companion/src/companion/webui/router.py:96-101 | operations that do not send the address never lose one stored before them |
| ConfigStores.PortalFieldsKept | packages/companion/src/companion/webui/router.py:96-101 | nor name and bitrate, for operations that send neither |
| Backoff.ClosedForm | packages/companion/src/companion/supervisor.py:117-131 | the k-th consecutive capped delay is min(first * factor^k, cap): always for k > 0 and factor >= 1, and at k = 0 exactly when first <= cap |
| Supervisors.Entry.ConsumeDelay | packages/companion/src/companion/supervisor.py:117-131 | the delay returned is a function of the runs since the last stable one |
| Supervisors.Monitor.RunOnce | packages/companion/src/companion/supervisor.py:234-286 | one run and its sleep: clock, failure time, failure count and crash flag |
| Supervisors.Monitor.Supervise | packages/companion/src/companion/supervisor.py:220-286 | over any exits: each sleep is the one the policy gives, the time taken is runs plus sleeps, and the health report is faithful |
| Supervisors.CrashLoopDelay | packages/companion/src/companion/supervisor.py:117-131 | after any exits the sleep is the closed-form delay for the runs since the last stable one, unless the first delay exceeds the cap; a stable run is followed by the initial delay |
| Supervisors.ShortRunsCount | packages/companion/src/companion/supervisor.py:125-131 | short runs from the start, or after a stable run, are counted one by one |
| Supervisors.CrashLoopTakes | packages/companion/src/companion/supervisor.py:117-131 | n short runs from the start or after a stable run are slept through for exactly the sum of the n capped delays, and the clock advances by at least that; with a first delay above the cap and a factor of at least 1 it is more |
| WifiList.ReadRecords | packages/companion/src/companion/services/provisioning.py:325-343 | the line loop splits a listing into the records that reading it backwards gives |
| WifiList.BlankLinesDoNotMatter | packages/companion/src/companion/services/provisioning.py:313-320 | blank lines between records headed by an SSID make no difference |
| WifiList.LineMeaning | packages/companion/src/companion/services/provisioning.py:331-333 | a line's key ends at its first colon, the rest is its value, both trimmed |
| WifiList.ListingReadsBack | packages/companion/src/companion/services/provisioning.py:325-343 | reading what nmcli prints for any networks gives those networks back, in order, field by field |
| WifiList.OfferedAsHeard | packages/companion/src/companion/services/provisioning.py:313-360 | from nmcli's text to the list: exactly the first entry of every name worth listing is offered, with its signal (0 if unreadable) and its security (none for "--") |
| WifiList.ParseWifiList | packages/companion/src/companion/services/provisioning.py:325-360 | the list returned is the stable sort of the first record of each network worth listing |
| WifiList.ChoiceList | packages/companion/src/companion/services/provisioning.py:345-360 | networks are distinct, named and not excluded, each from its first record and none missing, strongest first, ties in listing order |
| WifiList.SortedMeaning | packages/companion/src/companion/services/provisioning.py:360 | falling signal, same networks, equal ones in their old order |
| AuthorizedKeys.ValidateBlock | packages/companion/src/companion/services/ssh_access.py:90-117 | all of the block's lines, trimmed and in order, or none of them |
| AuthorizedKeys.KeyLineMeaning | packages/companion/src/companion/services/ssh_access.py:62-71 | a line is accepted exactly if it is a known type, a base64 body that decodes to at least 32 bytes and perhaps a printable comment, in at most 8192 characters |
| AuthorizedKeys.GoodBlock | packages/companion/src/companion/services/ssh_access.py:90-117 | a block of one to twenty such lines is accepted whole, any other is refused |
| AuthorizedKeys.LinesOneByOne | packages/companion/src/companion/services/ssh_access.py:97 | wherever it stands, a line counts trimmed, and not at all if nothing is left of it |
| AuthorizedKeys.JoinedBlock | packages/companion/src/companion/services/ssh_access.py:90-117 | good trimmed lines joined into a block are accepted unchanged |
| AuthorizedKeys.Revalidates | packages/companion/src/companion/services/ssh_access.py:90-117 | the accepted lines, joined and validated again, are accepted unchanged |
| AuthorizedKeys.NoOptions | packages/companion/src/companion/services/ssh_access.py:62-71 | every accepted line starts with a known key type and a space: no option can stand before it |
| Text.SplitOfJoin | packages/companion/src/companion/services/ssh_access.py:97 | joining non-empty unbroken lines and splitting again gives them back |
| Text.StripSplits | packages/companion/src/companion/services/ssh_access.py:97 | trimming takes off white space at both ends, nothing else, and leaves none there |
| Text.SplitAtBreak | packages/companion/src/companion/services/ssh_access.py:97 | the first line ends at the first line break, of whichever kind; CR LF is one break |

## Left out

- Cancellation and shutdown: `DeviceManager._disconnect`, cancelled sleeps and cancelled writes; a cancel in the middle of the cleanup disconnect or of a write on its worker thread can break what is proved here.
- D-Bus, bleak, subprocesses, nmcli, wpctl, librespot, HTTP and WebSocket plumbing: only their outcomes appear, as inputs.
- Scheduling delay: a wait that times out or is woken resumes at that very instant; what happens between the two belongs to the next suspension.
- BleakTransport: its inbox delivers notifications in arrival order; the receive loop is modelled from there on. Connect errors other than "could not connect" are the supervisor's business.
- `forget` while a connect or check is in flight: allowed only at waits, where the original's assertions hold.
- AudioTurns.WaitLength: does not claim that wakes are never lost, because a wait clears earlier ones; a wake that arrives during a helper process is cleared by the wait that follows.
- AudioService start-up before the first address, log flags and the retry reason text.
- DeviceManagers.DeviceManager.BeginReset: a press while the lock is taken does nothing at once; the original queues it, and what it does then is `RecoveryHistory.QueuedPresses`.
- DeviceManagers.DeviceManager.CommandPower: a power write completes only while a device is held, so one that succeeds while its connection is being torn down is not modelled; nor are the wait for a reconnect before it and the volume commands.
- Connected, Disconnected and PowerChanged events: only the SpeakerStateChanged stream is modelled.
- HealthCheck.StandbyCadence: counts the intervals of verified cycles, not the time the probes themselves take.
- Battery.FloatingPointAgrees: a floating-point quotient is any real number with the error bounds of IEEE 754 division; representations and capacities beyond 32 bits are not modelled.
- Battery.Status: the deadline is the end of the list of notifications; the request write is not modelled.
- Battery text decoding beyond ASCII with a replacement character, and the firmware version text.
- SpotifyGate: an exit of the Spotify process itself, which ends the gate and restarts it under the supervisor.
- ConfigStores: a reader outside the lock that sets aside a file just replaced by a concurrent update, and refusals of the operating system inside cleanup; the disk model is one directory with two names, synced or not.
- Supervisors: policies that exit the process, and the start-up and cancellation of the monitor loops.
- WifiList: what Python's `int` accepts is a parameter. AuthorizedKeys: so is the number of bytes a base64 body decodes to.
- Pairing, audio focus, authentication, the portal pages and the provisioning state machine: single-branch logic that would only add easy statements.
