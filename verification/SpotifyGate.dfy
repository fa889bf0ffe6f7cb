/** `_gate_spotify_on_audio`: Spotify Connect is advertised only while the appliance
    can play, with a grace period for dropouts. The gate alone does not guarantee
    that; it relies on AudioService never repeating itself. */
module SpotifyGate {
  import opened Prelude
  import opened EventBus
  import opened AudioHistory
  import opened AudioServices

  const GRACE := 300.0

  /** A readiness event, at the moment the gate takes it off its queue. */
  datatype Arrival = Arrival(at: Time, ready: bool)

  /** One Spotify task, from its creation to its cancellation, if it was cancelled. */
  datatype Session = Session(start: Time, stop: Option<Time>) {
    predicate Covers(x: Time) {
      start <= x && (stop.Some? ==> x < stop.value)
    }

    predicate EndsBefore(later: Session) {
      stop.Some? && start <= stop.value <= later.start
    }
  }

  ghost predicate Sorted(a: seq<Arrival>) {
    forall i, j | 0 <= i < j < |a| :: a[i].at <= a[j].at
  }

  ghost predicate Alternating(s: seq<bool>) {
    forall i | 0 < i < |s| :: s[i] != s[i - 1]
  }

  function Values(a: seq<Arrival>): (v: seq<bool>)
    ensures |v| == |a|
  {
    seq(|a|, i requires 0 <= i < |a| => a[i].ready)
  }

  /** The k-th event is the last one taken by time x. */
  ghost predicate InForce(a: seq<Arrival>, k: int, x: Time) {
    0 <= k < |a| && a[k].at <= x && (k + 1 < |a| ==> x < a[k + 1].at)
  }

  /** What the gate is for: the last word was "ready", or it was "not ready", took
      something away, and is less than the grace period old. */
  ghost predicate Wanted(a: seq<Arrival>, x: Time) {
    exists k :: InForce(a, k, x) && (a[k].ready || (k > 0 && x < a[k].at + 300.0))
  }

  ghost predicate Live(sessions: seq<Session>, x: Time) {
    exists s | s in sessions :: s.Covers(x)
  }

  /** No two Spotify tasks overlap. */
  ghost predicate Apart(sessions: seq<Session>) {
    forall i, j | 0 <= i < j < |sessions| :: sessions[i].EndsBefore(sessions[j])
  }

  function Closing(task: Option<Time>): seq<Session> {
    if task.Some? then [Session(task.value, None)] else []
  }

  /** The gate's loop from its i-th event on, watched until `end`. */
  function Play(a: seq<Arrival>, end: Time, i: nat, task: Option<Time>): seq<Session>
    requires i <= |a|
    decreases |a| - i
  {
    if i == |a| then Closing(task)
    else if a[i].ready then Play(a, end, i + 1, if task.Some? then task else Some(a[i].at))
    else if task.None? then Play(a, end, i + 1, None)
    else
      var deadline := a[i].at + GRACE;
      if i + 1 < |a| && a[i + 1].at <= deadline then Play(a, end, i + 2, task)
      else if i + 1 == |a| && end < deadline then Closing(task)
      else [Session(task.value, Some(deadline))] + Play(a, end, i + 1, None)
  }

  method Gate(a: seq<Arrival>, end: Time) returns (sessions: seq<Session>)
    ensures sessions == Play(a, end, 0, None)
  {
    sessions := [];
    var i, spotifyTask := 0, None;
    while i < |a|
      invariant i <= |a|
      invariant sessions + Play(a, end, i, spotifyTask) == Play(a, end, 0, None)
    {
      var event := a[i];
      i := i + 1;
      if event.ready {
        if spotifyTask.None? {
          spotifyTask := Some(event.at);
        }
      } else if spotifyTask.Some? {
        var deadline := event.at + GRACE;
        if i < |a| && a[i].at <= deadline {
          i := i + 1;
        } else if i == |a| && end < deadline {
          break;
        } else {
          ghost var later := Play(a, end, i, None);
          var session := Session(spotifyTask.value, Some(deadline));
          assert sessions + ([session] + later) == (sessions + [session]) + later;
          sessions := sessions + [session];
          spotifyTask := None;
        }
      }
    }
    if spotifyTask.Some? {
      sessions := sessions + [Session(spotifyTask.value, None)];
    }
  }

  // ---- At most one task, whatever the events ------------------------------

  lemma {:induction false} PlayApart(a: seq<Arrival>, end: Time, i: nat, task: Option<Time>)
    requires Sorted(a) && i <= |a|
    requires task.Some? ==> forall j | i <= j < |a| :: task.value <= a[j].at
    ensures Apart(Play(a, end, i, task))
    ensures task.Some? ==> forall s | s in Play(a, end, i, task) :: task.value <= s.start
    ensures task.None? && i < |a| ==> forall s | s in Play(a, end, i, task) :: a[i].at <= s.start
    ensures task.None? && i == |a| ==> Play(a, end, i, task) == []
    decreases |a| - i
  {
    if i < |a| {
      if a[i].ready {
        PlayApart(a, end, i + 1, if task.Some? then task else Some(a[i].at));
      } else if task.None? {
        PlayApart(a, end, i + 1, None);
      } else if i + 1 < |a| && a[i + 1].at <= a[i].at + GRACE {
        PlayApart(a, end, i + 2, task);
      } else if i + 1 < |a| || a[i].at + GRACE <= end {
        PlayApart(a, end, i + 1, None);
        ApartCons(Session(task.value, Some(a[i].at + GRACE)), Play(a, end, i + 1, None));
      }
    }
  }

  lemma ApartCons(s: Session, later: seq<Session>)
    requires Apart(later) && s.stop.Some? && s.start <= s.stop.value
    requires forall t | t in later :: s.stop.value <= t.start
    ensures Apart([s] + later)
  {
  }

  /** At most one Spotify task is ever live. */
  lemma AtMostOneTask(a: seq<Arrival>, end: Time, i: nat, j: nat, x: Time)
    requires Sorted(a)
    requires i < |Play(a, end, 0, None)| && j < |Play(a, end, 0, None)|
    requires Play(a, end, 0, None)[i].Covers(x) && Play(a, end, 0, None)[j].Covers(x)
    ensures i == j
  {
    PlayApart(a, end, 0, None);
    hide Play;
  }

  // ---- Exactly when it is live, on any stream -----------------------------

  /** What an event is to the gate: a "ready"; a "not ready" with no task to stop; one
      that starts a countdown; one that a running countdown takes for its answer. */
  datatype Role = Starts | Idles | Counts | Swallowed

  function RoleOf(a: seq<Arrival>, k: nat): Role
    requires k < |a|
  {
    if a[k].ready then Starts
    else if k == 0 then Idles
    else
      match RoleOf(a, k - 1)
      case Starts => Counts
      case Idles => Idles
      case Counts => if a[k].at <= a[k - 1].at + 300.0 then Swallowed else Idles
      case Swallowed => Counts
  }

  /** Whether Spotify is live at x, while the k-th event is in force. */
  predicate Holds(a: seq<Arrival>, k: nat, x: Time)
    requires k < |a|
  {
    match RoleOf(a, k)
    case Starts => true
    case Idles => false
    case Counts => x < a[k].at + 300.0
    case Swallowed => true
  }

  ghost predicate Served(a: seq<Arrival>, x: Time) {
    exists k :: InForce(a, k, x) && Holds(a, k, x)
  }

  /** The gate between two events: either a task runs and no countdown, or no task runs
      and any countdown has expired. */
  ghost predicate AtRest(a: seq<Arrival>, i: nat, task: Option<Time>, from: Time) {
    && i <= |a|
    && (task.Some? ==> 0 < i && RoleOf(a, i - 1) in {Starts, Swallowed} && task.value <= a[i - 1].at == from)
    && (task.None? && i > 0 ==>
          || (RoleOf(a, i - 1) == Idles && a[i - 1].at == from)
          || (RoleOf(a, i - 1) == Counts && a[i - 1].at + GRACE == from && (i < |a| ==> from < a[i].at)))
    && (i == 0 && |a| > 0 ==> from <= a[0].at)
  }

  lemma LiveCons(s: Session, sessions: seq<Session>, x: Time)
    ensures Live([s] + sessions, x) <==> s.Covers(x) || Live(sessions, x)
  {
  }

  /** While a task runs, its session covers every moment up to the next event. */
  lemma {:induction false} TaskPersists(a: seq<Arrival>, end: Time, i: nat, task: Time, x: Time)
    requires Sorted(a) && i <= |a| && task <= x
    requires forall j | i <= j < |a| :: x <= a[j].at
    ensures Live(Play(a, end, i, Some(task)), x)
    decreases |a| - i
  {
    var p := Play(a, end, i, Some(task));
    if i == |a| {
      assert p[0].Covers(x);
    } else if a[i].ready {
      TaskPersists(a, end, i + 1, task, x);
    } else if i + 1 < |a| && a[i + 1].at <= a[i].at + GRACE {
      TaskPersists(a, end, i + 2, task, x);
    } else {
      assert p[0].Covers(x);
    }
  }

  lemma NothingBefore(a: seq<Arrival>, end: Time, i: nat, task: Option<Time>, x: Time)
    requires Sorted(a) && i <= |a|
    requires forall j | i <= j < |a| :: x < a[j].at
    requires task.Some? ==> x < task.value && forall j | i <= j < |a| :: task.value <= a[j].at
    ensures !Live(Play(a, end, i, task), x)
  {
    PlayApart(a, end, i, task);
    hide Play;
  }

  /** The event in force decides. */
  lemma ServedBy(a: seq<Arrival>, k: nat, x: Time)
    requires Sorted(a) && InForce(a, k, x)
    ensures Served(a, x) <==> Holds(a, k, x)
  {
    hide Holds;
    forall j | InForce(a, j, x)
      ensures j == k
    {
    }
  }

  /** Between events, what is served is what the state at rest says. */
  lemma RestIsServed(a: seq<Arrival>, i: nat, task: Option<Time>, from: Time, x: Time)
    requires Sorted(a) && AtRest(a, i, task, from) && from <= x && (i < |a| ==> x < a[i].at)
    ensures Served(a, x) <==> task.Some?
  {
    if i > 0 {
      ServedBy(a, i - 1, x);
    }
  }

  lemma {:induction false} PlayIsServed(a: seq<Arrival>, end: Time, i: nat, task: Option<Time>, from: Time, x: Time)
    requires Sorted(a) && AtRest(a, i, task, from) && from <= x <= end
    ensures Live(Play(a, end, i, task), x) <==> Served(a, x)
    decreases |a| - i, 1
  {
    hide Served, Live;
    if i == |a| || x < a[i].at {
      RestIsServed(a, i, task, from, x);
      if task.Some? {
        TaskPersists(a, end, i, task.value, x);
      } else {
        NothingBefore(a, end, i, None, x);
      }
    } else if a[i].ready {
      PlayIsServed(a, end, i + 1, if task.Some? then task else Some(a[i].at), a[i].at, x);
    } else if task.None? {
      PlayIsServed(a, end, i + 1, None, a[i].at, x);
    } else {
      CountdownIsServed(a, end, i, task.value, x);
    }
  }

  lemma {:induction false} CountdownIsServed(a: seq<Arrival>, end: Time, i: nat, task: Time, x: Time)
    requires Sorted(a) && i < |a| && RoleOf(a, i) == Counts && task <= a[i].at <= x <= end
    ensures Live(Play(a, end, i, Some(task)), x) <==> Served(a, x)
    decreases |a| - i, 0
  {
    hide Served, Live;
    var deadline := a[i].at + GRACE;
    if i + 1 < |a| && a[i + 1].at <= deadline {
      if x < a[i + 1].at {
        ServedBy(a, i, x);
        TaskPersists(a, end, i + 2, task, x);
      } else {
        PlayIsServed(a, end, i + 2, Some(task), a[i + 1].at, x);
      }
    } else {
      if x < deadline {
        ServedBy(a, i, x);
      }
      if i + 1 == |a| && end < deadline {
        TaskPersists(a, end, |a|, task, x);
      } else {
        LiveCons(Session(task, Some(deadline)), Play(a, end, i + 1, None), x);
        if x >= deadline {
          PlayIsServed(a, end, i + 1, None, deadline, x);
        }
      }
    }
  }

  /** On every stream, repeated or not: Spotify is live exactly when the last event was
      a "ready", or a "not ready" that swallowed a countdown, or one that started a
      countdown less than 300 s ago. */
  lemma GateIsExact(a: seq<Arrival>, end: Time, x: Time)
    requires Sorted(a) && x <= end
    ensures Live(Play(a, end, 0, None), x) <==> Served(a, x)
  {
    var from := if a == [] || x < a[0].at then x else a[0].at;
    PlayIsServed(a, end, 0, None, from, x);
  }

  lemma {:induction false} AlternatingRoles(a: seq<Arrival>, k: nat)
    requires Alternating(Values(a)) && k < |a|
    ensures RoleOf(a, k) == if a[k].ready then Starts else if k > 0 then Counts else Idles
  {
    if k > 0 {
      AlternatingRoles(a, k - 1);
      assert Values(a)[k] != Values(a)[k - 1];
    }
  }

  /** On an alternating stream that is exactly when it is wanted. */
  lemma ExactExclusion(a: seq<Arrival>, end: Time, x: Time)
    requires Sorted(a) && Alternating(Values(a)) && x <= end
    ensures Live(Play(a, end, 0, None), x) <==> Wanted(a, x)
  {
    GateIsExact(a, end, x);
    forall k | InForce(a, k, x)
      ensures Holds(a, k, x) <==> a[k].ready || (k > 0 && x < a[k].at + 300.0)
    {
      AlternatingRoles(a, k);
    }
    hide Live, Play, RoleOf;
  }

  // ---- Exactly when it fails ----------------------------------------------

  /** Events s to k are one unbroken "not ready" spell, and s took something away. */
  ghost predicate Spell(a: seq<Arrival>, s: int, k: int) {
    0 < s <= k < |a| && a[s - 1].ready && forall j | s <= j <= k :: !a[j].ready
  }

  /** Spotify is live 300 s or more into the spell that s began. */
  ghost predicate OverstaysAt(a: seq<Arrival>, end: Time, s: int, k: int, x: Time) {
    Spell(a, s, k) && InForce(a, k, x) && a[s].at + 300.0 <= x <= end && Live(Play(a, end, 0, None), x)
  }

  ghost predicate Overstays(a: seq<Arrival>, end: Time, s: int) {
    exists k, x :: OverstaysAt(a, end, s, k, x)
  }

  /** When the countdown s began runs out, the spell still lasts, and its last event so
      far is a further "not ready" that came after s or swallowed a countdown. */
  ghost predicate MissedBy(a: seq<Arrival>, s: int, k: int) {
    Spell(a, s, k) && s < k && InForce(a, k, a[s].at + 300.0) && ((k - s) % 2 == 1 || a[s].at < a[k].at)
  }

  ghost predicate Missed(a: seq<Arrival>, s: int) {
    exists k :: MissedBy(a, s, k)
  }

  lemma {:induction false} RolesInGrace(a: seq<Arrival>, s: nat, m: nat)
    requires Sorted(a) && Spell(a, s, m) && a[m].at <= a[s].at + GRACE
    ensures RoleOf(a, m) == if (m - s) % 2 == 0 then Counts else Swallowed
    decreases m
  {
    if s < m {
      RolesInGrace(a, s, m - 1);
    }
  }

  lemma {:induction false} IdleStaysIdle(a: seq<Arrival>, k: nat, m: nat)
    requires k <= m < |a| && RoleOf(a, k) == Idles && forall j | k <= j <= m :: !a[j].ready
    ensures RoleOf(a, m) == Idles
    decreases m
  {
    if k < m {
      IdleStaysIdle(a, k, m - 1);
    }
  }

  /** The gate overstays a spell if and only if it misses it: a second "not ready" inside
      the grace period ends the countdown, and no "ready" follows by its deadline. */
  lemma OverstaysExactlyWhenMissed(a: seq<Arrival>, end: Time, s: nat)
    requires Sorted(a) && s < |a| && a[s].at + 300.0 <= end
    ensures Overstays(a, end, s) <==> Missed(a, s)
  {
    if k :| MissedBy(a, s, k) {
      MissedOverstays(a, end, s, k);
    }
    if k, x :| OverstaysAt(a, end, s, k, x) {
      var d := OverstayIsMissed(a, end, s, k, x);
    }
    hide MissedBy, OverstaysAt;
  }

  lemma MissedOverstays(a: seq<Arrival>, end: Time, s: nat, k: nat)
    requires Sorted(a) && s < |a| && a[s].at + 300.0 <= end && MissedBy(a, s, k)
    ensures OverstaysAt(a, end, s, k, a[s].at + 300.0)
  {
    var x := a[s].at + GRACE;
    RolesInGrace(a, s, k);
    ServedBy(a, k, x);
    GateIsExact(a, end, x);
    hide Live, Play, RoleOf, Served;
  }

  lemma OverstayIsMissed(a: seq<Arrival>, end: Time, s: nat, k: nat, x: Time) returns (d: nat)
    requires Sorted(a) && OverstaysAt(a, end, s, k, x)
    ensures MissedBy(a, s, d)
  {
    var deadline := a[s].at + GRACE;
    GateIsExact(a, end, x);
    ServedBy(a, k, x);
    d := LastBy(a, s, k, deadline);
    RolesInGrace(a, s, d);
    hide Live, Play, Served;
    if !MissedBy(a, s, d) {
      // the countdown of d, no later than s, has run out before the next event
      if d < k {
        IdleStaysIdle(a, d + 1, k);
      }
      assert false;
    }
  }

  /** The event of the spell in force at its deadline. */
  lemma {:induction false} LastBy(a: seq<Arrival>, s: nat, k: nat, deadline: Time) returns (d: nat)
    requires Sorted(a) && s <= k < |a| && a[s].at <= deadline && (k + 1 < |a| ==> deadline < a[k + 1].at)
    ensures s <= d <= k && InForce(a, d, deadline)
    decreases k
  {
    if a[k].at <= deadline {
      d := k;
    } else {
      d := LastBy(a, s, k - 1, deadline);
    }
  }

  /** When no two events come at once, missing a spell is just this: the next event after
      s is another "not ready" within 300 s, and none within those 300 s is a "ready". */
  lemma MissedSimply(a: seq<Arrival>, s: nat)
    requires forall i, j | 0 <= i < j < |a| :: a[i].at < a[j].at
    requires 0 < s < |a|
    ensures Missed(a, s) <==>
              && a[s - 1].ready && !a[s].ready && s + 1 < |a| && a[s + 1].at <= a[s].at + 300.0
              && forall j | s < j < |a| && a[j].at <= a[s].at + 300.0 :: !a[j].ready
  {
    var deadline := a[s].at + GRACE;
    if k :| MissedBy(a, s, k) {
      assert forall j | s < j < |a| && a[j].at <= deadline :: j <= k;
    }
    var d := LastBy(a, s, |a| - 1, deadline);
    if a[s - 1].ready && !a[s].ready && s + 1 < |a| && a[s + 1].at <= deadline
      && forall j | s < j < |a| && a[j].at <= deadline :: !a[j].ready {
      assert MissedBy(a, s, d);
    }
  }

  /** A "ready", a "not ready" and within 300 s another, and then silence: from then on
      Spotify is live for ever, long after it has stopped being wanted. */
  lemma RepeatedDropoutIsMissed(a: seq<Arrival>, end: Time, x: Time)
    requires Sorted(a) && |a| >= 3 && x <= end
    requires var n := |a| - 1;
             && a[n - 2].ready && !a[n - 1].ready && !a[n].ready && a[n].at <= a[n - 1].at + 300.0
             && a[n].at + 300.0 <= x
    ensures Live(Play(a, end, 0, None), x) && !Wanted(a, x)
  {
    var n := |a| - 1;
    RolesInGrace(a, n - 1, n);
    ServedBy(a, n, x);
    GateIsExact(a, end, x);
    hide Live, Play, RoleOf, Served;
  }

  /** A full queue is all it takes: whatever its capacity, some alternating stream of
      events reaches the gate in such a form. */
  lemma DropsBreakTheGate(capacity: nat) returns (ops: seq<Op<bool>>)
    requires capacity > 0
    ensures Alternating(Offered(ops)) && |After(capacity, ops).taken| >= 3
    ensures forall a: seq<Arrival>, end: Time, x: Time | StallsWith(a, After(capacity, ops).taken, end, x) ::
              Live(Play(a, end, 0, None), x) && !Wanted(a, x)
  {
    var n;
    ops, n := DropsBreakAlternation(capacity);
    var taken := After(capacity, ops).taken;
    assert taken == Alternate(n) + [false];
    hide After, Offered;
    forall a: seq<Arrival>, end: Time, x: Time | StallsWith(a, taken, end, x)
      ensures Live(Play(a, end, 0, None), x) && !Wanted(a, x)
    {
      assert Values(a)[n - 2] && !Values(a)[n - 1] && !Values(a)[n];
      RepeatedDropoutIsMissed(a, end, x);
    }
  }

  /** The gate takes these events, the last two within the grace period, and then waits
      until more than the grace period later. */
  ghost predicate StallsWith(a: seq<Arrival>, taken: seq<bool>, end: Time, x: Time) {
    && Sorted(a) && Values(a) == taken && |a| >= 3
    && a[|a| - 1].at <= a[|a| - 2].at + 300.0 && a[|a| - 1].at + 300.0 <= x <= end
  }

  // ---- Why the gate's stream alternates -----------------------------------

  lemma RestAlternates(told: seq<bool>, n: nat)
    requires n <= |told| && forall i | 0 <= i < |told| :: told[i] == (i % 2 == 0)
    ensures Alternating([StateAfter(told, n)] + told[n..])
    ensures ([StateAfter(told, n)] + told[n..])[|told| - n] == StateAfter(told, |told|)
  {
    var s := [StateAfter(told, n)] + told[n..];
    forall i | 0 <= i < |s|
      ensures s[i] == ((n + i) % 2 == 1)
    {
    }
  }

  /** `subscribe` preloads the current state, so what each subscriber of the service is
      offered starts with the truth, never repeats itself, and ends with the truth. */
  lemma SubscriberStreamAlternates(service: AudioService, q: Queue<bool>)
    requires service.Valid() && Reachable(service.h) && q in service.bus.queues
    ensures Alternating(Offered(q.ops))
    ensures Offered(q.ops) != [] && Offered(q.ops)[|Offered(q.ops)| - 1] == service.audioReady
  {
    hide Lawful, Offered, After, Reachable;
    ToldAlternates(service.h);
    ReadyIsLastTold(service.h);
    RestAlternates(Told(service.h), q.joined);
  }

  /** The gate has taken these events from its queue, and the queue never filled up. */
  ghost predicate FedBy(q: Queue<bool>, a: seq<Arrival>)
    reads q
  {
    Sorted(a) && NeverFull(q.maxsize, q.ops) && Values(a) == After(q.maxsize, q.ops).taken
  }

  /** Audio service, bus and gate together: at every moment of every run, a gate that
      listens on one of the service's queues makes Spotify live exactly when wanted. */
  lemma SpotifyExclusion(service: AudioService, q: Queue<bool>, a: seq<Arrival>, end: Time, x: Time)
    requires service.Valid() && Reachable(service.h) && q in service.bus.queues && FedBy(q, a) && x <= end
    ensures Live(Play(a, end, 0, None), x) <==> Wanted(a, x)
  {
    SubscriberStreamAlternates(service, q);
    DeliveredAll(q.maxsize, q.ops);
    assert forall i | 0 <= i < |Values(a)| :: Values(a)[i] == Offered(q.ops)[i];
    hide Play, Wanted, Live, After, NeverFull, Offered, Reachable;
    ExactExclusion(a, end, x);
  }

  /** ... from start-up: the gate subscribes, the service runs, whoever else comes, listens
      or goes meanwhile. */
  method RunAppliance(address: Option<string>, clock: Time, turns: seq<Turn>)
    returns (service: AudioService)
    ensures service.Valid() && service.W() == AudioHistory.Run(Init(address, clock), turns)
    ensures forall q, a, end, x | q in service.bus.queues && FedBy(q, a) && x <= end ::
              Live(Play(a, end, 0, None), x) <==> Wanted(a, x)
  {
    hide AudioHistory.Run, Play, Wanted, Live, FedBy;
    service := new AudioService(address, clock);
    var queue := service.Subscribe();
    service.RunLoop(turns);
    assert Reachable(service.h) by {
      assert Prefix(service.h, AudioHistory.Run(Init(address, clock), turns).h);
    }
    hide Reachable;
    forall q, a, end, x | q in service.bus.queues && FedBy(q, a) && x <= end
      ensures Live(Play(a, end, 0, None), x) <==> Wanted(a, x)
    {
      SpotifyExclusion(service, q, a, end, x);
    }
  }
}
