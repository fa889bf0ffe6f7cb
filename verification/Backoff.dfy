/** Capped exponential delays, as the supervisor and the device manager use them. */
module Backoff {
  import opened Prelude

  /** A delay, stretched. Named so that proofs can leave the product alone. */
  function Times(delay: real, factor: real): real {
    delay * factor
  }

  /** first * factor^k */
  function Grown(first: real, factor: real, k: nat): real {
    if k == 0 then first else Times(Grown(first, factor, k - 1), factor)
  }

  /** The delay after k consecutive advances from `first`: multiply, then cap. */
  function Advanced(first: real, factor: real, cap: real, k: nat): real {
    if k == 0 then first else Min(Times(Advanced(first, factor, cap, k - 1), factor), cap)
  }

  /** The closed form holds at every step exactly when the first delay is within the
      cap: a larger first delay is slept in full. From a factor of one up, all later
      delays have the closed form either way. */
  lemma {:induction false} ClosedForm(first: real, factor: real, cap: real, k: nat)
    requires 0.0 <= first && 0.0 <= factor && 0.0 <= cap
    ensures first <= cap || (k > 0 && 1.0 <= factor) ==>
              Advanced(first, factor, cap, k) == Min(Grown(first, factor, k), cap)
    ensures first > cap && k == 0 ==> Advanced(first, factor, cap, k) != Min(Grown(first, factor, k), cap)
  {
    hide Times;
    if k > 0 {
      ClosedForm(first, factor, cap, k - 1);
      if factor < 1.0 {
        Shrinks(first, factor, k - 1);
      } else if k > 1 {
        CapStep(Grown(first, factor, k - 1), factor, cap);
      }
    }
  }

  lemma {:induction false} Shrinks(x: real, f: real, k: nat)
    requires 0.0 <= x && 0.0 <= f < 1.0
    ensures 0.0 <= Grown(x, f, k) <= x
  {
    hide Times;
    if k > 0 {
      Shrinks(x, f, k - 1);
      TimesShrinks(Grown(x, f, k - 1), f);
    }
  }

  lemma TimesShrinks(p: real, f: real)
    requires 0.0 <= p && 0.0 <= f < 1.0
    ensures 0.0 <= Times(p, f) <= p
  {
    Product(p, f);
    Product(p, 1.0 - f);
    assert p * (1.0 - f) == p - p * f;
  }

  lemma Product(x: real, y: real)
    requires 0.0 <= x && 0.0 <= y
    ensures 0.0 <= x * y
  {
  }

  lemma CapStep(p: real, f: real, cap: real)
    requires 1.0 <= f && 0.0 <= cap
    ensures Min(Times(Min(p, cap), f), cap) == Min(Times(p, f), cap)
  {
    Scale(1.0, f, cap);
    if p >= cap {
      Scale(cap, p, f);
    }
  }

  lemma Scale(x: real, y: real, f: real)
    requires 0.0 <= f && x <= y
    ensures x * f <= y * f
  {
    assert (y - x) * f >= 0.0;
  }
}

/** The supervisor of long-running jobs: restart after every exit, with a delay that
    grows until a run has been stable long enough. */
module Supervisors {
  import opened Prelude
  import opened Backoff

  datatype Policy = Policy(initialDelay: Duration, maxDelay: Duration, factor: Duration, resetAfter: Duration)

  /** Runs, most recent last, since (and including) the last stable one. */
  function ShortRuns(policy: Policy, runtimes: seq<Duration>): nat {
    if runtimes == [] then 0
    else if runtimes[|runtimes| - 1] >= policy.resetAfter then 1
    else ShortRuns(policy, runtimes[..|runtimes| - 1]) + 1
  }

  class Entry {
    const policy: Policy
    var delay: real
    var restartCount: nat
    ghost var runtimes: seq<Duration>

    constructor (policy: Policy)
      ensures Valid() && this.policy == policy && runtimes == []
    {
      this.policy := policy;
      delay, restartCount, runtimes := policy.initialDelay, 0, [];
    }

    /** The backoff state is a function of the runs so far. */
    ghost predicate Valid()
      reads this
    {
      && restartCount == ShortRuns(policy, runtimes)
      && delay == Advanced(policy.initialDelay, policy.factor, policy.maxDelay, restartCount)
    }

    /** `consume_delay`: the sleep before this restart. */
    method ConsumeDelay(runtime: Duration) returns (sleep: real)
      requires Valid()
      modifies this
      ensures Valid() && runtimes == old(runtimes) + [runtime]
      ensures sleep == Advanced(policy.initialDelay, policy.factor, policy.maxDelay, ShortRuns(policy, runtimes) - 1)
    {
      hide Times;
      if runtime >= policy.resetAfter {
        delay := policy.initialDelay;
        restartCount := 0;
      }
      sleep := delay;
      assert sleep == Advanced(policy.initialDelay, policy.factor, policy.maxDelay, restartCount);
      delay := Min(Times(sleep, policy.factor), policy.maxDelay);
      restartCount := restartCount + 1;
      assert (runtimes + [runtime])[..|runtimes|] == runtimes;
      runtimes := runtimes + [runtime];
    }
  }

  /** How one run of a supervised job ended: an exception, or a return that a
      long-running job should never make. */
  datatype Exit = Exit(runtime: Duration, crashed: bool)

  function Runtimes(exits: seq<Exit>): (r: seq<Duration>)
    ensures |r| == |exits|
  {
    seq(|exits|, i requires 0 <= i < |exits| => exits[i].runtime)
  }

  /** Time taken by runs and the sleeps after them. */
  function Elapsed(exits: seq<Exit>, sleeps: seq<real>): real
    requires |exits| == |sleeps|
  {
    if exits == [] then 0.0
    else
      var n := |exits| - 1;
      Elapsed(exits[..n], sleeps[..n]) + (exits[n].runtime + sleeps[n])
  }

  /** The sleep after the last of these runs. */
  function SleepAfter(policy: Policy, exits: seq<Exit>): real
    requires exits != []
  {
    Advanced(policy.initialDelay, policy.factor, policy.maxDelay, ShortRuns(policy, Runtimes(exits)) - 1)
  }

  /** Every run is followed by the sleep the policy calls for. */
  ghost predicate Obeys(policy: Policy, exits: seq<Exit>, sleeps: seq<real>) {
    |sleeps| == |exits| &&
    (exits != [] ==>
       var n := |exits| - 1;
       Obeys(policy, exits[..n], sleeps[..n]) && sleeps[n] == SleepAfter(policy, exits))
  }

  class Monitor {
    const entry: Entry
    var running: bool
    var runningSince: Option<Time>
    var lastFailureAt: Option<Time>
    var lastWasCrash: bool
    var totalFailures: nat
    var clock: Time

    constructor (entry: Entry, clock: Time)
      ensures this.entry == entry && this.clock == clock && totalFailures == 0 && lastFailureAt.None? && !running
    {
      this.entry, this.clock := entry, clock;
      running, runningSince, lastFailureAt, lastWasCrash, totalFailures := false, None, None, false, 0;
    }

    /** One run of the job, from its start to the end of the sleep that follows it. */
    method RunOnce(exit: Exit) returns (delay: real)
      requires entry.Valid()
      modifies this, entry
      ensures entry.Valid() && entry.runtimes == old(entry.runtimes) + [exit.runtime]
      ensures var p := entry.policy;
              delay == Advanced(p.initialDelay, p.factor, p.maxDelay, ShortRuns(p, entry.runtimes) - 1)
      ensures clock == old(clock) + (exit.runtime + delay) && lastFailureAt == Some(old(clock) + exit.runtime)
      ensures !running && runningSince.None? && lastWasCrash == exit.crashed && totalFailures == old(totalFailures) + 1
    {
      hide Advanced, ShortRuns, Entry.Valid;
      var started := clock;
      running, runningSince := true, Some(started);
      clock := clock + exit.runtime;
      lastWasCrash := exit.crashed;
      var now := clock;
      running, runningSince := false, None;
      lastFailureAt := Some(now);
      totalFailures := totalFailures + 1;
      delay := entry.ConsumeDelay(now - started);
      clock := clock + delay;
    }

    /** `_supervise` over the exits that happen: restart after every one, sleeping what
        the policy says, and report the failure faithfully. */
    method Supervise(exits: seq<Exit>) returns (sleeps: seq<real>)
      requires entry.Valid() && entry.runtimes == [] && totalFailures == 0
      modifies this, entry
      ensures entry.Valid() && Obeys(entry.policy, exits, sleeps)
      ensures clock == old(clock) + Elapsed(exits, sleeps)
      ensures totalFailures == |exits|
      ensures exits != [] ==> !running && runningSince.None?
      ensures exits != [] ==>
                && lastWasCrash == exits[|exits| - 1].crashed
                && lastFailureAt == Some(clock - sleeps[|exits| - 1])
    {
      sleeps := [];
      ghost var start := clock;
      assert exits[..0] == [] && Runtimes([]) == [] && Elapsed([], []) == 0.0;
      hide Runtimes, Elapsed, Obeys, ShortRuns, Advanced, SleepAfter, Entry.Valid;
      for i := 0 to |exits|
        invariant entry.Valid() && entry.runtimes == Runtimes(exits[..i]) && |sleeps| == i == totalFailures
        invariant Obeys(entry.policy, exits[..i], sleeps)
        invariant clock == start + Elapsed(exits[..i], sleeps)
        invariant i > 0 ==> !running && runningSince.None? && lastWasCrash == exits[i - 1].crashed
        invariant i > 0 ==> lastFailureAt == Some(clock - sleeps[i - 1])
      {
        var delay := RunOnce(exits[i]);
        OneMore(entry.policy, exits, i, sleeps, delay);
        sleeps := sleeps + [delay];
      }
      assert exits[..|exits|] == exits;
    }
  }

  lemma OneMore(policy: Policy, exits: seq<Exit>, i: nat, sleeps: seq<real>, delay: real)
    requires i < |exits| && |sleeps| == i
    ensures var runtimes := Runtimes(exits[..i]) + [exits[i].runtime];
            && Runtimes(exits[..i + 1]) == runtimes
            && SleepAfter(policy, exits[..i + 1]) ==
               Advanced(policy.initialDelay, policy.factor, policy.maxDelay, ShortRuns(policy, runtimes) - 1)
    ensures Elapsed(exits[..i + 1], sleeps + [delay]) == Elapsed(exits[..i], sleeps) + (exits[i].runtime + delay)
    ensures Obeys(policy, exits[..i], sleeps) && delay == SleepAfter(policy, exits[..i + 1]) ==>
              Obeys(policy, exits[..i + 1], sleeps + [delay])
  {
    hide Advanced, ShortRuns;
    assert exits[..i + 1][..i] == exits[..i];
    assert (sleeps + [delay])[..|sleeps|] == sleeps;
    assert Runtimes(exits[..i + 1]) == Runtimes(exits[..i]) + [exits[i].runtime];
  }

  // ---- Crash loops --------------------------------------------------------

  /** initialDelay * factor^k, capped. */
  function ClosedDelay(policy: Policy, k: nat): real {
    Min(Grown(policy.initialDelay, policy.factor, k), policy.maxDelay)
  }

  /** n capped delays in a row, the first of them the k-th. */
  function CrashSleep(policy: Policy, k: nat, n: nat): real {
    if n == 0 then 0.0 else CrashSleep(policy, k, n - 1) + ClosedDelay(policy, k + n - 1)
  }

  function Sum(s: seq<real>): real {
    if s == [] then 0.0 else Sum(s[..|s| - 1]) + s[|s| - 1]
  }

  /** The delay follows the closed form in the number of runs since the last stable one,
      from the start or ever after: exactly, unless the first delay exceeds the cap. A
      stable run is always followed by the initial delay. */
  lemma CrashLoopDelay(policy: Policy, exits: seq<Exit>)
    requires exits != []
    ensures var k: nat := ShortRuns(policy, Runtimes(exits)) - 1;
            && (policy.initialDelay <= policy.maxDelay || (k > 0 && 1.0 <= policy.factor) ==>
                SleepAfter(policy, exits) == ClosedDelay(policy, k))
            && (k == 0 ==> SleepAfter(policy, exits) == policy.initialDelay)
            && (exits[|exits| - 1].runtime >= policy.resetAfter ==> k == 0)
  {
    hide Grown, Min;
    ClosedForm(policy.initialDelay, policy.factor, policy.maxDelay, ShortRuns(policy, Runtimes(exits)) - 1);
  }

  /** `before` ends where a crash loop may be counted from: nowhere, or in a stable run. */
  predicate Settled(policy: Policy, before: seq<Exit>) {
    before == [] || before[|before| - 1].runtime >= policy.resetAfter
  }

  predicate AllShort(policy: Policy, exits: seq<Exit>) {
    forall i | 0 <= i < |exits| :: exits[i].runtime < policy.resetAfter
  }

  function Base(before: seq<Exit>): nat {
    if before == [] then 0 else 1
  }

  lemma {:induction false} ShortRunsCount(policy: Policy, before: seq<Exit>, shorts: seq<Exit>)
    requires Settled(policy, before) && AllShort(policy, shorts)
    ensures ShortRuns(policy, Runtimes(before + shorts)) == Base(before) + |shorts|
    decreases |shorts|
  {
    var all := before + shorts;
    if shorts == [] {
      assert all == before;
    } else {
      var init := shorts[..|shorts| - 1];
      ShortRunsCount(policy, before, init);
      assert Runtimes(all)[..|all| - 1] == Runtimes(before + init);
      assert Runtimes(all)[|all| - 1] == shorts[|shorts| - 1].runtime;
    }
  }

  /** n short runs in a row, from the start or after a stable run, are slept through for
      n capped delays of the closed form, so the clock advances by at least their sum.
      Only a first delay above the cap makes it more. */
  lemma {:induction false} CrashLoopTakes(
    policy: Policy, before: seq<Exit>, earlier: seq<real>, shorts: seq<Exit>, sleeps: seq<real>)
    requires Settled(policy, before) && AllShort(policy, shorts) && |earlier| == |before| && |sleeps| == |shorts|
    requires Obeys(policy, before + shorts, earlier + sleeps)
    ensures var n, k := |shorts|, Base(before);
            && (policy.initialDelay <= policy.maxDelay || (k > 0 && 1.0 <= policy.factor) ==>
                Sum(sleeps) == CrashSleep(policy, k, n))
            && (policy.initialDelay <= policy.maxDelay || 1.0 <= policy.factor ==> Sum(sleeps) >= CrashSleep(policy, k, n))
            && Elapsed(before + shorts, earlier + sleeps) >= Elapsed(before, earlier) + Sum(sleeps)
    decreases |shorts|
  {
    if shorts == [] {
      assert before + shorts == before && earlier + sleeps == earlier;
    } else {
      var n := |shorts| - 1;
      CrashLoopStep(before, earlier, shorts, sleeps);
      CrashLoopTakes(policy, before, earlier, shorts[..n], sleeps[..n]);
      ShortRunsCount(policy, before, shorts);
      CrashLoopDelay(policy, before + shorts);
      hide ShortRuns, Runtimes, SleepAfter, Grown, Settled, AllShort, Elapsed;
    }
  }

  lemma CrashLoopStep(before: seq<Exit>, earlier: seq<real>, shorts: seq<Exit>, sleeps: seq<real>)
    requires shorts != [] && |earlier| == |before| && |sleeps| == |shorts|
    ensures var m, n := |before + shorts| - 1, |shorts| - 1;
            && (before + shorts)[..m] == before + shorts[..n] && (earlier + sleeps)[..m] == earlier + sleeps[..n]
            && Elapsed(before + shorts, earlier + sleeps) ==
               Elapsed(before + shorts[..n], earlier + sleeps[..n]) + (shorts[n].runtime + sleeps[n])
  {
    AppendInit(before, shorts);
    AppendInit(earlier, sleeps);
  }

  lemma AppendInit<T>(a: seq<T>, b: seq<T>)
    requires b != []
    ensures (a + b)[..|a + b| - 1] == a + b[..|b| - 1] && (a + b)[|a + b| - 1] == b[|b| - 1]
  {
  }
}
