/** Health checks, restart backoff, and the monitor loop that counts failures. Durations are
    nanoseconds in a 64-bit integer. */
module Health {
  import opened Wrappers
  import opened Text

  const SECOND: int := 1_000_000_000

  datatype Info = Info(state: string, health: string, exitCode: Option<int>)

  datatype Lifecycle = UnknownState | Starting | Running | Stopped | Restarting | Failed

  datatype HealthStatus = UnknownHealth | Healthy | Degraded | Unhealthy

  function LifecycleOf(info: Info): Lifecycle {
    if info.state == "running" then Running
    else if info.state == "restarting" then Restarting
    else if info.state == "created" then Starting
    else if info.state == "paused" || info.state == "exited" then Stopped
    else if info.state == "dead" then Failed
    else UnknownState
  }

  function HealthOf(info: Info): HealthStatus {
    if info.health == "healthy" then Healthy
    else if info.health == "starting" then Degraded
    else if info.health == "unhealthy" then Unhealthy
    else UnknownHealth
  }

  predicate ShouldRestart(policy: string, info: Info) {
    var down := LifecycleOf(info) == Stopped || LifecycleOf(info) == Failed;
    if policy == "always" then LifecycleOf(info) != Running || HealthOf(info) == Unhealthy
    else if policy == "on-failure" then
      if down then info.exitCode.Some? && info.exitCode.value != 0 else HealthOf(info) == Unhealthy
    else if policy == "unless-stopped" then down || HealthOf(info) == Unhealthy
    else false
  }

  /** How a container's state is classified. */
  lemma LifecycleTable(info: Info)
    ensures LifecycleOf(info) == Running <==> info.state == "running"
    ensures LifecycleOf(info) == Restarting <==> info.state == "restarting"
    ensures LifecycleOf(info) == Starting <==> info.state == "created"
    ensures LifecycleOf(info) == Stopped <==> info.state in {"paused", "exited"}
    ensures LifecycleOf(info) == Failed <==> info.state == "dead"
    ensures LifecycleOf(info) == UnknownState
      <==> info.state !in {"running", "restarting", "created", "paused", "exited", "dead"}
  {
    StatesDiffer();
  }

  lemma StatesDiffer()
    ensures "running" != "restarting" && "running" != "created" && "running" != "paused" && "running" != "exited"
    ensures "running" != "dead" && "restarting" != "created" && "restarting" != "paused" && "restarting" != "exited"
    ensures "restarting" != "dead" && "created" != "paused" && "created" != "exited" && "created" != "dead"
    ensures "paused" != "exited" && "paused" != "dead" && "exited" != "dead"
  {
    assert "running"[0] == 'r' && "running"[1] == 'u' && "restarting"[0] == 'r' && "restarting"[1] == 'e';
    assert "created"[0] == 'c' && "paused"[0] == 'p' && "exited"[0] == 'e' && "dead"[0] == 'd';
  }

  /** How its health is classified. */
  lemma HealthTable(info: Info)
    ensures HealthOf(info) == Healthy <==> info.health == "healthy"
    ensures HealthOf(info) == Degraded <==> info.health == "starting"
    ensures HealthOf(info) == Unhealthy <==> info.health == "unhealthy"
    ensures HealthOf(info) == UnknownHealth <==> info.health !in {"healthy", "starting", "unhealthy"}
  {
    assert "healthy"[0] != "starting"[0] && "healthy"[0] != "unhealthy"[0] && "starting"[0] != "unhealthy"[0];
  }

  /** When a policy calls for a restart, on what the inspection reports. */
  predicate CallsForRestart(policy: string, info: Info) {
    var down, unhealthy := info.state in {"paused", "exited", "dead"}, info.health == "unhealthy";
    || (policy == "always" && (info.state != "running" || unhealthy))
    || (policy == "on-failure" && if down then info.exitCode.Some? && info.exitCode.value != 0 else unhealthy)
    || (policy == "unless-stopped" && (down || unhealthy))
  }

  lemma ShouldRestartExactly(policy: string, info: Info)
    ensures ShouldRestart(policy, info) <==> CallsForRestart(policy, info)
  {
    LifecycleTable(info);
    HealthTable(info);
    hide LifecycleOf, HealthOf;
    assert "always"[0] != "on-failure"[0] && "always"[0] != "unless-stopped"[0];
    assert "on-failure"[0] != "unless-stopped"[0];
  }

  /** The policies are ordered: whatever a stricter one restarts, a looser one restarts too; and a
      running container is restarted only when it reports unhealthy. */
  lemma PoliciesAreOrdered(info: Info)
    ensures ShouldRestart("on-failure", info) ==> ShouldRestart("unless-stopped", info)
    ensures ShouldRestart("unless-stopped", info) ==> ShouldRestart("always", info)
    ensures forall p :: ShouldRestart(p, info) && LifecycleOf(info) == Running ==> HealthOf(info) == Unhealthy
  {
  }

  // ---- Backoff ----

  function Min(a: int, b: int): int {
    if a <= b then a else b
  }

  function Pow2(n: nat): nat {
    if n == 0 then 1 else 2 * Pow2(n - 1)
  }

  /** `n` doublings in 64 bits, stopping at the maximum. */
  function Doubled(delay: int, n: nat, max: int): int
    decreases n
  {
    if n == 0 then delay
    else
      var next := Wrap64(2 * delay);
      if next >= max then max else Doubled(next, n - 1, max)
  }

  /** What a limit stands for: a default when it is not positive. */
  function Given(limit: int, fallback: int): int {
    if limit <= 0 then fallback else limit
  }

  function Backoff(attempt: int, base: int, max: int): int {
    var b, m := Given(base, 5 * SECOND), Given(max, 60 * SECOND);
    if attempt <= 0 then b else Min(Doubled(b, attempt - 1, m), m)
  }

  method BackoffDelay(attempt: int, base: int, max: int) returns (delay: int)
    ensures delay == Backoff(attempt, base, max)
  {
    if attempt <= 0 {
      return if base > 0 then base else 5 * SECOND;
    }
    var b := if base <= 0 then 5 * SECOND else base;
    var m := if max <= 0 then 60 * SECOND else max;
    delay := b;
    var i := 1;
    while i < attempt
      invariant 1 <= i <= attempt
      invariant Doubled(delay, attempt - i, m) == Doubled(b, attempt - 1, m)
    {
      delay := Wrap64(delay * 2);
      if delay >= m {
        return m;
      }
      i := i + 1;
    }
    if delay > m {
      return m;
    }
  }

  /** What the delay is meant to be. */
  function Capped(attempt: int, base: int, max: int): int {
    Min(max, base * Pow2(if attempt <= 0 then 0 else attempt - 1))
  }

  /** The largest doubling of the base that is still below the maximum, or the base itself. */
  function LastBelow(base: int, max: int): int
    requires base > 0
    decreases max - base
  {
    if 2 * base >= max then base else LastBelow(2 * base, max)
  }

  lemma {:induction false} LastBelowBounds(base: int, max: int)
    requires base > 0
    ensures base <= LastBelow(base, max)
    ensures base < max ==> LastBelow(base, max) < max
    decreases max - base
  {
    if 2 * base >= max {
    } else {
      LastBelowBounds(2 * base, max);
    }
  }

  lemma {:induction false} PowPositive(n: nat)
    ensures Pow2(n) >= 1
  {
    if n == 0 {
    } else {
      PowPositive(n - 1);
    }
  }

  lemma TimesPow(delay: int, n: nat)
    requires n > 0 && delay > 0
    ensures delay * Pow2(n) == (2 * delay) * Pow2(n - 1) >= 2 * delay
  {
    PowPositive(n - 1);
    assert Pow2(n) == 2 * Pow2(n - 1);
    assert delay * (2 * Pow2(n - 1)) == (2 * delay) * Pow2(n - 1);
    assert (2 * delay) * (Pow2(n - 1) - 1) >= 0;
  }

  lemma {:induction false} DoublingIsExact(delay: int, n: nat, max: int)
    requires 0 < delay <= max && 2 * LastBelow(delay, max) <= MAX_INT64
    ensures Doubled(delay, n, max) == Min(max, delay * Pow2(n))
    decreases n
  {
    if n == 0 {
    } else {
      LastBelowBounds(delay, max);
      TimesPow(delay, n);
      if 2 * delay < max {
        DoublingIsExact(2 * delay, n - 1, max);
      }
    }
  }

  lemma {:induction false} DoublingWraps(delay: int, max: int) returns (n: nat)
    requires 0 < delay <= max <= MAX_INT64 && 2 * LastBelow(delay, max) > MAX_INT64
    ensures Doubled(delay, n, max) < 0
    decreases max - delay
  {
    if 2 * delay >= max {
      n := 1;
      assert Doubled(Wrap64(2 * delay), 0, max) == Wrap64(2 * delay) < 0;
    } else {
      n := DoublingWraps(2 * delay, max);
      n := n + 1;
    }
  }

  /** For any 64-bit limits, the delay is the capped doubling for every attempt exactly when the base
      is no more than the maximum and the last doubling below it can itself be doubled in 64 bits. */
  lemma BackoffIsCappedExactly(base: int, max: int)
    requires base <= MAX_INT64 && max <= MAX_INT64
    ensures
      var b, m := if base <= 0 then 5_000_000_000 else base, if max <= 0 then 60_000_000_000 else max;
      (forall attempt :: Backoff(attempt, base, max) == Capped(attempt, b, m))
      <==> b <= m && 2 * LastBelow(b, m) <= MAX_INT64
  {
    var b, m := Given(base, 5 * SECOND), Given(max, 60 * SECOND);
    if b > m {
      assert Backoff(0, base, max) == b > Capped(0, b, m);
    } else if 2 * LastBelow(b, m) <= MAX_INT64 {
      forall attempt
        ensures Backoff(attempt, base, max) == Capped(attempt, b, m)
      {
        DoublingIsExact(b, if attempt <= 0 then 0 else attempt - 1, m);
      }
    } else {
      var n := DoublingWraps(b, m);
      PowPositive(n);
      assert b * Pow2(n) >= 0;
      assert Backoff(n + 1, base, max) < 0 <= Capped(n + 1, b, m);
    }
  }

  /** A base above the maximum is waited for in full before any failure, and can double to a negative
      delay after the second. */
  lemma LargeBaseWraps()
    ensures var base := 0x4000_0000_0000_0000;
      && Backoff(0, base, 60 * SECOND) == base
      && Backoff(1, base, 60 * SECOND) == 60 * SECOND
      && Backoff(2, base, 60 * SECOND) == -0x8000_0000_0000_0000
  {
    assert Doubled(-0x8000_0000_0000_0000, 0, 60 * SECOND) == -0x8000_0000_0000_0000;
  }

  lemma {:induction false} PowMonotone(m: nat, n: nat)
    requires m <= n
    ensures Pow2(m) <= Pow2(n)
  {
    if m == n {
    } else {
      PowMonotone(m, n - 1);
    }
  }

  /** With room to double the maximum, delays stay between base and maximum and never shrink as
      attempts grow. */
  lemma BackoffIsMonotone(a: int, b: int, base: int, max: int)
    requires 0 < base <= max && 2 * max <= MAX_INT64 && a <= b
    ensures base <= Backoff(a, base, max) <= Backoff(b, base, max) <= max
  {
    LastBelowBounds(base, max);
    var m, n := if a <= 0 then 0 else a - 1, if b <= 0 then 0 else b - 1;
    DoublingIsExact(base, m, max);
    DoublingIsExact(base, n, max);
    PowMonotone(m, n);
    PowPositive(m);
    hide Pow2, Doubled;
    ScaleMonotone(base, 1, Pow2(m));
    ScaleMonotone(base, Pow2(m), Pow2(n));
  }

  lemma ScaleMonotone(base: int, p: int, q: int)
    requires base > 0 && p <= q
    ensures base * p <= base * q
  {
    assert base * (q - p) >= 0;
  }

  // ---- The monitor ----

  datatype Record = Record(lifecycle: Lifecycle, health: HealthStatus, lastError: string)

  /** What the outside world answers during one observation. */
  datatype Tick = Tick(
    inspected: Result<Info, string>, storeFails: bool, cancelled: bool,
    restartError: Option<string>, inspectedAfter: Result<Info, string>, secondStoreFails: bool)

  datatype Outcome = InspectFailed | StoreFailed | Settled | Idle | Cancelled | RestartFailed | Restarted

  datatype Command = RestartContainer | StartContainer

  /** A wait before a restart, and the command that followed unless the wait was cancelled. */
  datatype Action = Action(wait: int, command: Option<Command>)

  const BASE_BACKOFF: int := 5 * SECOND
  const MAX_BACKOFF: int := 60 * SECOND

  function OutcomeOf(policy: string, t: Tick): Outcome {
    match t.inspected
    case Err(_) => InspectFailed
    case Ok(info) =>
      if t.storeFails then StoreFailed
      else if !ShouldRestart(policy, info) then
        if LifecycleOf(info) == Running && HealthOf(info) != Unhealthy then Settled else Idle
      else if t.cancelled then Cancelled
      else if t.restartError.Some? then RestartFailed
      else Restarted
  }

  /** The command after the wait. */
  function CommandFor(t: Tick): Option<Command> {
    if t.cancelled || t.inspected.Err? then None
    else if t.inspected.value.state == "running" then Some(RestartContainer)
    else Some(StartContainer)
  }

  predicate IsFailure(o: Outcome) {
    o == InspectFailed || o == RestartFailed
  }

  predicate IsReset(o: Outcome) {
    o == Settled || o == Restarted
  }

  predicate RestartDue(o: Outcome) {
    o == Cancelled || o == RestartFailed || o == Restarted
  }

  function Outcomes(policy: string, ticks: seq<Tick>): seq<Outcome> {
    seq(|ticks|, i requires 0 <= i < |ticks| => OutcomeOf(policy, ticks[i]))
  }

  function Failures(outcomes: seq<Outcome>): nat {
    if outcomes == [] then 0
    else Failures(outcomes[..|outcomes| - 1]) + if IsFailure(outcomes[|outcomes| - 1]) then 1 else 0
  }

  /** The outcomes after the last reset. */
  function SinceReset(outcomes: seq<Outcome>): seq<Outcome> {
    if outcomes == [] || IsReset(outcomes[|outcomes| - 1]) then []
    else SinceReset(outcomes[..|outcomes| - 1]) + [outcomes[|outcomes| - 1]]
  }

  /** It is the longest suffix without one. */
  lemma {:induction false} SinceResetIsSuffix(outcomes: seq<Outcome>)
    ensures var tail := SinceReset(outcomes); var n := |outcomes| - |tail|;
      && n >= 0 && outcomes[n..] == tail && (forall o :: o in tail ==> !IsReset(o))
      && (n > 0 ==> IsReset(outcomes[n - 1]))
  {
    if outcomes == [] || IsReset(outcomes[|outcomes| - 1]) {
    } else {
      var front, last := outcomes[..|outcomes| - 1], outcomes[|outcomes| - 1];
      SinceResetIsSuffix(front);
      var n := |front| - |SinceReset(front)|;
      assert outcomes == front + [last];
      assert outcomes[n..] == front[n..] + [last];
    }
  }

  /** Attempts counted after a history: failures since the last reset. */
  function AttemptsAfter(policy: string, history: seq<Tick>): nat {
    Failures(SinceReset(Outcomes(policy, history)))
  }

  lemma AttemptsStep(policy: string, history: seq<Tick>, t: Tick)
    ensures AttemptsAfter(policy, history + [t]) ==
      var o := OutcomeOf(policy, t);
      if IsReset(o) then 0 else AttemptsAfter(policy, history) + if IsFailure(o) then 1 else 0
  {
    var before, after := Outcomes(policy, history), Outcomes(policy, history + [t]);
    assert after == before + [OutcomeOf(policy, t)];
    assert after[..|before|] == before;
    if !IsReset(OutcomeOf(policy, t)) {
      var tail := SinceReset(before);
      assert (tail + [OutcomeOf(policy, t)])[..|tail|] == tail;
    }
  }

  /** Every wait of a history: the capped doubling for the attempts counted when it began, and a
      restart for a container that was running, a start for one that was not. */
  ghost predicate ActionsOf(policy: string, history: seq<Tick>, actions: seq<Action>) {
    if history == [] then actions == []
    else
      var front, last := history[..|history| - 1], history[|history| - 1];
      var o := OutcomeOf(policy, last);
      if RestartDue(o)
      then
        && actions != []
        && ActionsOf(policy, front, actions[..|actions| - 1])
        && var a := actions[|actions| - 1];
           var k := if AttemptsAfter(policy, front) > 1 then AttemptsAfter(policy, front) else 1;
           && a.wait == Min(MAX_BACKOFF, BASE_BACKOFF * Pow2(k - 1))
           && (a.command == None <==> o == Cancelled)
           && (a.command.Some? ==> (a.command.value == RestartContainer <==> last.inspected.value.state == "running"))
      else ActionsOf(policy, front, actions)
  }

  /** A status write, which may fail and leave the record alone. */
  function Stored(record: Option<Record>, r: Record, fails: bool): Option<Record> {
    if fails then record else Some(r)
  }

  lemma ActionsStep(policy: string, history: seq<Tick>, actions: seq<Action>, t: Tick, command: Option<Command>)
    requires ActionsOf(policy, history, actions)
    requires RestartDue(OutcomeOf(policy, t)) ==>
      && (command == None <==> OutcomeOf(policy, t) == Cancelled)
      && (command.Some? ==> (command.value == RestartContainer <==> t.inspected.value.state == "running"))
    ensures ActionsOf(policy, history + [t],
                      if RestartDue(OutcomeOf(policy, t))
                      then
                        actions
                        + [Action(Backoff(AttemptsAfter(policy, history), BASE_BACKOFF, MAX_BACKOFF), command)]
                      else actions)
  {
    hide Backoff, AttemptsAfter, Pow2, OutcomeOf;
    assert (history + [t])[..|history|] == history;
    MonitorDelay(AttemptsAfter(policy, history));
    var a := Action(Backoff(AttemptsAfter(policy, history), BASE_BACKOFF, MAX_BACKOFF), command);
    assert (actions + [a])[..|actions|] == actions;
  }

  /** The record is what an inspection showed. */
  predicate Shows(r: Record, inspected: Result<Info, string>) {
    inspected.Ok? && r.lifecycle == LifecycleOf(inspected.value) && r.health == HealthOf(inspected.value)
  }

  /** The state of one `Run` over one service instance. */
  class MonitorRun {
    const policy: string
    var attempts: int
    var record: Option<Record>
    ghost var history: seq<Tick>
    ghost var actions: seq<Action>

    ghost predicate Valid()
      reads this
    {
      attempts == AttemptsAfter(policy, history) && ActionsOf(policy, history, actions)
    }

    constructor (policy: string)
      ensures Valid() && this.policy == policy && history == [] && record == None
    {
      this.policy := policy;
      attempts, record, history, actions := 0, None, [], [];
    }

    /** The wait and the restart, for an observation that calls for one. */
    method WaitAndRestart(t: Tick) returns (error: Option<string>)
      requires RestartDue(OutcomeOf(policy, t))
      modifies this`attempts, this`record, this`actions
      ensures var o := OutcomeOf(policy, t);
        attempts == if o == Restarted then 0 else old(attempts) + if o == RestartFailed then 1 else 0
      ensures actions == old(actions) + [Action(Backoff(old(attempts), BASE_BACKOFF, MAX_BACKOFF), CommandFor(t))]
      ensures error == None ==>
        OutcomeOf(policy, t) == Restarted && record.Some? && Shows(record.value, t.inspectedAfter)
      ensures OutcomeOf(policy, t) == RestartFailed && !t.secondStoreFails ==>
        record == Some(Record(Failed, UnknownHealth, t.restartError.value))
    {
      hide LifecycleOf, HealthOf, ShouldRestart, Backoff;
      var info := t.inspected.value;
      var delay := BackoffDelay(attempts, BASE_BACKOFF, MAX_BACKOFF);
      if t.cancelled {
        actions := actions + [Action(delay, None)];
        return Some("cancelled");
      }
      var command := if info.state == "running" then RestartContainer else StartContainer;
      actions := actions + [Action(delay, Some(command))];
      if t.restartError.Some? {
        attempts := attempts + 1;
        record := Stored(record, Record(Failed, UnknownHealth, t.restartError.value), t.secondStoreFails);
        return t.restartError;
      }
      attempts := 0;
      if t.inspectedAfter.Err? {
        record := Stored(record, Record(Failed, UnknownHealth, t.inspectedAfter.error), t.secondStoreFails);
        return Some(t.inspectedAfter.error);
      }
      var after := t.inspectedAfter.value;
      if t.secondStoreFails {
        return Some("store");
      }
      record := Some(Record(LifecycleOf(after), HealthOf(after), ""));
      return None;
    }

    /** One observation. Without an error, the stored record is what the last inspection showed;
        a failed inspection or restart is stored as a failure, if storing works. */
    method Observe(t: Tick) returns (error: Option<string>)
      requires Valid()
      modifies this
      ensures Valid() && history == old(history) + [t]
      ensures var o := OutcomeOf(policy, t);
        attempts == if IsReset(o) then 0 else old(attempts) + if IsFailure(o) then 1 else 0
      ensures RestartDue(OutcomeOf(policy, t)) <==> |actions| == |old(actions)| + 1
      ensures error == None ==>
        record.Some? && Shows(record.value, if OutcomeOf(policy, t) == Restarted then t.inspectedAfter else t.inspected)
      ensures OutcomeOf(policy, t) == InspectFailed && !t.storeFails ==>
        record == Some(Record(Failed, UnknownHealth, t.inspected.error))
      ensures OutcomeOf(policy, t) == RestartFailed && !t.secondStoreFails ==>
        record == Some(Record(Failed, UnknownHealth, t.restartError.value))
      ensures RestartDue(OutcomeOf(policy, t)) ==>
        actions == old(actions) + [Action(Backoff(old(attempts), BASE_BACKOFF, MAX_BACKOFF), CommandFor(t))]
      ensures !RestartDue(OutcomeOf(policy, t)) ==> actions == old(actions)
      ensures OutcomeOf(policy, t) == Settled || OutcomeOf(policy, t) == Idle ==> error == None
      ensures OutcomeOf(policy, t) in {InspectFailed, StoreFailed, Cancelled, RestartFailed} ==> error.Some?
    {
      hide Pow2, AttemptsAfter, LifecycleOf, HealthOf, ShouldRestart, Backoff, ActionsOf;
      AttemptsStep(policy, history, t);
      ActionsStep(policy, history, actions, t, CommandFor(t));
      history := history + [t];
      if t.inspected.Err? {
        record := Stored(record, Record(Failed, UnknownHealth, t.inspected.error), t.storeFails);
        attempts := attempts + 1;
        return Some(t.inspected.error);
      }
      var info := t.inspected.value;
      var lastError := "";
      if LifecycleOf(info) == Failed && info.exitCode.Some? && info.exitCode.value != 0 {
        lastError := "container exited with a non-zero code";
      }
      if HealthOf(info) == Unhealthy {
        lastError := "container healthcheck reported unhealthy";
      }
      if t.storeFails {
        return Some("store");
      }
      record := Some(Record(LifecycleOf(info), HealthOf(info), lastError));
      if !ShouldRestart(policy, info) {
        if LifecycleOf(info) == Running && HealthOf(info) != Unhealthy {
          attempts := 0;
        }
        return None;
      }
      error := WaitAndRestart(t);
    }

    /** One observation, on what the engine and the store answered. A failed inspection counts and
        stops. Otherwise what was seen is stored, and unless the policy calls for a restart a running
        container that is not unhealthy clears the counter. A restart waits min(60 s, 5 s doubled for
        every counted failure after the first), restarts a running container and starts any other, and
        then counts its failure or clears the counter. */
    method ObserveOnce(t: Tick) returns (error: Option<string>)
      requires Valid()
      modifies this
      ensures Valid() && history == old(history) + [t]
      ensures t.inspected.Err? ==> attempts == old(attempts) + 1 && actions == old(actions) && error.Some?
      ensures t.inspected.Ok? && t.storeFails ==>
        attempts == old(attempts) && actions == old(actions) && error.Some?
      ensures t.inspected.Ok? && !t.storeFails && !CallsForRestart(policy, t.inspected.value) ==>
        && error == None && actions == old(actions)
        && attempts == if t.inspected.value.state == "running" && t.inspected.value.health != "unhealthy" then 0
                       else old(attempts)
      ensures t.inspected.Ok? && !t.storeFails && CallsForRestart(policy, t.inspected.value) ==>
        && |actions| == |old(actions)| + 1 && actions[..|old(actions)|] == old(actions)
        && var k, last := if old(attempts) > 1 then old(attempts) else 1, actions[|old(actions)|];
           && last.wait == Min(60_000_000_000, 5_000_000_000 * Pow2(k - 1))
           && last.command == (if t.cancelled then None
                               else if t.inspected.value.state == "running" then Some(RestartContainer)
                               else Some(StartContainer))
           && attempts == (if t.cancelled then old(attempts)
                           else if t.restartError.Some? then old(attempts) + 1 else 0)
           && (t.cancelled || t.restartError.Some? ==> error.Some?)
      ensures error == None ==>
        && record.Some?
        && var seen := if CallsForRestart(policy, t.inspected.value) then t.inspectedAfter else t.inspected;
           seen.Ok? && record.value.lifecycle == LifecycleOf(seen.value) && record.value.health == HealthOf(seen.value)
    {
      hide LifecycleOf, HealthOf, ShouldRestart, Backoff, Pow2, AttemptsAfter, ActionsOf, CallsForRestart, Valid;
      if t.inspected.Ok? {
        ShouldRestartExactly(policy, t.inspected.value);
        LifecycleTable(t.inspected.value);
        HealthTable(t.inspected.value);
      }
      MonitorDelay(attempts);
      error := Observe(t);
    }

    /** The loop: one observation at once and one per tick, until the context ends. */
    method Run(ticks: seq<Tick>)
      requires Valid() && history == []
      modifies this
      ensures Valid() && history == ticks
      ensures attempts == Failures(SinceReset(Outcomes(policy, ticks)))
    {
      for i := 0 to |ticks|
        invariant Valid() && history == ticks[..i]
      {
        var _ := ObserveOnce(ticks[i]);
      }
    }
  }

  /** With the monitor's own limits the wait is min(60s, 5s * 2^(k-1)), k being at least 1. */
  lemma MonitorDelay(attempts: int)
    ensures var k := if attempts > 1 then attempts else 1;
      Backoff(attempts, BASE_BACKOFF, MAX_BACKOFF) == Min(MAX_BACKOFF, BASE_BACKOFF * Pow2(k - 1))
  {
    LastBelowBounds(BASE_BACKOFF, MAX_BACKOFF);
    BackoffIsCappedExactly(BASE_BACKOFF, MAX_BACKOFF);
    assert Backoff(attempts, BASE_BACKOFF, MAX_BACKOFF) == Capped(attempts, BASE_BACKOFF, MAX_BACKOFF);
  }
}
