/** The scheduler as a state machine: every locked region is one step, over a clock that never
    goes back. A clock reading taken before the lock may be older than the step itself. */
module SchedulerModel {
  import opened Wrappers
  import opened Calendar
  import opened Cron
  import opened Models

  /** One run of a job: the slot it was due at, the reading that found it due, and its end. */
  datatype Firing = Firing(slot: Time, firedAt: Time, finishedAt: Option<Time>)

  /** One `ScheduledJob` object, with the history of its runs. */
  datatype JobState = JobState(
      key: string, job: Job, configHash: string, schedule: CronSchedule, registeredAt: Time,
      nextRun: Option<Time>, running: bool, active: bool, firings: seq<Firing>) {

    /** When the search for the k-th slot started: at registration or when the run before ended. */
    function SearchedFrom(k: nat): Time {
      if 0 < k <= |firings| && firings[k - 1].finishedAt.Some? then firings[k - 1].finishedAt.value else registeredAt
    }
  }

  /** `table` maps a key to an object; objects dropped from it stay in `jobs` while they finish.
      `inFlight` counts the goroutines running each object. */
  datatype State = State(table: map<string, nat>, jobs: seq<JobState>, inFlight: multiset<nat>, now: Time)

  datatype Event =
    | Register(key: string, job: Job, configHash: string, schedule: CronSchedule, readAt: Time, at: Time)
    | Unregister(key: string, at: Time)
    | Prune(keep: set<string>, at: Time)
    | Dispatch(readAt: Time, at: Time)
    | Finish(id: nat, at: Time)

  function Initial(now: Time): State {
    State(map[], [], multiset{}, now)
  }

  function NewJob(key: string, job: Job, configHash: string, schedule: CronSchedule, readAt: Time): JobState {
    JobState(key, job, configHash, schedule, readAt, Next(schedule, readAt), false, true, [])
  }

  /** An active object without a next run gets one computed first. */
  function Refreshed(j: JobState, readAt: Time): JobState {
    if j.active && j.nextRun == None then j.(nextRun := Next(j.schedule, readAt)) else j
  }

  predicate Due(j: JobState, readAt: Time) {
    j.active && j.nextRun.Some? && j.nextRun.value <= readAt && !j.running
  }

  function Fired(j: JobState, readAt: Time): JobState {
    var r := Refreshed(j, readAt);
    if Due(r, readAt)
    then r.(running := true, firings := r.firings + [Firing(r.nextRun.value, readAt, None)])
    else r
  }

  function Finished(j: JobState, at: Time): JobState {
    var next := Next(j.schedule, at);
    j.(running := false, nextRun := next, active := j.active && next.Some?, firings := Closed(j.firings, at))
  }

  function Closed(firings: seq<Firing>, at: Time): seq<Firing> {
    if firings == [] then firings
    else firings[..|firings| - 1] + [firings[|firings| - 1].(finishedAt := Some(at))]
  }

  function DueIds(s: State, readAt: Time): set<nat> {
    set id | id in s.table.Values && id < |s.jobs| && Due(Refreshed(s.jobs[id], readAt), readAt)
  }

  function FireAll(jobs: seq<JobState>, ids: set<nat>, readAt: Time): (fired: seq<JobState>)
    ensures |fired| == |jobs|
  {
    seq(|jobs|, i requires 0 <= i < |jobs| => if i in ids then Fired(jobs[i], readAt) else jobs[i])
  }

  /** Firing one more object changes that object only. */
  lemma FireAllStep(jobs: seq<JobState>, ids: set<nat>, id: nat, readAt: Time)
    requires id < |jobs| && id !in ids
    ensures FireAll(jobs, ids, readAt)[id] == jobs[id]
    ensures FireAll(jobs, ids + {id}, readAt) == FireAll(jobs, ids, readAt)[id := Fired(jobs[id], readAt)]
  {
    hide Fired;
  }

  predicate Enabled(s: State, e: Event) {
    && s.now <= e.at
    && match e
       case Register(_, _, _, schedule, readAt, at) => readAt <= at && Next(schedule, readAt).Some?
       case Dispatch(readAt, at) => readAt <= at
       case Finish(id, _) => id in s.inFlight && id < |s.jobs|
       case _ => true
  }

  function Step(s: State, e: Event): State
    requires Enabled(s, e)
  {
    match e
    case Register(key, job, configHash, schedule, readAt, at) =>
      State(s.table[key := |s.jobs|], s.jobs + [NewJob(key, job, configHash, schedule, readAt)], s.inFlight, at)
    case Unregister(key, at) => s.(table := s.table - {key}, now := at)
    case Prune(keep, at) => s.(table := map k | k in s.table && k in keep :: s.table[k], now := at)
    case Dispatch(readAt, at) =>
      State(
        s.table,
        FireAll(s.jobs, s.table.Values, readAt), s.inFlight + multiset(DueIds(s, readAt)), at)
    case Finish(id, at) =>
      s.(jobs := s.jobs[id := Finished(s.jobs[id], at)], inFlight := s.inFlight - multiset{id}, now := at)
  }

  // ---- What every reachable state satisfies ----

  /** Each run took the first slot after the search for it started, not before that slot; all but
      the last have ended, and the last has exactly when the object is not running. */
  ghost predicate Chained(j: JobState) {
    forall k :: 0 <= k < |j.firings| ==> FiringOk(j, k)
  }

  ghost predicate FiringOk(j: JobState, k: nat)
    requires k < |j.firings|
  {
    var f := j.firings[k];
    && (f.finishedAt == None <==> j.running && k == |j.firings| - 1)
    && Next(j.schedule, j.SearchedFrom(k)) == Some(f.slot)
    && f.slot <= f.firedAt
    && (f.finishedAt.Some? ==> f.firedAt <= f.finishedAt.value)
  }

  ghost predicate JobOk(j: JobState, flights: nat, now: Time) {
    && flights == (if j.running then 1 else 0)
    && j.registeredAt <= now
    && (j.running ==> j.firings != [] && j.active)
    && (j.active <==> j.nextRun.Some?)
    && Chained(j)
    && (forall f :: f in j.firings ==> f.firedAt <= now && (f.finishedAt.Some? ==> f.finishedAt.value <= now))
    && j.nextRun == (if j.running then Some(j.firings[|j.firings| - 1].slot)
                     else Next(j.schedule, j.SearchedFrom(|j.firings|)))
  }

  ghost predicate Inv(s: State) {
    && (forall k :: k in s.table ==> s.table[k] < |s.jobs| && s.jobs[s.table[k]].key == k)
    && (forall id :: id in s.inFlight ==> id < |s.jobs|)
    && forall i :: 0 <= i < |s.jobs| ==> JobOk(s.jobs[i], s.inFlight[i], s.now)
  }

  lemma LaterIsOk(j: JobState, flights: nat, now: Time, at: Time)
    requires JobOk(j, flights, now) && now <= at
    ensures JobOk(j, flights, at)
  {
    hide Next;
  }

  lemma NewJobIsOk(key: string, job: Job, configHash: string, schedule: CronSchedule, readAt: Time, at: Time)
    requires readAt <= at && Next(schedule, readAt).Some?
    ensures JobOk(NewJob(key, job, configHash, schedule, readAt), 0, at)
  {
    hide Next;
  }

  /** Dispatching never meets an active object without a next run, and starts at most one run. */
  lemma FiredIsOk(j: JobState, flights: nat, now: Time, readAt: Time, at: Time)
    requires JobOk(j, flights, now) && now <= at && readAt <= at
    ensures Refreshed(j, readAt) == j
    ensures JobOk(Fired(j, readAt), if Due(j, readAt) then flights + 1 else flights, at)
  {
    hide Next;
    if Due(j, readAt) {
      var f := Fired(j, readAt);
      forall k | 0 <= k < |f.firings|
        ensures FiringOk(f, k)
      {
        assert k < |j.firings| ==> FiringOk(j, k);
        assert f.SearchedFrom(k) == j.SearchedFrom(k);
      }
    }
  }

  lemma FinishedIsOk(j: JobState, flights: nat, now: Time, at: Time)
    requires JobOk(j, flights, now) && now <= at && flights > 0
    ensures JobOk(Finished(j, at), flights - 1, at)
  {
    hide Next;
    var f := Finished(j, at);
    forall k | 0 <= k < |j.firings|
      ensures FiringOk(f, k)
    {
      assert FiringOk(j, k);
      assert f.SearchedFrom(k) == j.SearchedFrom(k);
    }
    assert f.SearchedFrom(|j.firings|) == at;
  }

  lemma StepKeepsLinks(s: State, e: Event)
    requires Inv(s) && Enabled(s, e)
    ensures var t := Step(s, e);
      && (forall k :: k in t.table ==> t.table[k] < |t.jobs| && t.jobs[t.table[k]].key == k)
      && (forall id :: id in t.inFlight ==> id < |t.jobs|)
  {
    hide Next, JobOk, Closed, Due;
  }

  lemma StepKeepsInv(s: State, e: Event)
    requires Inv(s) && Enabled(s, e)
    ensures Inv(Step(s, e))
  {
    StepKeepsLinks(s, e);
    var t := Step(s, e);
    assert t.now == e.at;
    forall i | 0 <= i < |t.jobs|
      ensures JobOk(t.jobs[i], t.inFlight[i], t.now)
    {
      StepKeepsJob(s, e, i);
    }
    hide Step, Enabled, JobOk;
  }

  lemma StepKeepsJob(s: State, e: Event, i: nat)
    requires Inv(s) && Enabled(s, e) && i < |Step(s, e).jobs|
    ensures JobOk(Step(s, e).jobs[i], Step(s, e).inFlight[i], e.at)
    ensures i < |s.jobs| ==> Step(s, e).jobs[i].key == s.jobs[i].key
  {
    hide Next, JobOk;
    if i < |s.jobs| {
      LaterIsOk(s.jobs[i], s.inFlight[i], s.now, e.at);
    }
    match e
    case Register(key, job, configHash, schedule, readAt, at) =>
      if i == |s.jobs| {
        NewJobIsOk(key, job, configHash, schedule, readAt, at);
      }
    case Dispatch(readAt, at) =>
      FiredIsOk(s.jobs[i], s.inFlight[i], s.now, readAt, at);
    case Finish(id, at) =>
      if i == id {
        FinishedIsOk(s.jobs[i], s.inFlight[i], s.now, at);
      }
    case _ =>
  }

  // ---- Whole runs ----

  ghost predicate IsRun(states: seq<State>, events: seq<Event>) {
    && |states| == |events| + 1
    && states[0] == Initial(states[0].now)
    && forall k :: 0 <= k < |events| ==> Enabled(states[k], events[k]) && states[k + 1] == Step(states[k], events[k])
  }

  /** Every state of every interleaving is safe. */
  lemma {:induction false} RunsAreSafe(states: seq<State>, events: seq<Event>, k: nat)
    requires IsRun(states, events) && k < |states|
    ensures Inv(states[k])
  {
    hide Step, JobOk, Enabled;
    if k == 0 {
    } else {
      RunsAreSafe(states, events, k - 1);
      StepKeepsInv(states[k - 1], events[k - 1]);
      assert states[k - 1 + 1] == Step(states[k - 1], events[k - 1]);
    }
  }

  /** An object is marked running exactly when one goroutine runs it, whether or not the table
      still holds it; a dispatch never has to recompute a missing next run. */
  lemma OneFlightPerRunningJob(states: seq<State>, events: seq<Event>, k: nat, i: nat)
    requires IsRun(states, events) && k < |states| && i < |states[k].jobs|
    ensures var j := states[k].jobs[i];
      && states[k].inFlight[i] <= 1
      && (j.running <==> states[k].inFlight[i] == 1)
      && (forall t :: Refreshed(j, t) == j)
      && (j.active ==> j.nextRun.Some? && j.schedule.OnBoundary(j.nextRun.value) && j.schedule.Matches(j.nextRun.value))
  {
    RunsAreSafe(states, events, k);
    var j, flights, now := states[k].jobs[i], states[k].inFlight[i], states[k].now;
    assert JobOk(j, flights, now);
    hide Next, CronSchedule.Matches, Inv, IsRun, Step;
    if j.active {
      var n := |j.firings|;
      assert j.running ==> FiringOk(j, n - 1);
      NextIsLeast(j.schedule, j.SearchedFrom(if j.running then n - 1 else n));
    }
  }

  /** One registration's runs: slots are matches in increasing order, no run starts before its
      slot, and no match lies between where the search started and the slot it found. */
  lemma {:induction false} SlotsAreLeastMatches(j: JobState, flights: nat, now: Time, k: nat)
    requires JobOk(j, flights, now) && k < |j.firings|
    ensures var f := j.firings[k];
      && j.schedule.OnBoundary(f.slot) && j.schedule.Matches(f.slot)
      && j.SearchedFrom(k) < f.slot <= f.firedAt
      && (forall t :: j.SearchedFrom(k) < t < f.slot && j.schedule.OnBoundary(t) ==> !j.schedule.Matches(t))
  {
    hide Next, CronSchedule.Matches;
    assert FiringOk(j, k);
    NextIsLeast(j.schedule, j.SearchedFrom(k));
    forall t | j.SearchedFrom(k) < t < j.firings[k].slot && j.schedule.OnBoundary(t)
      ensures !j.schedule.Matches(t)
    {
      assert j.schedule.InWindow(j.SearchedFrom(k), t);
    }
  }

  lemma {:induction false} SlotsIncrease(j: JobState, flights: nat, now: Time, a: nat, b: nat)
    requires JobOk(j, flights, now) && a < b < |j.firings|
    ensures j.firings[a].finishedAt.Some? && j.firings[a].slot <= j.firings[a].finishedAt.value < j.firings[b].slot
    decreases b
  {
    hide Next, CronSchedule.Matches;
    SlotsAreLeastMatches(j, flights, now, b);
    assert FiringOk(j, b - 1);
    if a == b - 1 {
    } else {
      SlotsIncrease(j, flights, now, a, b - 1);
    }
  }

  /** The instant fell after the firing's slot and not after its end. */
  predicate Occupied(f: Firing, t: Time) {
    f.finishedAt.Some? && f.slot < t <= f.finishedAt.value
  }

  /** A matching instant that was skipped fell while an earlier run was pending or in progress. */
  lemma {:induction false} MissedOnlyWhileBusy(j: JobState, flights: nat, now: Time, t: Time, n: nat)
    requires JobOk(j, flights, now) && n < |j.firings|
    requires j.registeredAt < t <= j.firings[n].slot && j.schedule.OnBoundary(t) && j.schedule.Matches(t)
    ensures exists k :: 0 <= k <= n && (t == j.firings[k].slot || (k < n && Occupied(j.firings[k], t)))
    decreases n
  {
    hide Next, CronSchedule.Matches;
    SlotsAreLeastMatches(j, flights, now, n);
    if t == j.firings[n].slot {
    } else {
      assert t <= j.SearchedFrom(n);
      assert FiringOk(j, n - 1);
      if t <= j.firings[n - 1].slot {
        MissedOnlyWhileBusy(j, flights, now, t, n - 1);
      }
    }
  }

  /** The firing discipline of every registration in every run of the scheduler. */
  lemma FiringDiscipline(states: seq<State>, events: seq<Event>, k: nat, i: nat)
    requires IsRun(states, events) && k < |states| && i < |states[k].jobs|
    ensures var j := states[k].jobs[i];
      && (forall n :: 0 <= n < |j.firings| ==>
            && j.schedule.OnBoundary(j.firings[n].slot) && j.schedule.Matches(j.firings[n].slot)
            && j.firings[n].slot <= j.firings[n].firedAt)
      && (forall a, b :: 0 <= a < b < |j.firings| ==> j.firings[a].slot < j.firings[b].slot)
      && (forall n, t :: 0 <= n < |j.firings| && j.SearchedFrom(n) < t
            && j.schedule.OnBoundary(t) && j.schedule.Matches(t)
            ==> j.firings[n].slot <= t)
      && (forall n, t :: 0 <= n < |j.firings| && j.registeredAt < t <= j.firings[n].slot && j.schedule.OnBoundary(t)
            && j.schedule.Matches(t)
            ==> exists m :: 0 <= m <= n && (t == j.firings[m].slot || (m < n && Occupied(j.firings[m], t))))
  {
    RunsAreSafe(states, events, k);
    var j, flights, now := states[k].jobs[i], states[k].inFlight[i], states[k].now;
    assert JobOk(j, flights, now);
    hide Next, CronSchedule.Matches, Step, IsRun, Inv;
    forall n | 0 <= n < |j.firings|
      ensures j.schedule.OnBoundary(j.firings[n].slot) && j.schedule.Matches(j.firings[n].slot)
      ensures j.firings[n].slot <= j.firings[n].firedAt
      ensures forall t :: j.SearchedFrom(n) < t && j.schedule.OnBoundary(t) && j.schedule.Matches(t) ==>
        j.firings[n].slot <= t
    {
      SlotsAreLeastMatches(j, flights, now, n);
    }
    forall n, t | 0 <= n < |j.firings| && j.registeredAt < t <= j.firings[n].slot && j.schedule.OnBoundary(t)
      && j.schedule.Matches(t)
      ensures exists m :: 0 <= m <= n && (t == j.firings[m].slot || (m < n && Occupied(j.firings[m], t)))
    {
      MissedOnlyWhileBusy(j, flights, now, t, n);
    }
    forall a, b | 0 <= a < b < |j.firings|
      ensures j.firings[a].slot < j.firings[b].slot
    {
      SlotsIncrease(j, flights, now, a, b);
    }
  }

  // ---- What a dispatch starts ----

  lemma DispatchStep(s: State, readAt: Time, at: Time, i: nat)
    requires Inv(s) && Enabled(s, Dispatch(readAt, at)) && i < |s.jobs|
    ensures var t := Step(s, Dispatch(readAt, at));
      && i < |t.jobs| && t.table == s.table
      && t.jobs[i]
         == (if i in s.table.Values && s.jobs[i].active && !s.jobs[i].running && s.jobs[i].nextRun.Some?
                && s.jobs[i].nextRun.value <= readAt
             then s.jobs[i].(running := true,
                             firings := s.jobs[i].firings + [Firing(s.jobs[i].nextRun.value, readAt, None)])
             else s.jobs[i])
  {
    hide Next, Chained;
    assert JobOk(s.jobs[i], s.inFlight[i], s.now);
  }

  lemma DueExactly(s: State, readAt: Time, at: Time, i: nat)
    requires Inv(s) && s.now <= at && readAt <= at && i < |s.jobs| && i in s.table.Values
    ensures Enabled(s, Dispatch(readAt, at))
    ensures i in DueIds(s, readAt) <==>
      s.jobs[i].active && !s.jobs[i].running && s.jobs[i].nextRun.Some? && s.jobs[i].nextRun.value <= readAt
  {
    hide Next, Chained;
    assert JobOk(s.jobs[i], s.inFlight[i], s.now);
  }

  /** Over every run, a dispatch starts exactly the objects of the table that are active, idle and due
      by its clock reading, each with one more firing at its slot. */
  lemma DispatchStarts(states: seq<State>, events: seq<Event>, k: nat, readAt: Time, at: Time, i: nat)
    requires IsRun(states, events) && k < |events| && events[k] == Dispatch(readAt, at) && i < |states[k].jobs|
    ensures i < |states[k + 1].jobs| && states[k + 1].table == states[k].table
    ensures var was, now := states[k].jobs[i], states[k + 1].jobs[i];
      if i in states[k].table.Values && was.active && !was.running && was.nextRun.Some? && was.nextRun.value <= readAt
      then now == was.(running := true, firings := was.firings + [Firing(was.nextRun.value, readAt, None)])
           && states[k].inFlight[i] == 0 && states[k + 1].inFlight[i] == 1
      else now == was && states[k + 1].inFlight[i] == states[k].inFlight[i]
  {
    var s, t := states[k], states[k + 1];
    RunsAreSafe(states, events, k);
    RunsAreSafe(states, events, k + 1);
    assert Enabled(s, events[k]) && t == Step(s, events[k]);
    DispatchStep(s, readAt, at, i);
    assert JobOk(s.jobs[i], s.inFlight[i], s.now) && JobOk(t.jobs[i], t.inFlight[i], t.now);
    hide Step, Enabled, IsRun, Inv, Next, Chained;
  }

  /** So nothing in the table is left due. */
  lemma NothingDueRemains(states: seq<State>, events: seq<Event>, k: nat, readAt: Time, at: Time, key: string)
    requires IsRun(states, events) && k < |events| && events[k] == Dispatch(readAt, at)
    requires key in states[k + 1].table
    ensures states[k + 1].table[key] < |states[k + 1].jobs|
    ensures var j := states[k + 1].jobs[states[k + 1].table[key]];
      !j.active || j.running || (j.nextRun.Some? && j.nextRun.value > readAt)
  {
    var s, t := states[k], states[k + 1];
    RunsAreSafe(states, events, k);
    RunsAreSafe(states, events, k + 1);
    assert Enabled(s, events[k]) && t == Step(s, events[k]);
    var i := t.table[key];
    assert i in s.table.Values;
    DispatchStarts(states, events, k, readAt, at, i);
    assert JobOk(t.jobs[i], t.inFlight[i], t.now);
    hide Step, Enabled, IsRun, Inv, Next, Chained;
  }

  // ---- Which keys the table holds, whatever interleaves ----

  predicate Registers(e: Event, key: string) {
    e.Register? && e.key == key
  }

  predicate Drops(e: Event, key: string) {
    (e.Unregister? && e.key == key) || (e.Prune? && key !in e.keep)
  }

  /** The last of the first `n` events to register the key, unless the key was dropped since. */
  function Holder(events: seq<Event>, n: nat, key: string): Option<nat>
    requires n <= |events|
  {
    if n == 0 then None
    else if Registers(events[n - 1], key) then Some(n - 1)
    else if Drops(events[n - 1], key) then None
    else Holder(events, n - 1, key)
  }

  lemma {:induction false} HolderIsLast(events: seq<Event>, n: nat, key: string, m: nat)
    requires n <= |events|
    ensures Holder(events, n, key) == Some(m) <==>
      && m < n && Registers(events[m], key)
      && forall k :: m < k < n ==> !Registers(events[k], key) && !Drops(events[k], key)
  {
    if n == 0 {
    } else {
      HolderIsLast(events, n - 1, key, m);
    }
  }

  /** The table has the key, with the definition the event gave. */
  ghost predicate Defined(s: State, key: string, e: Event) {
    && e.Register? && key in s.table && s.table[key] < |s.jobs|
    && s.jobs[s.table[key]].job == e.job && s.jobs[s.table[key]].configHash == e.configHash
    && s.jobs[s.table[key]].schedule == e.schedule && s.jobs[s.table[key]].registeredAt == e.readAt
  }

  lemma StepDefines(s: State, e: Event, key: string, was: Event)
    requires Inv(s) && Enabled(s, e)
    ensures Registers(e, key) ==> Defined(Step(s, e), key, e)
    ensures !Registers(e, key) && Drops(e, key) ==> key !in Step(s, e).table
    ensures !Registers(e, key) && !Drops(e, key) ==> (key in Step(s, e).table <==> key in s.table)
    ensures !Registers(e, key) && !Drops(e, key) && Defined(s, key, was) ==> Defined(Step(s, e), key, was)
  {
    hide Next, JobOk;
  }

  /** In every interleaving the table holds a key exactly when some registration of it has not been
      undone by an unregistration or by a sync that does not list it, and then with what the last
      such registration gave. */
  lemma {:induction false} TableExactly(states: seq<State>, events: seq<Event>, n: nat, key: string)
    requires IsRun(states, events) && n < |states|
    ensures match Holder(events, n, key)
      case None => key !in states[n].table
      case Some(m) => m < n && Defined(states[n], key, events[m])
  {
    hide Step, Enabled, Inv, Defined, Registers, Drops;
    if n == 0 {
    } else {
      TableExactly(states, events, n - 1, key);
      RunsAreSafe(states, events, n - 1);
      assert states[n - 1 + 1] == Step(states[n - 1], events[n - 1]);
      var was := Holder(events, n - 1, key);
      StepDefines(states[n - 1], events[n - 1], key, if was.Some? then events[was.value] else events[n - 1]);
    }
  }

  /** Whatever interrupts a sync, its last step leaves exactly the listed keys that were registered, by
      the sync or by anyone, and not dropped since. */
  lemma SyncEndsWithListed(states: seq<State>, events: seq<Event>, q: nat, key: string)
    requires IsRun(states, events) && q < |events| && events[q].Prune?
    ensures key in states[q + 1].table <==> key in events[q].keep && Holder(events, q, key).Some?
    ensures key in states[q + 1].table ==>
      Holder(events, q, key).value < q && Defined(states[q + 1], key, events[Holder(events, q, key).value])
  {
    TableExactly(states, events, q + 1, key);
    hide IsRun, Defined;
  }

  // ---- Objects that stop for good ----

  /** An object is inactive exactly when it is idle and the search after its last run, or at its
      registration, found nothing. */
  lemma InactiveExactly(states: seq<State>, events: seq<Event>, k: nat, i: nat)
    requires IsRun(states, events) && k < |states| && i < |states[k].jobs|
    ensures var j := states[k].jobs[i];
      !j.active <==> !j.running && Next(j.schedule, j.SearchedFrom(|j.firings|)) == None
  {
    RunsAreSafe(states, events, k);
    hide Next, Step, Enabled, IsRun;
    assert JobOk(states[k].jobs[i], states[k].inFlight[i], states[k].now);
  }

  lemma StepKeepsInactive(s: State, e: Event, i: nat)
    requires Inv(s) && Enabled(s, e) && i < |s.jobs| && !s.jobs[i].active
    ensures i < |Step(s, e).jobs| && Step(s, e).jobs[i] == s.jobs[i]
  {
    hide Next, Chained;
    assert JobOk(s.jobs[i], s.inFlight[i], s.now);
  }

  /** An inactive object never changes again, so it never runs again. */
  lemma {:induction false} InactiveStays(states: seq<State>, events: seq<Event>, k: nat, m: nat, i: nat)
    requires IsRun(states, events) && k <= m < |states| && i < |states[k].jobs|
    requires !states[k].jobs[i].active
    ensures i < |states[m].jobs| && states[m].jobs[i] == states[k].jobs[i]
    decreases m
  {
    hide Step, Enabled, Inv;
    if m == k {
    } else {
      InactiveStays(states, events, k, m - 1, i);
      RunsAreSafe(states, events, m - 1);
      StepKeepsInactive(states[m - 1], events[m - 1], i);
      assert states[m - 1 + 1] == Step(states[m - 1], events[m - 1]);
    }
  }

  /** The state after a sequence of steps, if each was enabled. */
  ghost function RunFrom(s: State, events: seq<Event>): Option<State> {
    if events == [] then Some(s)
    else
      var last := events[|events| - 1];
      match RunFrom(s, events[..|events| - 1])
      case Some(u) => if Enabled(u, last) then Some(Step(u, last)) else None
      case None => None
  }

  lemma NoSteps(s: State)
    ensures RunFrom(s, []) == Some(s)
  {
  }

  lemma RunFromAppends(s: State, events: seq<Event>, u: State, e: Event)
    requires RunFrom(s, events) == Some(u) && Enabled(u, e)
    ensures RunFrom(s, events + [e]) == Some(Step(u, e))
  {
    hide Step, Enabled;
    assert (events + [e])[..|events|] == events;
  }

  // ---- Overlap between registrations of one key ----

  /** The object may run now or later. */
  predicate Live(s: State, i: nat)
    requires i < |s.jobs|
  {
    s.jobs[i].running || i in s.table.Values
  }

  /** No two objects of one key are live, so no two runs of a key overlap. */
  ghost predicate KeyExclusive(s: State) {
    forall i, j :: 0 <= i < j < |s.jobs| && s.jobs[i].key == s.jobs[j].key ==> !(Live(s, i) && Live(s, j))
  }

  /** No run of the key being registered is in flight. */
  ghost predicate RegistersIdle(s: State, e: Event) {
    e.Register? ==> forall i :: 0 <= i < |s.jobs| && s.jobs[i].key == e.key ==> !s.jobs[i].running
  }

  lemma LiveOnlyShrinks(s: State, e: Event, i: nat)
    requires Inv(s) && Enabled(s, e) && i < |s.jobs|
    ensures Live(Step(s, e), i) ==> Live(s, i)
    ensures Step(s, e).jobs[i].key == s.jobs[i].key
    ensures e.Register? && Live(Step(s, e), i) && s.jobs[i].key == e.key ==> s.jobs[i].running
  {
    hide Next, JobOk;
  }

  /** A step lets two live objects share a key exactly when it registers a key with a run in
      flight. */
  lemma ExclusiveExactly(s: State, e: Event)
    requires Inv(s) && KeyExclusive(s) && Enabled(s, e)
    ensures KeyExclusive(Step(s, e)) <==> RegistersIdle(s, e)
  {
    var t := Step(s, e);
    forall i | 0 <= i < |s.jobs|
      ensures Live(t, i) ==> Live(s, i)
      ensures t.jobs[i].key == s.jobs[i].key
      ensures e.Register? && Live(t, i) && s.jobs[i].key == e.key ==> s.jobs[i].running
    {
      LiveOnlyShrinks(s, e, i);
    }
    hide Next, JobOk, Inv;
    if !RegistersIdle(s, e) {
      var i :| 0 <= i < |s.jobs| && s.jobs[i].key == e.key && s.jobs[i].running;
      assert t.table[e.key] == |s.jobs|;
      assert Live(t, i) && Live(t, |s.jobs|);
    }
  }

  /** When no key is registered during one of its runs, runs of one key never overlap. */
  lemma {:induction false} NoOverlapWhenRegisteredIdle(states: seq<State>, events: seq<Event>, k: nat)
    requires IsRun(states, events) && k < |states|
    requires forall n :: 0 <= n < |events| ==> RegistersIdle(states[n], events[n])
    ensures KeyExclusive(states[k])
  {
    hide Step, Enabled, Inv, RegistersIdle, Live;
    if k == 0 {
    } else {
      NoOverlapWhenRegisteredIdle(states, events, k - 1);
      RunsAreSafe(states, events, k - 1);
      assert states[k - 1 + 1] == Step(states[k - 1], events[k - 1]);
      ExclusiveExactly(states[k - 1], events[k - 1]);
    }
  }

  lemma DispatchOne(s: State, key: string, id: nat, at: Time)
    requires s.table == map[key := id] && id < |s.jobs| && s.now <= at
    requires s.jobs[id].nextRun.Some? && Due(s.jobs[id], at)
    ensures Step(s, Dispatch(at, at))
      == State(s.table, s.jobs[id := Fired(s.jobs[id], at)], s.inFlight + multiset{id}, at)
  {
    hide Next;
    assert s.table[key] == id;
    assert s.table.Values == {id};
    assert DueIds(s, at) == {id};
  }

  lemma RegisterOne(s: State, key: string, job: Job, configHash: string, c: CronSchedule, at: Time)
    requires s.table.Keys <= {key} && s.now <= at && Next(c, at).Some?
    ensures Step(s, Register(key, job, configHash, c, at, at))
      == State(map[key := |s.jobs|], s.jobs + [NewJob(key, job, configHash, c, at)], s.inFlight, at)
  {
    hide Next;
  }

  /** A key registered and then dispatched at its first slot. */
  lemma RegisterThenFire(s: State, key: string, job: Job, configHash: string, c: CronSchedule, t: Time, slot: Time)
    requires s.table.Keys <= {key} && s.now <= t <= slot && Next(c, t) == Some(slot)
    ensures var e, d := Register(key, job, configHash, c, t, t), Dispatch(slot, slot);
      && Enabled(s, e) && Enabled(Step(s, e), d)
      && Step(Step(s, e), d)
        == State(map[key := |s.jobs|], s.jobs + [Fired(NewJob(key, job, configHash, c, t), slot)],
                 s.inFlight + multiset{|s.jobs|}, slot)
  {
    hide Next, Step;
    RegisterOne(s, key, job, configHash, c, t);
    var r := Step(s, Register(key, job, configHash, c, t, t));
    DispatchOne(r, key, |s.jobs|, slot);
    assert r.jobs[|s.jobs| := Fired(NewJob(key, job, configHash, c, t), slot)]
      == s.jobs + [Fired(NewJob(key, job, configHash, c, t), slot)];
  }

  /** Otherwise they can: any schedule that fires twice, registered again during its first run,
      reaches a state with two runs of one key in flight. */
  lemma ReregistrationOverlaps(key: string, job: Job, configHash: string, c: CronSchedule, t: Time)
    returns (states: seq<State>, events: seq<Event>)
    requires Next(c, t).Some? && Next(c, Next(c, t).value).Some?
    ensures IsRun(states, events) && |events| == 4
    ensures var s := states[4];
      |s.jobs| == 2 && s.jobs[0].key == s.jobs[1].key == key && s.inFlight[0] == s.inFlight[1] == 1
  {
    var first := Next(c, t).value;
    var second := Next(c, first).value;
    hide Next, Step, Enabled, Fired, NewJob, IsRun, CronSchedule.IsNext;
    NextIsLater(c, t);
    NextIsLater(c, first);
    var e0, e2 := Register(key, job, configHash, c, t, t), Register(key, job, configHash, c, first, first);
    var e1, e3 := Dispatch(first, first), Dispatch(second, second);
    RegisterThenFire(Initial(t), key, job, configHash, c, t, first);
    var s2 := Step(Step(Initial(t), e0), e1);
    RegisterThenFire(s2, key, job, configHash, c, first, second);
    states, events := FourSteps(t, e0, e1, e2, e3);
    KeyOfFired(key, job, configHash, c, t, first);
    KeyOfFired(key, job, configHash, c, first, second);
  }

  lemma FourSteps(now: Time, e0: Event, e1: Event, e2: Event, e3: Event)
    returns (states: seq<State>, events: seq<Event>)
    requires Enabled(Initial(now), e0) && Enabled(Step(Initial(now), e0), e1)
    requires var s := Step(Step(Initial(now), e0), e1); Enabled(s, e2) && Enabled(Step(s, e2), e3)
    ensures IsRun(states, events) && |events| == 4
    ensures states[4] == Step(Step(Step(Step(Initial(now), e0), e1), e2), e3)
  {
    hide Step, Enabled;
    var s0 := Initial(now);
    var s1 := Step(s0, e0);
    var s2 := Step(s1, e1);
    var s3 := Step(s2, e2);
    states, events := [s0, s1, s2, s3, Step(s3, e3)], [e0, e1, e2, e3];
  }

  lemma KeyOfFired(key: string, job: Job, configHash: string, c: CronSchedule, t: Time, slot: Time)
    ensures Fired(NewJob(key, job, configHash, c, t), slot).key == key
  {
    hide Next;
  }
}
