/** The scheduler's table of mutable job objects. Each method is one or more steps of the state
    machine in SchedulerModel; `View` is the machine state an object graph stands for. */
module Scheduler {
  import opened Wrappers
  import opened Calendar
  import opened Cron
  import opened Models
  import opened SchedulerModel

  function JobKey(stackName: string, jobName: string): string {
    stackName + ":" + jobName
  }

  lemma ColonMarksTheStack(s1: string, n1: string, s2: string, n2: string)
    requires ':' !in n1 && |s1| < |s2|
    ensures JobKey(s1, n1) != JobKey(s2, n2)
  {
    var k1, k2 := JobKey(s1, n1), JobKey(s2, n2);
    assert k2[|s2|] == ':';
    assert |s2| < |k1| ==> k1[|s2|] == n1[|s2| - |s1| - 1];
  }

  /** A job name that passes validation holds no colon, so a key names one stack and one job. */
  lemma JobKeyIsInjective(s1: string, n1: string, s2: string, n2: string)
    requires ':' !in n1 && ':' !in n2
    ensures JobKey(s1, n1) == JobKey(s2, n2) <==> s1 == s2 && n1 == n2
  {
    var k1, k2 := JobKey(s1, n1), JobKey(s2, n2);
    if |s1| < |s2| {
      ColonMarksTheStack(s1, n1, s2, n2);
    } else if |s2| < |s1| {
      ColonMarksTheStack(s2, n2, s1, n1);
    } else {
      assert k1[..|s1|] == s1 && k2[..|s1|] == s2;
      assert k1[|s1| + 1..] == n1 && k2[|s1| + 1..] == n2;
    }
  }

  datatype RegisterError = NoSchedule | BadSchedule(cause: ScheduleError) | NoNextRun

  class ScheduledJob {
    const key: string
    const job: Job
    const configHash: string
    const schedule: CronSchedule
    var nextRun: Option<Time>
    var running: bool
    var active: bool
    ghost const id: nat
    ghost const registeredAt: Time
    ghost var firings: seq<Firing>

    constructor (key: string, job: Job, configHash: string, schedule: CronSchedule, next: Option<Time>,
                 ghost id: nat, ghost readAt: Time)
      requires next == Next(schedule, readAt)
      ensures View() == NewJob(key, job, configHash, schedule, readAt)
      ensures this.id == id && this.key == key && this.job == job && this.configHash == configHash
    {
      this.key, this.job, this.configHash, this.schedule := key, job, configHash, schedule;
      nextRun, running, active := next, false, true;
      this.id, registeredAt, firings := id, readAt, [];
    }

    ghost function View(): JobState
      reads this
    {
      JobState(key, job, configHash, schedule, registeredAt, nextRun, running, active, firings)
    }

    /** Under the scheduler's lock: marks the job running if it is due. */
    method StartIfDue(readAt: Time) returns (started: bool)
      modifies this
      ensures View() == Fired(old(View()), readAt)
      ensures started == Due(Refreshed(old(View()), readAt), readAt)
    {
      hide Next;
      if !active {
        return false;
      }
      if nextRun.None? {
        nextRun := FindNext(schedule, readAt);
      }
      if nextRun.Some? && nextRun.value <= readAt && !running {
        firings := firings + [Firing(nextRun.value, readAt, None)];
        running := true;
        return true;
      }
      return false;
    }

    /** Under the scheduler's lock: the end of a run. */
    method EndRun(at: Time)
      modifies this
      ensures View() == Finished(old(View()), at)
    {
      hide Next;
      running := false;
      nextRun := FindNext(schedule, at);
      if nextRun.None? {
        active := false;
      }
      firings := Closed(firings, at);
    }
  }

  /** Keys a list of jobs asks for. */
  function DesiredKeys(stackName: string, list: seq<Job>): set<string> {
    set j | j in list :: JobKey(stackName, j.name)
  }

  /** A sync of one stack lists no other stack's job, so it drops them all. */
  lemma OtherStacksAreUnlisted(stackName: string, list: seq<Job>, other: string, name: string)
    requires stackName != other && ':' !in name && forall j :: j in list ==> ':' !in j.name
    ensures JobKey(other, name) !in DesiredKeys(stackName, list)
  {
    forall j | j in list
      ensures JobKey(stackName, j.name) != JobKey(other, name)
    {
      JobKeyIsInjective(stackName, j.name, other, name);
    }
  }

  function ScheduledKeys(stackName: string, list: seq<Job>): set<string> {
    set j | j in list && j.schedule.Some? :: JobKey(stackName, j.name)
  }

  lemma ScheduledKeysGrow(stackName: string, list: seq<Job>, job: Job)
    ensures ScheduledKeys(stackName, list + [job])
      == ScheduledKeys(stackName, list) + (if job.schedule.Some? then {JobKey(stackName, job.name)} else {})
    ensures LastDefinition(stackName, list + [job], JobKey(stackName, job.name))
      == if job.schedule.Some? then Some(job) else LastDefinition(stackName, list, JobKey(stackName, job.name))
    ensures forall k :: job.schedule.None? || k != JobKey(stackName, job.name) ==>
      LastDefinition(stackName, list + [job], k) == LastDefinition(stackName, list, k)
  {
    hide JobKey;
    assert (list + [job])[..|list|] == list;
  }

  lemma ScheduledAreDesired(stackName: string, list: seq<Job>)
    ensures ScheduledKeys(stackName, list) <= DesiredKeys(stackName, list)
  {
    hide JobKey;
  }

  /** The last scheduled job of the list with the key. */
  function LastDefinition(stackName: string, list: seq<Job>, key: string): Option<Job> {
    if list == [] then None
    else
      var last := list[|list| - 1];
      if last.schedule.Some? && JobKey(stackName, last.name) == key then Some(last)
      else LastDefinition(stackName, list[..|list| - 1], key)
  }

  /** No later scheduled job of the list has the same key. */
  ghost predicate IsLast(stackName: string, list: seq<Job>, i: nat)
    requires i < |list|
  {
    && list[i].schedule.Some?
    && forall m :: i < m < |list| && list[m].schedule.Some? ==>
         JobKey(stackName, list[m].name) != JobKey(stackName, list[i].name)
  }

  lemma {:induction false} LastIsDefinition(stackName: string, list: seq<Job>, i: nat)
    requires i < |list| && IsLast(stackName, list, i)
    ensures LastDefinition(stackName, list, JobKey(stackName, list[i].name)) == Some(list[i])
  {
    hide JobKey;
    if i == |list| - 1 {
    } else {
      assert forall m :: i < m < |list| - 1 ==> list[..|list| - 1][m] == list[m];
      LastIsDefinition(stackName, list[..|list| - 1], i);
    }
  }

  lemma KeysOfList(stackName: string, list: seq<Job>, k: string)
    ensures k in ScheduledKeys(stackName, list)
      <==> exists j :: j in list && j.schedule.Some? && k == JobKey(stackName, j.name)
    ensures k in DesiredKeys(stackName, list) <==> exists j :: j in list && k == JobKey(stackName, j.name)
  {
    hide JobKey;
  }

  /** Whether `Register` accepts the job at a clock reading. */
  ghost predicate Registrable(job: Job, zones: map<string, Zone>, readAt: Time) {
    job.schedule.Some? && Readable(job.schedule.value, zones) && Next(Meaning(job.schedule.value, zones), readAt).Some?
  }

  /** The unlocked half of a registration: parse, then search from a clock reading. */
  method PlanRegistration(job: Job, zones: map<string, Zone>, readAt: Time)
    returns (r: Result<(CronSchedule, Option<Time>), RegisterError>)
    ensures r.Ok? <==> Registrable(job, zones, readAt)
    ensures r.Ok? ==> r.value.0 == Meaning(job.schedule.value, zones)
    ensures r.Ok? ==> r.value.1 == Next(r.value.0, readAt) && r.value.1.Some?
    ensures r == Err(NoSchedule) <==> job.schedule.None?
    ensures r == Err(NoNextRun) <==>
      job.schedule.Some? && Readable(job.schedule.value, zones) && !Registrable(job, zones, readAt)
  {
    hide Next, Cron.Meaning, Cron.Readable;
    if job.schedule.None? {
      return Err(NoSchedule);
    }
    var parsed := ParseSchedule(job.schedule.value, zones);
    if parsed.Err? {
      return Err(BadSchedule(parsed.error));
    }
    var next := FindNext(parsed.value, readAt);
    if next.None? {
      return Err(NoNextRun);
    }
    return Ok((parsed.value, next));
  }

  lemma FireNone(jobs: seq<JobState>, readAt: Time)
    ensures FireAll(jobs, {}, readAt) == jobs
  {
  }

  lemma IsDue(s: State, key: string, readAt: Time)
    requires key in s.table && s.table[key] < |s.jobs|
    ensures s.table[key] in s.table.Values
    ensures s.table[key] in DueIds(s, readAt) <==> Due(Refreshed(s.jobs[s.table[key]], readAt), readAt)
  {
    hide Due, Refreshed;
    assert s.table[key] in s.table.Values;
  }

  /** A table that grew from `was` by registering the scheduled jobs of the list in order. */
  ghost predicate Registered(table: map<string, ScheduledJob>, was: map<string, ScheduledJob>,
                             stackName: string, list: seq<Job>, configHash: string)
  {
    && table.Keys == was.Keys + ScheduledKeys(stackName, list)
    && forall k :: k in table ==>
         if k in ScheduledKeys(stackName, list)
         then LastDefinition(stackName, list, k) == Some(table[k].job) && table[k].configHash == configHash
         else table[k] == was[k]
  }

  lemma NothingRegistered(table: map<string, ScheduledJob>, stackName: string, configHash: string)
    ensures Registered(table, table, stackName, [], configHash)
  {
    assert ScheduledKeys(stackName, []) == {};
  }

  lemma UnscheduledNext(table: map<string, ScheduledJob>, was: map<string, ScheduledJob>,
                        stackName: string, list: seq<Job>, configHash: string, job: Job)
    requires Registered(table, was, stackName, list, configHash) && job.schedule.None?
    ensures Registered(table, was, stackName, list + [job], configHash)
  {
    hide JobKey, ScheduledKeys, LastDefinition;
    ScheduledKeysGrow(stackName, list, job);
  }

  lemma RegisteredNext(table: map<string, ScheduledJob>, was: map<string, ScheduledJob>,
                       stackName: string, list: seq<Job>, configHash: string, job: Job, o: ScheduledJob)
    requires Registered(table, was, stackName, list, configHash)
    requires job.schedule.Some? && o.job == job && o.configHash == configHash
    ensures Registered(table[JobKey(stackName, job.name) := o], was, stackName, list + [job], configHash)
  {
    hide JobKey, ScheduledKeys, LastDefinition;
    ScheduledKeysGrow(stackName, list, job);
  }

  /** The due objects among those visited, each once. */
  ghost predicate Collected(due: seq<ScheduledJob>, table: map<string, ScheduledJob>, done: set<nat>,
                            before: seq<JobState>, readAt: Time)
  {
    && (forall o :: o in due ==> o.key in table && table[o.key] == o)
    && (forall k :: k in table ==> table[k].id < |before|)
    && (forall k :: k in table ==>
          (table[k] in due <==> table[k].id in done && Due(Refreshed(before[table[k].id], readAt), readAt)))
    && forall i, j :: 0 <= i < j < |due| ==> due[i] != due[j]
  }

  lemma CollectedNext(due: seq<ScheduledJob>, table: map<string, ScheduledJob>, done: set<nat>,
                      before: seq<JobState>, readAt: Time, key: string)
    requires Collected(due, table, done, before, readAt)
    requires key in table && table[key].key == key && table[key].id !in done
    requires forall k :: k in table && table[k].id == table[key].id ==> k == key
    ensures Collected(if Due(Refreshed(before[table[key].id], readAt), readAt) then due + [table[key]] else due,
                      table, done + {table[key].id}, before, readAt)
  {
    hide Due, Refreshed;
    assert table[key] !in due;
  }

  /** The objects of the keys no longer pending are exactly the visited ones. */
  ghost predicate Visited(table: map<string, nat>, pending: set<string>, done: set<nat>) {
    done <= table.Values && forall k :: k in table ==> (k in pending <==> table[k] !in done)
  }

  lemma VisitedNext(table: map<string, nat>, pending: set<string>, done: set<nat>, key: string)
    requires Visited(table, pending, done) && key in table && key in pending
    requires forall k :: k in table && table[k] == table[key] ==> k == key
    ensures Visited(table, pending - {key}, done + {table[key]})
  {
  }

  lemma NotVisited(table: map<string, nat>, pending: set<string>, done: set<nat>, key: string)
    requires Visited(table, pending, done) && key in table && key in pending
    ensures table[key] !in done
  {
  }

  lemma AllVisited(table: map<string, nat>, done: set<nat>)
    requires Visited(table, {}, done)
    ensures done == table.Values
  {
  }

  lemma RegisterShape(s: State, key: string, job: Job, configHash: string, schedule: CronSchedule, readAt: Time,
                      at: Time)
    requires Inv(s) && s.now <= at && readAt <= at && Next(schedule, readAt).Some?
    ensures var e := SchedulerModel.Register(key, job, configHash, schedule, readAt, at);
      && Enabled(s, e) && Inv(Step(s, e))
      && Step(s, e) == State(s.table[key := |s.jobs|], s.jobs + [NewJob(key, job, configHash, schedule, readAt)],
                             s.inFlight, at)
  {
    hide Next;
    StepKeepsInv(s, SchedulerModel.Register(key, job, configHash, schedule, readAt, at));
  }

  lemma FinishShape(s: State, id: nat, at: Time)
    requires Inv(s) && s.now <= at && id in s.inFlight
    ensures id < |s.jobs| && Enabled(s, Finish(id, at)) && Inv(Step(s, Finish(id, at)))
    ensures Step(s, Finish(id, at))
      == State(s.table, s.jobs[id := Finished(s.jobs[id], at)], s.inFlight - multiset{id}, at)
  {
    hide Next, JobOk;
    StepKeepsInv(s, Finish(id, at));
  }

  lemma DispatchShape(s: State, readAt: Time, at: Time)
    requires Inv(s) && s.now <= at && readAt <= at
    ensures Enabled(s, Dispatch(readAt, at)) && Inv(Step(s, Dispatch(readAt, at)))
    ensures Step(s, Dispatch(readAt, at))
      == State(s.table, FireAll(s.jobs, s.table.Values, readAt), s.inFlight + multiset(DueIds(s, readAt)), at)
  {
    StepKeepsInv(s, Dispatch(readAt, at));
  }

  lemma DueAreDue(due: seq<ScheduledJob>, table: map<string, ScheduledJob>, s: State, readAt: Time)
    requires Collected(due, table, s.table.Values, s.jobs, readAt)
    requires s.table.Keys == table.Keys && forall k :: k in table ==> s.table[k] == table[k].id
    ensures forall o :: o in due ==> o.key in table && table[o.key] == o
    ensures forall k :: k in table ==> (table[k] in due <==> table[k].id in DueIds(s, readAt))
    ensures forall i, j :: 0 <= i < j < |due| ==> due[i] != due[j]
  {
    hide Due, Refreshed;
    forall k | k in table
      ensures table[k] in due <==> table[k].id in DueIds(s, readAt)
    {
      IsDue(s, k, readAt);
    }
  }

  class JobScheduler {
    var jobs: map<string, ScheduledJob>
    ghost var objects: seq<ScheduledJob>
    ghost var inFlight: multiset<nat>
    ghost var now: Time

    ghost predicate Valid()
      reads this, objects
    {
      && (forall i :: 0 <= i < |objects| ==> objects[i].id == i)
      && (forall k :: k in jobs ==> jobs[k] in objects)
      && Inv(View())
    }

    ghost function Table(): (table: map<string, nat>)
      reads this, objects
      ensures table.Keys == jobs.Keys && forall k :: k in jobs ==> table[k] == jobs[k].id
    {
      map k | k in jobs :: jobs[k].id
    }

    ghost function JobStates(): (states: seq<JobState>)
      reads this, objects
      ensures |states| == |objects| && forall i :: 0 <= i < |objects| ==> states[i] == objects[i].View()
    {
      seq(|objects|, i requires 0 <= i < |objects| reads this, objects => objects[i].View())
    }

    ghost function View(): State
      reads this, objects
    {
      State(Table(), JobStates(), inFlight, now)
    }

    /** The table and the object list point at each other consistently. */
    ghost predicate Linked()
      reads this
    {
      && (forall i :: 0 <= i < |objects| ==> objects[i].id == i)
      && forall k :: k in jobs ==> jobs[k].id < |objects| && objects[jobs[k].id] == jobs[k] && jobs[k].key == k
    }

    lemma ValidIsLinked()
      requires Valid()
      ensures Linked()
    {
      hide JobOk;
      forall k | k in jobs
        ensures jobs[k].key == k
      {
        assert View().table[k] == jobs[k].id && View().jobs[jobs[k].id] == objects[jobs[k].id].View();
      }
    }

    /** One iteration of a dispatch, for an object not yet visited. */
    method DispatchOne(key: string, readAt: Time, ghost before: seq<JobState>, ghost done: set<nat>)
      returns (started: bool)
      requires Linked() && key in jobs && |before| == |objects|
      requires jobs[key].id !in done && JobStates() == FireAll(before, done, readAt)
      modifies jobs[key]
      ensures unchanged(this) && Linked() && Table() == old(Table())
      ensures JobStates() == FireAll(before, done + {jobs[key].id}, readAt)
      ensures started <==> Due(Refreshed(before[jobs[key].id], readAt), readAt)
    {
      hide Fired, Due, Refreshed, FireAll;
      var j := jobs[key];
      FireAllStep(before, done, j.id, readAt);
      ghost var states := JobStates();
      assert j.View() == before[j.id];
      started := j.StartIfDue(readAt);
      assert JobStates() == states[j.id := Fired(before[j.id], readAt)];
    }

    constructor (ghost start: Time)
      ensures Valid() && fresh(this) && jobs == map[] && objects == []
      ensures View() == Initial(start)
    {
      jobs, objects, inFlight, now := map[], [], multiset{}, start;
    }

    /** The locked region of a registration. */
    method Insert(key: string, job: Job, configHash: string, schedule: CronSchedule, next: Option<Time>,
                  ghost readAt: Time, ghost at: Time)
      requires Valid() && now <= at && readAt <= at
      requires next == Next(schedule, readAt) && next.Some?
      modifies this
      ensures Valid()
      ensures now == at
      ensures var e := SchedulerModel.Register(key, job, configHash, schedule, readAt, at);
        Enabled(old(View()), e) && View() == Step(old(View()), e)
      ensures key in jobs && fresh(jobs[key]) && jobs == old(jobs)[key := jobs[key]]
      ensures jobs[key].job == job && jobs[key].configHash == configHash
    {
      hide Next, Inv, Table, JobStates, Step, Enabled;
      ghost var before := View();
      RegisterShape(before, key, job, configHash, schedule, readAt, at);
      var o := new ScheduledJob(key, job, configHash, schedule, next, |objects|, readAt);
      jobs := jobs[key := o];
      objects := objects + [o];
      now := at;
      assert Table() == before.table[key := |before.jobs|];
      assert JobStates() == before.jobs + [o.View()];
    }

    /** Parses and searches on an earlier clock reading, then stores a fresh object; an error
        leaves the scheduler as it was. */
    method Register(stackName: string, job: Job, configHash: string, zones: map<string, Zone>, readAt: Time,
                    ghost at: Time)
      returns (r: Result<(), RegisterError>, ghost e: Event)
      requires Valid() && now <= at && readAt <= at
      modifies this
      ensures Valid()
      ensures r.Ok? <==> Registrable(job, zones, readAt)
      ensures r == Err(NoSchedule) <==> job.schedule.None?
      ensures r.Err? ==> unchanged(this)
      ensures r.Ok? ==> now == at
      ensures r.Ok? ==>
        e == SchedulerModel.Register(
          JobKey(stackName, job.name), job, configHash, Meaning(job.schedule.value, zones), readAt, at)
      ensures r.Ok? ==> Enabled(old(View()), e) && View() == Step(old(View()), e)
      ensures r.Ok? ==>
        var key := JobKey(stackName, job.name);
        && key in jobs && fresh(jobs[key]) && jobs == old(jobs)[key := jobs[key]]
        && jobs[key].job == job && jobs[key].configHash == configHash
    {
      hide Valid, Registrable, Next, Cron.Meaning, Step, Enabled, View;
      e := SchedulerModel.Unregister("", at);
      var plan := PlanRegistration(job, zones, readAt);
      if plan.Err? {
        return Err(plan.error), e;
      }
      var key := JobKey(stackName, job.name);
      e := SchedulerModel.Register(key, job, configHash, plan.value.0, readAt, at);
      Insert(key, job, configHash, plan.value.0, plan.value.1, readAt, at);
      return Ok(()), e;
    }

    method Unregister(stackName: string, jobName: string, ghost at: Time)
      requires Valid() && now <= at
      modifies this
      ensures Valid() && objects == old(objects)
      ensures jobs == old(jobs) - {JobKey(stackName, jobName)}
      ensures View() == Step(old(View()), SchedulerModel.Unregister(JobKey(stackName, jobName), at))
    {
      hide Next, JobOk, Inv, Table, JobStates, JobKey;
      ghost var before := View();
      var key := JobKey(stackName, jobName);
      StepKeepsInv(before, SchedulerModel.Unregister(key, at));
      jobs := jobs - {key};
      now := at;
      assert Table() == before.table - {key};
      assert JobStates() == before.jobs;
    }

    /** The last locked region of a sync. */
    method PruneExcept(keep: set<string>, ghost at: Time)
      requires Valid() && now <= at
      modifies this
      ensures Valid() && objects == old(objects)
      ensures jobs == map k | k in old(jobs) && k in keep :: old(jobs)[k]
      ensures Enabled(old(View()), Prune(keep, at)) && View() == Step(old(View()), Prune(keep, at))
    {
      hide Next, JobOk, Inv, Table, JobStates;
      ghost var before := View();
      jobs := map k | k in jobs && k in keep :: jobs[k];
      now := at;
      assert Table() == map k | k in before.table && k in keep :: before.table[k];
      assert JobStates() == before.jobs;
      StepKeepsInv(before, Prune(keep, at));
    }

    /** The registering loop of a sync: a sequence of machine steps, cut short by the first job
        that cannot be registered. */
    method RegisterAll(stackName: string, list: seq<Job>, configHash: string, zones: map<string, Zone>,
                       readings: seq<Time>, ghost clock: seq<Time>)
      returns (r: Result<(), RegisterError>, ghost events: seq<Event>)
      requires Valid() && |clock| == |list| + 1 && |readings| == |list|
      requires forall i :: 0 <= i < |list| ==> readings[i] <= clock[i]
      requires forall i :: 0 <= i < |clock| ==> now <= clock[i]
      requires forall i, j :: 0 <= i < j < |clock| ==> clock[i] <= clock[j]
      modifies this
      ensures Valid() && now <= clock[|list|]
      ensures RunFrom(old(View()), events) == Some(View())
      ensures r.Ok? <==> forall i :: 0 <= i < |list| && list[i].schedule.Some? ==>
        Registrable(list[i], zones, readings[i])
      ensures r.Ok? ==> Registered(jobs, old(jobs), stackName, list, configHash)
      ensures old(jobs.Keys) <= jobs.Keys
    {
      hide Valid, Registrable, RunFrom, Cron.Meaning, Next, Step, Enabled, View, JobKey, Registered;
      events := [];
      ghost var start := View();
      NoSteps(start);
      NothingRegistered(jobs, stackName, configHash);
      assert list[..0] == [];
      for i := 0 to |list|
        invariant Valid() && now <= clock[i]
        invariant RunFrom(start, events) == Some(View())
        invariant forall j :: 0 <= j < i && list[j].schedule.Some? ==> Registrable(list[j], zones, readings[j])
        invariant Registered(jobs, old(jobs), stackName, list[..i], configHash)
        invariant old(jobs.Keys) <= jobs.Keys
      {
        var job := list[i];
        assert list[..i + 1] == list[..i] + [job];
        ghost var before, was := View(), jobs;
        if job.schedule.Some? {
          var res, e := Register(stackName, job, configHash, zones, readings[i], clock[i]);
          if res.Err? {
            return Err(res.error), events;
          }
          RegisteredNext(was, old(jobs), stackName, list[..i], configHash, job, jobs[JobKey(stackName, job.name)]);
          RunFromAppends(start, events, before, e);
          events := events + [e];
        } else {
          UnscheduledNext(was, old(jobs), stackName, list[..i], configHash, job);
        }
      }
      assert list[..|list|] == list;
      return Ok(()), events;
    }

    /** Without interference: on success the table holds exactly the scheduled jobs of the list,
        under their last definition, and the old entries the list still names without a
        schedule. A failure removes no key. Either way it is a sequence of machine steps. */
    method Sync(stackName: string, list: seq<Job>, configHash: string, zones: map<string, Zone>,
                readings: seq<Time>, ghost clock: seq<Time>)
      returns (r: Result<(), RegisterError>, ghost events: seq<Event>)
      requires Valid() && |clock| == |list| + 1 && |readings| == |list|
      requires forall i :: 0 <= i < |list| ==> readings[i] <= clock[i]
      requires forall i :: 0 <= i < |clock| ==> now <= clock[i]
      requires forall i, j :: 0 <= i < j < |clock| ==> clock[i] <= clock[j]
      modifies this
      ensures Valid()
      ensures RunFrom(old(View()), events) == Some(View())
      ensures r.Ok? <==> forall i :: 0 <= i < |list| && list[i].schedule.Some? ==>
        Registrable(list[i], zones, readings[i])
      ensures r.Ok? ==> forall k :: k in jobs <==>
        || (exists j :: j in list && j.schedule.Some? && k == JobKey(stackName, j.name))
        || (k in old(jobs) && exists j :: j in list && k == JobKey(stackName, j.name))
      ensures r.Ok? ==> forall i :: 0 <= i < |list| && IsLast(stackName, list, i) ==>
        var k := JobKey(stackName, list[i].name);
        k in jobs && jobs[k].job == list[i] && jobs[k].configHash == configHash
      ensures r.Ok? ==>
        forall k :: k in jobs && !(exists j :: j in list && j.schedule.Some? && k == JobKey(stackName, j.name)) ==>
          jobs[k] == old(jobs)[k]
      ensures r.Err? ==> old(jobs.Keys) <= jobs.Keys
    {
      ghost var start := View();
      hide Valid, Registrable, RunFrom, Step, Enabled, View, JobKey, ScheduledKeys, DesiredKeys, LastDefinition;
      r, events := RegisterAll(stackName, list, configHash, zones, readings, clock);
      if r.Err? {
        return;
      }
      ghost var before, keep := View(), DesiredKeys(stackName, list);
      ScheduledAreDesired(stackName, list);
      PruneExcept(DesiredKeys(stackName, list), clock[|list|]);
      RunFromAppends(start, events, before, Prune(keep, clock[|list|]));
      events := events + [Prune(keep, clock[|list|])];
      forall k
        ensures k in ScheduledKeys(stackName, list)
          <==> exists j :: j in list && j.schedule.Some? && k == JobKey(stackName, j.name)
        ensures k in DesiredKeys(stackName, list) <==> exists j :: j in list && k == JobKey(stackName, j.name)
      {
        KeysOfList(stackName, list, k);
      }
      forall i | 0 <= i < |list| && IsLast(stackName, list, i)
        ensures LastDefinition(stackName, list, JobKey(stackName, list[i].name)) == Some(list[i])
        ensures JobKey(stackName, list[i].name) in ScheduledKeys(stackName, list)
      {
        LastIsDefinition(stackName, list, i);
        assert list[i] in list;
      }
    }

    lemma NothingMarked(before: seq<JobState>, readAt: Time)
      requires Linked() && JobStates() == before
      ensures Collected([], jobs, {}, before, readAt) && Visited(Table(), jobs.Keys, {})
    {
      hide Due, Refreshed;
    }

    /** The loop over the table, under the lock. */
    method MarkDue(readAt: Time, ghost before: seq<JobState>) returns (due: seq<ScheduledJob>)
      requires Linked() && JobStates() == before
      modifies objects
      ensures JobStates() == FireAll(before, Table().Values, readAt)
      ensures unchanged(this) && Linked() && Table() == old(Table())
      ensures Collected(due, jobs, Table().Values, before, readAt)
    {
      hide Fired, Due, Refreshed, FireAll, JobStates, Collected, Visited, Table;
      ghost var done: set<nat>, table := {}, Table();
      FireNone(before, readAt);
      due := [];
      var pending := jobs.Keys;
      NothingMarked(before, readAt);
      while pending != {}
        invariant unchanged(this) && pending <= jobs.Keys && Visited(table, pending, done)
        invariant Linked() && Table() == table
        invariant JobStates() == FireAll(before, done, readAt)
        invariant Collected(due, jobs, done, before, readAt)
        decreases |pending|
      {
        var k :| k in pending;
        var j := jobs[k];
        NotVisited(table, pending, done, k);
        VisitedNext(table, pending, done, k);
        CollectedNext(due, jobs, done, before, readAt, k);
        var started := DispatchOne(k, readAt, before, done);
        if started {
          due := due + [j];
        }
        done := done + {j.id};
        pending := pending - {k};
      }
      AllVisited(table, done);
    }

    lemma SameTable(table: map<string, nat>)
      requires table.Keys == jobs.Keys && forall k :: k in jobs ==> table[k] == jobs[k].id
      ensures Table() == table
    {
    }

    /** The locked region of a dispatch. */
    method DispatchLocked(readAt: Time, ghost at: Time) returns (due: seq<ScheduledJob>)
      requires Valid() && now <= at && readAt <= at
      modifies this, objects
      ensures Valid() && objects == old(objects) && jobs == old(jobs)
      ensures View() == Step(old(View()), Dispatch(readAt, at))
      ensures forall o :: o in due ==> o.key in jobs && jobs[o.key] == o
      ensures forall k :: k in jobs ==> (jobs[k] in due <==> jobs[k].id in DueIds(old(View()), readAt))
      ensures forall i, j :: 0 <= i < j < |due| ==> due[i] != due[j]
    {
      hide Step, Enabled, Inv, Due, Refreshed, FireAll, DueIds, JobStates, Table, Collected;
      ghost var before := View();
      ValidIsLinked();
      DispatchShape(before, readAt, at);
      due := MarkDue(readAt, before.jobs);
      DueAreDue(due, jobs, before, readAt);
      ghost var fired := JobStates();
      inFlight := inFlight + multiset(DueIds(before, readAt));
      now := at;
      SameTable(before.table);
      assert JobStates() == fired;
    }

    lemma InTable(k: string)
      requires Valid() && k in jobs
      ensures jobs[k].id < |objects| && objects[jobs[k].id] == jobs[k]
      ensures View().table[k] == jobs[k].id && View().jobs[jobs[k].id] == jobs[k].View()
      ensures jobs[k].id in View().table.Values
    {
      ValidIsLinked();
      assert View().table[k] == jobs[k].id;
    }

    /** Hands over exactly the jobs that are active, idle and due, marked running with one more firing at
        their slots; the others stay as they are. */
    method DispatchDue(readAt: Time, ghost at: Time) returns (due: seq<ScheduledJob>)
      requires Valid() && now <= at && readAt <= at
      modifies this, objects
      ensures Valid() && objects == old(objects) && jobs == old(jobs)
      ensures View() == Step(old(View()), Dispatch(readAt, at))
      ensures forall o :: o in due ==> o.key in jobs && jobs[o.key] == o
      ensures forall k :: k in jobs ==>
        (jobs[k] in due <==>
          old(jobs[k].active) && !old(jobs[k].running) && old(jobs[k].nextRun).Some?
          && old(jobs[k].nextRun).value <= readAt)
      ensures forall k :: k in jobs && jobs[k] in due ==>
        jobs[k].View() == old(jobs[k].View()).(
          running := true,
          firings := old(jobs[k].firings) + [Firing(old(jobs[k].nextRun).value, readAt, None)])
      ensures forall k :: k in jobs && jobs[k] !in due ==> jobs[k].View() == old(jobs[k].View())
      ensures forall i, j :: 0 <= i < j < |due| ==> due[i] != due[j]
    {
      hide Valid, Step, Enabled, Inv, DueIds, JobStates, Table, View;
      ghost var before := View();
      ghost var looks := map k | k in jobs :: jobs[k].View();
      forall k | k in jobs
        ensures jobs[k].id in before.table.Values && jobs[k].id < |before.jobs|
        ensures before.jobs[jobs[k].id] == looks[k] && Inv(before) && before.now <= at
      {
        InTable(k);
        ValidIsInv();
      }
      due := DispatchLocked(readAt, at);
      forall k | k in jobs
        ensures jobs[k] in due <==> looks[k].active && !looks[k].running && looks[k].nextRun.Some?
                                    && looks[k].nextRun.value <= readAt
        ensures jobs[k].View() == if jobs[k] in due
                                  then looks[k].(running := true,
                                                 firings := looks[k].firings
                                                            + [Firing(looks[k].nextRun.value, readAt, None)])
                                  else looks[k]
      {
        InTable(k);
        DueExactly(before, readAt, at, jobs[k].id);
        DispatchStep(before, readAt, at, jobs[k].id);
      }
    }

    lemma ValidIsInv()
      requires Valid()
      ensures Inv(View()) && View().now == now
    {
    }

    /** The end of a run, whether or not the table still holds the job. */
    method FinishRun(job: ScheduledJob, at: Time)
      requires Valid() && job in objects && job.id in inFlight && now <= at
      modifies this, job
      ensures Valid() && objects == old(objects) && jobs == old(jobs)
      ensures View() == Step(old(View()), Finish(job.id, at))
    {
      hide Next, Inv, Table, JobStates, Step, Enabled, Finished;
      ghost var before := View();
      FinishShape(before, job.id, at);
      job.EndRun(at);
      inFlight := inFlight - multiset{job.id};
      now := at;
      assert JobStates() == before.jobs[job.id := Finished(before.jobs[job.id], at)];
      assert Table() == before.table;
    }
  }
}
