/** The reconciler: drives the engine from the containers it finds to the services a stack
    declares, stopping at the first error. */
module Reconciler {
  import opened Wrappers
  import opened Text
  import opened Labels
  import opened Models
  import opened Spec
  import opened Validation
  import opened Engine
  import opened ReconcilerModel

  datatype Desired = Desired(
    name: string, services: seq<Service>, jobs: seq<Job>, triggers: seq<Trigger>, configHash: string)

  /** `Stack.Validate`. It does not ask for distinct names. */
  function StackFault(d: Desired, lib: Library): Fault {
    if Blank(d.name) then Some("name")
    else
      var services := FirstFault(d.services, s => ServiceFault(s, lib));
      var jobs := FirstFault(d.jobs, j => JobFault(j, lib));
      if services.Some? then services
      else if jobs.Some? then jobs
      else FirstFault(d.triggers, TriggerFault)
  }

  ghost predicate StackAllowed(d: Desired, lib: Library) {
    && Shown(d.name) && (forall s :: s in d.services ==> ServiceAllowed(s, lib))
    && (forall j :: j in d.jobs ==> JobAllowed(j, lib)) && (forall t :: t in d.triggers ==> TriggerAllowed(t))
  }

  lemma StackExactly(d: Desired, lib: Library)
    ensures StackFault(d, lib) == None <==> StackAllowed(d, lib)
  {
    hide FirstFault, Blank, Shown, ServiceFault, ServiceAllowed, JobFault, JobAllowed, TriggerFault, TriggerAllowed;
    ShownExactly(d.name);
    NoFault(d.services, s => ServiceFault(s, lib));
    NoFault(d.jobs, j => JobFault(j, lib));
    NoFault(d.triggers, TriggerFault);
    forall s
      ensures ServiceFault(s, lib) == None <==> ServiceAllowed(s, lib)
    {
      ServiceExactly(s, lib);
    }
    forall j
      ensures JobFault(j, lib) == None <==> JobAllowed(j, lib)
    {
      JobExactly(j, lib);
    }
    forall t
      ensures TriggerFault(t) == None <==> TriggerAllowed(t)
    {
      TriggerExactly(t);
    }
  }

  class Report {
    var created: seq<string>
    var updated: seq<string>
    var recreated: seq<string>
    var removed: seq<string>
    var skipped: seq<string>
    var warnings: seq<string>

    constructor ()
      ensures created == updated == recreated == removed == skipped == warnings == []
    {
      created, updated, recreated, removed, skipped, warnings := [], [], [], [], [], [];
    }

    ghost function View(): Tally
      reads this
    {
      Tally(created, updated, recreated, removed, skipped)
    }
  }

  /** The report's lists, warnings aside. */
  datatype Tally = Tally(created: seq<string>, updated: seq<string>, recreated: seq<string>, removed: seq<string>,
                         skipped: seq<string>)

  /** How one successful service step is reported; a kept container counts as skipped when it was
      already running and as updated when it had to be started. */
  ghost predicate Logged(before: Tally, after: Tally, name: string, outcome: Outcome, wasRunning: bool) {
    match outcome
    case Kept =>
      after == (if wasRunning then before.(skipped := before.skipped + [name])
                else before.(updated := before.updated + [name]))
    case Replaced => after == before.(created := before.created + [name], recreated := before.recreated + [name])
    case _ => after == before.(created := before.created + [name])
  }

  /** The managed containers of a stack, collapsed to one per workload label. */
  method LoadActualState(runtime: Runtime, stackName: string)
    returns (r: Result<map<string, Summary>, string>, ghost items: seq<Summary>)
    ensures r.Ok? ==> Lists(runtime.containers, stackName, items) && r.value == Collapse(items)
    ensures r.Ok? ==> Loaded(runtime.containers, stackName, r.value)
  {
    var listed := runtime.ListContainers(stackName);
    if listed.Err? {
      return Err(listed.error), [];
    }
    var found := listed.value;
    var out: map<string, Summary> := map[];
    for i := 0 to |found|
      invariant out == Collapse(found[..i])
    {
      assert found[..i + 1][..i] == found[..i];
      var workload := Label(found[i].container.labels, WORKLOAD);
      if workload != "" {
        out := out[workload := found[i]];
      }
    }
    assert found[..|found|] == found;
    ListingLoads(runtime.containers, stackName, found);
    return Ok(out), found;
  }

  function HealthName(health: string): string {
    if health == "healthy" then "healthy"
    else if health == "unhealthy" then "unhealthy"
    else if health == "starting" then "degraded"
    else "unknown"
  }

  /** What the state store is told of an inspected container's health. */
  lemma HealthNames(health: string)
    ensures HealthName(health) == "healthy" <==> health == "healthy"
    ensures HealthName(health) == "unhealthy" <==> health == "unhealthy"
    ensures HealthName(health) == "degraded" <==> health == "starting"
    ensures health !in {"healthy", "unhealthy", "starting"} ==> HealthName(health) == "unknown"
  {
    assert "unknown"[0] != "healthy"[0] && "unknown"[2] != "unhealthy"[2] && "unknown"[0] != "degraded"[0];
    assert "degraded"[0] != "healthy"[0] && "degraded"[0] != "unhealthy"[0] && "healthy"[0] != "unhealthy"[0];
  }

  predicate IsRunning(w: World, id: nat) {
    id in w && w[id].state == RUNNING
  }

  /** The containers a service's step may touch. */
  ghost function OwnEntry(actual: map<string, Summary>, s: Service): set<nat> {
    if s.name in actual then {actual[s.name].id} else {}
  }

  /** Containers asked to start, stop or go away: only allowed ones and new ones. */
  ghost predicate TouchedOnly(before: set<nat>, after: set<nat>, allowed: set<nat>, firstNew: nat) {
    forall id :: id in after ==> id in before || id in allowed || id >= firstNew
  }

  ghost predicate Recorded(services: map<(string, string), ServiceRecord>, stackName: string, s: Service,
                           configHash: string)
  {
    && (stackName, s.name) in services && services[(stackName, s.name)].configHash == configHash
    && services[(stackName, s.name)].lifecycle == RUNNING
  }

  /** Only the service's own record was written, as running under the given hash. */
  ghost predicate Upserted(before: map<(string, string), ServiceRecord>, after: map<(string, string), ServiceRecord>,
                           stackName: string, s: Service, configHash: string)
  {
    Recorded(after, stackName, s, configHash)
    && after == before[(stackName, s.name) := after[(stackName, s.name)]]
  }

  lemma TouchedTwice(before: set<nat>, mid: set<nat>, after: set<nat>, allowed: set<nat>, more: set<nat>,
                     firstNew: nat, later: nat)
    requires TouchedOnly(before, mid, allowed, firstNew) && TouchedOnly(mid, after, more, later)
    requires more <= allowed && firstNew <= later
    ensures TouchedOnly(before, after, allowed, firstNew)
  {
  }

  lemma RemovalIsConfined(w: World, mid: World, after: World, id: nat, firstNew: nat)
    requires MayRestate(w, mid, id) && (after == mid || after == mid - {id})
    ensures Confined(w, after, {id}, firstNew)
    ensures after == mid - {id} ==> after == w - {id}
  {
  }

  lemma CreationIsConfined(w: World, made: World, after: World, id: nat, c: Container, firstNew: nat)
    requires (made == w || made == w[id := c]) && id >= firstNew && MayRestate(made, after, id)
    requires forall k :: k in w ==> k < firstNew
    ensures Confined(w, after, {}, firstNew)
  {
  }

  /** Whatever names matter, a service's step keeps the stack sane. */
  ghost predicate StepIsSane(w: World, after: World, stackName: string, s: Service) {
    forall names :: s.name in names && s.name != "" && Sane(w, stackName, names) ==> Sane(after, stackName, names)
  }

  lemma CreationIsSane(w: World, made: World, after: World, id: nat, stackName: string, s: Service)
    requires id !in w && MayRestate(made, after, id)
    requires made == w
             || (made == w[id := NewContainer(ServiceSpec(stackName, s))]
                 && NameFree(w, BuildContainerName(stackName, s.name)))
    ensures StepIsSane(w, after, stackName, s)
  {
    hide BuildContainerName, Sane, NewContainer;
    forall names | s.name in names && s.name != "" && Sane(w, stackName, names)
      ensures Sane(after, stackName, names)
    {
      if made != w {
        CreationKeepsSane(w, stackName, names, s, id);
      }
      ThinningKeepsSane(made, after, stackName, names);
    }
  }

  /** Without new containers a confined change only thins. */
  lemma ConfinedThins(w: World, after: World, allowed: set<nat>, firstNew: nat)
    requires Confined(w, after, allowed, firstNew) && forall id :: id in after ==> id < firstNew
    ensures Thinned(w, after)
  {
  }

  lemma ThinIsSane(w: World, after: World, stackName: string, s: Service)
    requires Thinned(w, after)
    ensures StepIsSane(w, after, stackName, s)
  {
    hide Sane, Thinned;
    forall names | s.name in names && s.name != "" && Sane(w, stackName, names)
      ensures Sane(after, stackName, names)
    {
      ThinningKeepsSane(w, after, stackName, names);
    }
  }

  lemma SaneSteps(w: World, mid: World, after: World, stackName: string, s: Service)
    requires StepIsSane(w, mid, stackName, s) && StepIsSane(mid, after, stackName, s)
    ensures StepIsSane(w, after, stackName, s)
  {
    hide Sane;
  }

  /** A stack whose services have names stays sane for them. */
  ghost predicate KeepsSane(w0: World, w: World, d: Desired) {
    (forall s :: s in d.services ==> s.name != "") && Sane(w0, d.name, NameSet(d.services)) ==>
      Sane(w, d.name, NameSet(d.services))
  }

  lemma KeepsSaneStep(w0: World, w: World, after: World, d: Desired, s: Service)
    requires KeepsSane(w0, w, d) && StepIsSane(w, after, d.name, s) && s in d.services
    ensures KeepsSane(w0, after, d)
  {
    hide Sane;
  }

  lemma KeepsSaneThins(w0: World, w: World, after: World, d: Desired)
    requires KeepsSane(w0, w, d) && Thinned(w, after)
    ensures KeepsSane(w0, after, d)
  {
    hide Sane, Thinned;
    if Sane(w, d.name, NameSet(d.services)) {
      ThinningKeepsSane(w, after, d.name, NameSet(d.services));
    }
  }

  lemma ConfinedMore(w: World, after: World, before: set<nat>, touched: set<nat>, allowed: set<nat>, firstNew: nat)
    requires Confined(w, after, {}, firstNew) && TouchedOnly(before, touched, {}, firstNew)
    ensures Confined(w, after, allowed, firstNew) && TouchedOnly(before, touched, allowed, firstNew)
  {
  }

  /** When the names done so far are distinct, the pass stands as `Progress` says. */
  ghost predicate PassProgress(w0: World, d: Desired, actual: map<string, Summary>, services: seq<Service>, w: World,
                               owner: map<string, nat>, abandoned: set<nat>, pending: set<string>)
  {
    Distinct(ServiceNames(services)) ==>
      && Progress(w0, d.name, d.configHash, actual, services, w, owner, abandoned, pending)
      && abandoned <= ManagedIds(w0, d.name)
  }

  lemma StartOfServices(w: World, d: Desired, actual: map<string, Summary>)
    requires Loaded(w, d.name, actual)
    ensures PassProgress(w, d, actual, [], w, map[], {}, actual.Keys - NameSet([]))
    ensures Reported(Tally([], [], [], [], []), [])
  {
    StartOfPass(w, d.name, d.configHash, actual);
    assert actual.Keys - NameSet([]) == actual.Keys;
  }

  lemma OwnEntryIsManaged(w0: World, stackName: string, actual: map<string, Summary>, s: Service)
    requires Loaded(w0, stackName, actual)
    ensures OwnEntry(actual, s) <= ManagedIds(w0, stackName)
  {
  }

  lemma NamesGrow(services: seq<Service>, s: Service)
    ensures ServiceNames(services + [s]) == ServiceNames(services) + [s.name]
    ensures NameSet(services + [s]) == NameSet(services) + {s.name}
    ensures Distinct(ServiceNames(services + [s])) ==> Distinct(ServiceNames(services)) && s.name !in NameSet(services)
  {
    var names := ServiceNames(services);
    assert ServiceNames(services + [s]) == names + [s.name];
    if Distinct(ServiceNames(services + [s])) {
      forall i, j | 0 <= i < j < |names|
        ensures names[i] != names[j]
      {
        assert (names + [s.name])[i] != (names + [s.name])[j];
      }
      forall t | t in services
        ensures t.name != s.name
      {
        var i :| 0 <= i < |services| && services[i] == t;
        assert (names + [s.name])[i] != (names + [s.name])[|names|];
      }
    }
  }

  lemma PassStep(w0: World, d: Desired, actual: map<string, Summary>, services: seq<Service>, w: World,
                 owner: map<string, nat>, abandoned: set<nat>, s: Service, after: World, outcome: Outcome, id: nat)
    requires PassProgress(w0, d, actual, services, w, owner, abandoned, actual.Keys - NameSet(services))
    requires Loaded(w0, d.name, actual) && (outcome != Kept ==> id !in w0)
    requires ServiceStep(w, after, d.name, s, d.configHash, actual, outcome, id)
    ensures outcome == Abandoned ==> s.name in actual
    ensures PassProgress(w0, d, actual, services + [s], after, owner[s.name := id],
                         if outcome == Abandoned then abandoned + {actual[s.name].id} else abandoned,
                         actual.Keys - NameSet(services + [s]))
  {
    NamesGrow(services, s);
    if Distinct(ServiceNames(services + [s])) {
      OwnersAreDone(w0, d, actual, services, w, owner, abandoned, actual.Keys - NameSet(services));
      hide Progress, BuildContainerName, Current, Running, NameFree;
      ServiceStepProgress(w0, d.name, d.configHash, actual, services, w, owner, abandoned, s, after, outcome, id);
      assert owner[s.name := id].Keys == NameSet(services + [s]);
    }
  }

  lemma OwnersAreDone(w0: World, d: Desired, actual: map<string, Summary>, services: seq<Service>, w: World,
                      owner: map<string, nat>, abandoned: set<nat>, pending: set<string>)
    requires Progress(w0, d.name, d.configHash, actual, services, w, owner, abandoned, pending)
    ensures owner.Keys == NameSet(services)
  {
  }

  /** Every service is reported once, as created, updated or skipped; replacements are created too. */
  ghost predicate Reported(t: Tally, services: seq<Service>) {
    && multiset(t.created) + multiset(t.updated) + multiset(t.skipped) == multiset(ServiceNames(services))
    && multiset(t.recreated) <= multiset(t.created)
  }

  lemma ReportStep(t: Tally, after: Tally, services: seq<Service>, s: Service, outcome: Outcome, wasRunning: bool)
    requires Reported(t, services) && Logged(t, after, s.name, outcome, wasRunning)
    ensures Reported(after, services + [s]) && after.removed == t.removed
  {
    NamesGrow(services, s);
    hide NameSet, Distinct;
  }

  ghost predicate AllRecorded(records: map<(string, string), ServiceRecord>, d: Desired, services: seq<Service>) {
    forall s :: s in services ==> Recorded(records, d.name, s, d.configHash)
  }

  lemma RecordStep(before: map<(string, string), ServiceRecord>, after: map<(string, string), ServiceRecord>,
                   d: Desired, services: seq<Service>, s: Service)
    requires AllRecorded(before, d, services) && Upserted(before, after, d.name, s, d.configHash)
    ensures AllRecorded(after, d, services + [s])
  {
  }

  lemma EntryIsManaged(w0: World, stackName: string, actual: map<string, Summary>, n: string)
    requires Loaded(w0, stackName, actual) && n in actual
    ensures actual[n].id in ManagedIds(w0, stackName) && Label(actual[n].container.labels, MANAGED) == "true"
  {
  }

  lemma PrunePass(w0: World, d: Desired, actual: map<string, Summary>, w: World, owner: map<string, nat>,
                  abandoned: set<nat>, pending: set<string>, n: string)
    requires PassProgress(w0, d, actual, d.services, w, owner, abandoned, pending)
    requires Loaded(w0, d.name, actual) && n in pending && n in actual
    ensures PassProgress(w0, d, actual, d.services, w - {actual[n].id}, owner, abandoned, pending - {n})
  {
    hide Progress, Loaded;
    if Distinct(ServiceNames(d.services)) {
      PruneStep(w0, d.name, d.configHash, actual, d.services, w, owner, abandoned, pending, n);
    }
  }

  /** The desired workloads left in the loop's way, and what has been removed, as one is visited. */
  lemma PruneSets(keys: set<string>, desired: set<string>, todo: set<string>, n: string)
    requires n in todo && todo <= keys
    ensures var pending, removed := todo - desired, keys - desired - todo;
      if n in desired
      then todo - {n} - desired == pending && keys - desired - (todo - {n}) == removed
      else todo - {n} - desired == pending - {n}
           && multiset(keys - desired - (todo - {n})) == multiset(removed) + multiset{n}
  {
    if n !in desired {
      assert keys - desired - (todo - {n}) == (keys - desired - todo) + {n};
    } else {
      assert keys - desired - (todo - {n}) == keys - desired - todo;
    }
  }

  lemma ReportedIgnoresRemoved(t: Tally, removed: seq<string>, services: seq<Service>)
    ensures Reported(t.(removed := removed), services) == Reported(t, services)
  {
  }

  /** What a prune starts from. */
  datatype PruneStart = Prunes(w0: World, world: World, firstNew: nat, touched: set<nat>, owner: map<string, nat>,
                               abandoned: set<nat>)

  /** A prune with some loaded workloads still to visit. */
  ghost predicate PruneState(p: PruneStart, d: Desired, actual: map<string, Summary>, w: World, touched: set<nat>,
                             removed: seq<string>, todo: set<string>)
  {
    && Loaded(p.w0, d.name, actual) && todo <= actual.Keys
    && Confined(p.world, w, ManagedIds(p.w0, d.name), p.firstNew)
    && TouchedOnly(p.touched, touched, ManagedIds(p.w0, d.name), p.firstNew)
    && PassProgress(p.w0, d, actual, d.services, w, p.owner, p.abandoned, todo - NameSet(d.services))
    && multiset(removed) == multiset(actual.Keys - NameSet(d.services) - todo)
    && (forall id :: id in p.world ==> id < p.firstNew)
  }

  lemma PruneStarts(p: PruneStart, d: Desired, actual: map<string, Summary>)
    requires Loaded(p.w0, d.name, actual) && forall id :: id in p.world ==> id < p.firstNew
    requires PassProgress(p.w0, d, actual, d.services, p.world, p.owner, p.abandoned, actual.Keys - NameSet(d.services))
    ensures PruneState(p, d, actual, p.world, p.touched, [], actual.Keys)
  {
    hide PassProgress, ManagedIds, NameSet, Loaded;
    assert actual.Keys - NameSet(d.services) - actual.Keys == {};
  }

  /** A desired workload is passed over; one that is not desired always carries the managed label. */
  lemma PruneStaysIn(p: PruneStart, d: Desired, actual: map<string, Summary>, w: World, touched: set<nat>,
                     removed: seq<string>, todo: set<string>, n: string)
    requires PruneState(p, d, actual, w, touched, removed, todo) && n in todo
    ensures n in actual && Label(actual[n].container.labels, MANAGED) == "true"
    ensures n in NameSet(d.services) ==> PruneState(p, d, actual, w, touched, removed, todo - {n})
  {
    hide PassProgress, NameSet, Confined, TouchedOnly;
    EntryIsManaged(p.w0, d.name, actual, n);
    PruneSets(actual.Keys, NameSet(d.services), todo, n);
  }

  lemma PruneRemoves(p: PruneStart, d: Desired, actual: map<string, Summary>, w: World, touched: set<nat>,
                     removed: seq<string>, todo: set<string>, n: string, after: World, touchedAfter: set<nat>)
    requires PruneState(p, d, actual, w, touched, removed, todo) && n in todo && n !in NameSet(d.services)
    requires n in actual && Confined(w, after, {actual[n].id}, p.firstNew)
    requires TouchedOnly(touched, touchedAfter, {actual[n].id}, p.firstNew)
    ensures Confined(p.world, after, ManagedIds(p.w0, d.name), p.firstNew)
    ensures TouchedOnly(p.touched, touchedAfter, ManagedIds(p.w0, d.name), p.firstNew)
    ensures after == w - {actual[n].id} ==> PruneState(p, d, actual, after, touchedAfter, removed + [n], todo - {n})
  {
    hide PassProgress, NameSet, Confined, TouchedOnly;
    var managed := ManagedIds(p.w0, d.name);
    EntryIsManaged(p.w0, d.name, actual, n);
    ConfinedTwice(p.world, w, after, managed, {actual[n].id}, p.firstNew, p.firstNew);
    TouchedTwice(p.touched, touched, touchedAfter, managed, {actual[n].id}, p.firstNew, p.firstNew);
    PruneSets(actual.Keys, NameSet(d.services), todo, n);
    PrunePass(p.w0, d, actual, w, p.owner, p.abandoned, todo - NameSet(d.services), n);
  }

  lemma PruneEnds(p: PruneStart, d: Desired, actual: map<string, Summary>, w: World, touched: set<nat>,
                  removed: seq<string>)
    requires PruneState(p, d, actual, w, touched, removed, {})
    ensures Confined(p.world, w, ManagedIds(p.w0, d.name), p.firstNew)
    ensures TouchedOnly(p.touched, touched, ManagedIds(p.w0, d.name), p.firstNew)
    ensures PassProgress(p.w0, d, actual, d.services, w, p.owner, p.abandoned, {})
    ensures multiset(removed) == multiset(actual.Keys - NameSet(d.services))
  {
    hide PassProgress, NameSet, Confined, TouchedOnly;
    assert {} - NameSet(d.services) == {};
    assert actual.Keys - NameSet(d.services) - {} == actual.Keys - NameSet(d.services);
  }

  lemma NothingHappened(w: World, allowed: set<nat>, firstNew: nat, touched: set<nat>)
    ensures Confined(w, w, allowed, firstNew) && TouchedOnly(touched, touched, allowed, firstNew)
  {
  }

  lemma NothingDone(w: World, records: map<(string, string), ServiceRecord>, d: Desired)
    ensures KeepsSane(w, w, d) && AllRecorded(records, d, [])
  {
  }

  /** Every container made for a service was made from the service's own request. */
  ghost predicate AllRequested(requests: Requests, w0: World, d: Desired, services: seq<Service>,
                               owner: map<string, nat>)
  {
    Distinct(ServiceNames(services)) ==>
      forall s :: s in services ==>
        && s.name in owner
        && (owner[s.name] !in w0 ==>
              owner[s.name] in requests && RequestsService(requests[owner[s.name]], d.name, s))
  }

  /** How a service was reported tells what happened to it. */
  ghost predicate Told(t: Tally, w0: World, actual: map<string, Summary>, owner: map<string, nat>,
                       abandoned: set<nat>, s: Service)
  {
    && s.name in owner
    && (s.name in t.skipped <==> owner[s.name] in w0 && w0[owner[s.name]].state == "running")
    && (s.name in t.updated <==> owner[s.name] in w0 && w0[owner[s.name]].state != "running")
    && (s.name in t.created <==> owner[s.name] !in w0)
    && (s.name in t.recreated <==>
          owner[s.name] !in w0 && s.name in actual && actual[s.name].id !in abandoned)
  }

  ghost predicate AllTold(t: Tally, w0: World, actual: map<string, Summary>, services: seq<Service>,
                          owner: map<string, nat>, abandoned: set<nat>)
  {
    Distinct(ServiceNames(services)) ==> forall s :: s in services ==> Told(t, w0, actual, owner, abandoned, s)
  }

  lemma NothingRequested(requests: Requests, w: World, d: Desired, actual: map<string, Summary>)
    ensures Extends(requests, requests) && AllRequested(requests, w, d, [], map[])
    ensures AllTold(Tally([], [], [], [], []), w, actual, [], map[], {})
  {
  }

  lemma ExtendsTwice(before: Requests, mid: Requests, after: Requests)
    requires Extends(before, mid) && Extends(mid, after)
    ensures Extends(before, after)
  {
  }

  lemma RequestStep(before: Requests, after: Requests, w0: World, d: Desired, actual: map<string, Summary>,
                    services: seq<Service>, w: World, owner: map<string, nat>, s: Service, made: World,
                    outcome: Outcome, id: nat)
    requires AllRequested(before, w0, d, services, owner) && Extends(before, after) && Loaded(w0, d.name, actual)
    requires ServiceStep(w, made, d.name, s, d.configHash, actual, outcome, id)
    requires outcome != Kept ==> id in after && RequestsService(after[id], d.name, s)
    ensures AllRequested(after, w0, d, services + [s], owner[s.name := id])
  {
    hide RequestsService, Running, Current, NameFree, BuildContainerName;
    NamesGrow(services, s);
    hide Distinct;
    if Distinct(ServiceNames(services + [s])) {
      forall t | t in services
        ensures t.name != s.name
      {
        assert t.name in NameSet(services);
      }
    }
  }

  lemma NotReported(t: Tally, services: seq<Service>, name: string)
    requires Reported(t, services) && name !in NameSet(services)
    ensures name !in t.created && name !in t.updated && name !in t.skipped && name !in t.recreated
  {
    hide NameSet;
    var names := ServiceNames(services);
    if name in names {
      var i :| 0 <= i < |names| && names[i] == name;
      ServiceIsNamed(services, i);
    }
    assert multiset(names)[name] == 0;
    assert (multiset(t.created) + multiset(t.updated) + multiset(t.skipped))[name] == 0;
    assert multiset(t.recreated)[name] <= multiset(t.created)[name];
  }

  lemma ServiceIsNamed(services: seq<Service>, i: nat)
    requires i < |services|
    ensures services[i].name in NameSet(services)
  {
    assert services[i] in services;
  }

  /** A loaded container kept now was in the same state when it was loaded. */
  lemma KeptAsLoaded(w0: World, d: Desired, actual: map<string, Summary>, services: seq<Service>, w: World,
                     owner: map<string, nat>, abandoned: set<nat>, name: string)
    requires Progress(w0, d.name, d.configHash, actual, services, w, owner, abandoned, actual.Keys - NameSet(services))
    requires Loaded(w0, d.name, actual) && name in actual && name !in NameSet(services)
    ensures Untouched(w0, w, actual[name].id) && actual[name].id !in abandoned
    ensures forall m :: m in actual && m != name ==> actual[m].id != actual[name].id
  {
    hide BuildContainerName, OwnedBy, NameSet;
    var pending := actual.Keys - NameSet(services);
    PendingIsApart(w0, d.name, d.configHash, actual, services, w, owner, abandoned, pending, name);
    forall m | m in actual && m != name
      ensures actual[m].id != actual[name].id
    {
      assert Workload(w0[actual[m].id]) == m && Workload(w0[actual[name].id]) == name;
    }
  }

  /** What was told of other services stays so. */
  lemma StillTold(t: Tally, after: Tally, w0: World, actual: map<string, Summary>, owner: map<string, nat>,
                  abandoned: set<nat>, o: Service, name: string, outcome: Outcome, wasRunning: bool, id: nat,
                  abandonedAfter: set<nat>)
    requires Told(t, w0, actual, owner, abandoned, o) && o.name != name
    requires Logged(t, after, name, outcome, wasRunning)
    requires o.name in actual ==> (actual[o.name].id in abandonedAfter <==> actual[o.name].id in abandoned)
    ensures Told(after, w0, actual, owner[name := id], abandonedAfter, o)
  {
  }

  lemma NewlyTold(t: Tally, after: Tally, w0: World, d: Desired, actual: map<string, Summary>, w: World,
                  owner: map<string, nat>, s: Service, made: World, outcome: Outcome, id: nat, abandonedAfter: set<nat>)
    requires s.name !in t.created && s.name !in t.updated && s.name !in t.skipped && s.name !in t.recreated
    requires s.name in actual ==> Untouched(w0, w, actual[s.name].id)
    requires s.name in actual ==> (actual[s.name].id in abandonedAfter <==> outcome == Abandoned)
    requires outcome != Kept ==> id !in w0
    requires ServiceStep(w, made, d.name, s, d.configHash, actual, outcome, id)
    requires Logged(t, after, s.name, outcome, IsRunning(w, id))
    ensures Told(after, w0, actual, owner[s.name := id], abandonedAfter, s)
  {
    hide Current, Running, NameFree, BuildContainerName;
  }

  lemma ToldStep(t: Tally, after: Tally, w0: World, d: Desired, actual: map<string, Summary>, services: seq<Service>,
                 w: World, owner: map<string, nat>, abandoned: set<nat>, s: Service, made: World,
                 outcome: Outcome, id: nat)
    requires AllTold(t, w0, actual, services, owner, abandoned) && Reported(t, services)
    requires PassProgress(w0, d, actual, services, w, owner, abandoned, actual.Keys - NameSet(services))
    requires Loaded(w0, d.name, actual) && (outcome != Kept ==> id !in w0)
    requires ServiceStep(w, made, d.name, s, d.configHash, actual, outcome, id)
    requires Logged(t, after, s.name, outcome, IsRunning(w, id))
    ensures outcome == Abandoned ==> s.name in actual
    ensures AllTold(after, w0, actual, services + [s], owner[s.name := id],
                    if outcome == Abandoned then abandoned + {actual[s.name].id} else abandoned)
  {
    hide Progress, Loaded, Reported, NameSet, Told, Logged, Distinct, ServiceStep;
    AbandonedWasLoaded(w, made, d.name, s, d.configHash, actual, outcome, id);
    NamesGrow(services, s);
    if Distinct(ServiceNames(services + [s])) {
      NotReported(t, services, s.name);
      if s.name in actual {
        KeptAsLoaded(w0, d, actual, services, w, owner, abandoned, s.name);
      }
      hide PassProgress;
      var abandonedAfter := if outcome == Abandoned then abandoned + {actual[s.name].id} else abandoned;
      NewlyTold(t, after, w0, d, actual, w, owner, s, made, outcome, id, abandonedAfter);
      forall o | o in services
        ensures Told(after, w0, actual, owner[s.name := id], abandonedAfter, o)
      {
        NamedService(services, o);
        StillTold(t, after, w0, actual, owner, abandoned, o, s.name, outcome, IsRunning(w, id), id, abandonedAfter);
      }
    }
  }

  lemma AbandonedWasLoaded(w: World, after: World, stackName: string, s: Service, configHash: string,
                           actual: map<string, Summary>, outcome: Outcome, id: nat)
    requires ServiceStep(w, after, stackName, s, configHash, actual, outcome, id)
    ensures outcome == Abandoned ==> s.name in actual
  {
  }

  lemma NamedService(services: seq<Service>, o: Service)
    requires o in services
    ensures o.name in NameSet(services)
  {
  }

  lemma ToldIgnoresRemoved(t: Tally, removed: seq<string>, w0: World, actual: map<string, Summary>,
                           services: seq<Service>, owner: map<string, nat>, abandoned: set<nat>)
    ensures AllTold(t.(removed := removed), w0, actual, services, owner, abandoned)
      <==> AllTold(t, w0, actual, services, owner, abandoned)
  {
    assert forall s :: Told(t.(removed := removed), w0, actual, owner, abandoned, s)
                  <==> Told(t, w0, actual, owner, abandoned, s);
  }

  /** Not one of the stack's managed containers, by its labels. */
  predicate Foreign(c: Container, stackName: string) {
    Label(c.labels, "orbit.managed") != "true" || Label(c.labels, "orbit.stack") != stackName
  }

  lemma ForeignStays(w: World, after: World, touched: set<nat>, touchedAfter: set<nat>, stackName: string,
                     firstNew: nat)
    requires Confined(w, after, ManagedIds(w, stackName), firstNew)
    requires TouchedOnly(touched, touchedAfter, ManagedIds(w, stackName), firstNew)
    requires forall id :: id in w ==> id < firstNew
    ensures forall id :: id in w && Foreign(w[id], stackName) ==>
      id in after && after[id] == w[id] && (id in touchedAfter ==> id in touched)
  {
  }

  /** A service keeps the container it was loaded with exactly when that one could be inspected, had
      the service's image, and carried the configuration hash. */
  ghost predicate KeptExactly(w0: World, d: Desired, actual: map<string, Summary>, owner: map<string, nat>,
                              abandoned: set<nat>, s: Service)
  {
    s.name in owner && s.name in actual && actual[s.name].id in w0 ==>
      var id := actual[s.name].id;
      var hash := if "orbit.configHash" in w0[id].labels then w0[id].labels["orbit.configHash"] else "";
      owner[s.name] == id <==> id !in abandoned && w0[id].image == s.image && hash == d.configHash
  }

  ghost predicate AllKeptExactly(w0: World, d: Desired, actual: map<string, Summary>, owner: map<string, nat>,
                                 abandoned: set<nat>)
  {
    Distinct(ServiceNames(d.services)) ==>
      forall s :: s in d.services ==> KeptExactly(w0, d, actual, owner, abandoned, s)
  }

  lemma ServicesKept(w0: World, d: Desired, actual: map<string, Summary>, w: World, owner: map<string, nat>,
                     abandoned: set<nat>)
    requires PassProgress(w0, d, actual, d.services, w, owner, abandoned, {})
    ensures AllKeptExactly(w0, d, actual, owner, abandoned)
  {
    hide BuildContainerName, Running, Serves, Bystanders, Together, Distinct;
  }

  // ---- What a successful reconcile amounts to ----

  lemma ServiceNamesAreSet(d: Desired, lib: Library)
    requires StackFault(d, lib) == None
    ensures forall s :: s in d.services ==> s.name != ""
  {
    hide ServiceFault, JobFault;
    NoFault(d.services, s => ServiceFault(s, lib));
    forall s | s in d.services
      ensures s.name != ""
    {
      AcceptedService(s, lib);
    }
  }

  /** A successful reconcile of distinct service names leaves one running container of the desired
      image per service, and nothing else of the stack, exactly when the managed containers it found
      carried distinct workload labels and none was left behind by a failed inspection. */
  lemma ReconcileServes(w0: World, d: Desired, items: seq<Summary>, w: World,
                        owner: map<string, nat>, abandoned: set<nat>)
    requires Lists(w0, d.name, items) && Distinct(ServiceNames(d.services))
    requires PassProgress(w0, d, Collapse(items), d.services, w, owner, abandoned, {})
    ensures Served(w, d.name, d.services) <==> UniqueWorkloads(w0, d.name) && abandoned == {}
  {
    hide Served, UniqueWorkloads, Lists, Collapse, Progress, Shadowed, Distinct;
    NothingShadowedExactly(w0, d.name, items);
    ServedExactly(w0, d.name, d.configHash, Collapse(items), d.services, w, owner, abandoned);
  }

  /** When the containers of desired workloads have their built names, nothing is left behind, and
      the containers end up with the right names too exactly when the labels found were distinct. */
  lemma ReconcileConverges(w0: World, d: Desired, items: seq<Summary>, w: World,
                           owner: map<string, nat>, abandoned: set<nat>)
    requires Lists(w0, d.name, items) && Distinct(ServiceNames(d.services))
    requires PassProgress(w0, d, Collapse(items), d.services, w, owner, abandoned, {})
    requires NamesConsistent(w0, d.name, NameSet(d.services))
    ensures abandoned == {}
    ensures Realizes(w, d.name, d.services) <==> UniqueWorkloads(w0, d.name)
  {
    hide Realizes, UniqueWorkloads, NamesConsistent, Lists, Collapse, Progress, Shadowed, Loaded, Distinct;
    ListingLoads(w0, d.name, items);
    NothingShadowedExactly(w0, d.name, items);
    ConvergesExactly(w0, d.name, d.configHash, Collapse(items), d.services, w, owner, abandoned);
  }

  // ---- Containers that stand in the way ----

  /** The container of one execution of a job. */
  function JobContainer(stackName: string, j: Job, configHash: string, shortId: string, state: string): Container {
    NewContainer(JobSpec(stackName, j, configHash, shortId)).(state := state)
  }

  lemma JobContainerLabels(stackName: string, j: Job, configHash: string, shortId: string, state: string)
    ensures var c := JobContainer(stackName, j, configHash, shortId, state);
      && IsManaged(c, stackName) && Workload(c) == j.name && Label(c.labels, Labels.KIND) == "job"
      && Label(c.labels, HASH) == configHash && c.image == j.image && c.state == state
      && c.name != BuildContainerName(stackName, j.name)
  {
    hide BuildContainerName;
    var spec := JobSpec(stackName, j, configHash, shortId);
    WorkloadLabelsIdentify(stackName, "job", j.name, configHash, j.labels);
    WorkloadLabelsIdentify(stackName, "job", j.name, Label(spec.labels, HASH), spec.labels);
    assert |spec.name| > |BuildContainerName(stackName, j.name)|;
  }

  /** Some service goes by the job's name and image, and the hash is the desired one. */
  ghost predicate Adopts(d: Desired, j: Job, configHash: string) {
    configHash == d.configHash && exists s :: s in d.services && s.name == j.name && s.image == j.image
  }

  /** A job run in flight survives a successful reconcile exactly when it is mistaken for a service of
      its name, image and hash, or its inspection failed. A mistaken one runs on as the service, with
      the job's name and kind; one whose name no service has is always removed and reported. */
  lemma JobContainerFate(w0: World, d: Desired, items: seq<Summary>, w: World, owner: map<string, nat>,
                         abandoned: set<nat>, firstNew: nat, id: nat,
                         j: Job, configHash: string, shortId: string, state: string)
    requires Lists(w0, d.name, items) && Distinct(ServiceNames(d.services))
    requires PassProgress(w0, d, Collapse(items), d.services, w, owner, abandoned, {})
    requires Confined(w0, w, ManagedIds(w0, d.name), firstNew) && id < firstNew
    requires id in w0 && w0[id] == JobContainer(d.name, j, configHash, shortId, state)
    requires j.name in Collapse(items) && Collapse(items)[j.name].id == id
    ensures id in w <==> id in abandoned || Adopts(d, j, configHash)
    ensures id in w && id !in abandoned ==>
      && j.name in owner && owner[j.name] == id && w[id] == w0[id].(state := RUNNING)
      && Label(w[id].labels, Labels.KIND) == "job" && w[id].name != BuildContainerName(d.name, j.name)
    ensures j.name !in NameSet(d.services) ==> id !in w && j.name in Collapse(items).Keys - NameSet(d.services)
  {
    ListingLoads(w0, d.name, items);
    JobContainerLabels(d.name, j, configHash, shortId, state);
    assert WantedAsIs(w0[id], d.services, d.configHash) <==> Adopts(d, j, configHash);
    hide Collapse, Lists, BuildContainerName, JobContainer, Label, Distinct, Current, WantedAsIs, Adopts;
    LoadedFate(w0, d.name, d.configHash, Collapse(items), d.services, w, owner, abandoned, j.name);
    hide Loaded;
    assert id in ManagedIds(w0, d.name);
    assert owner.Keys == NameSet(d.services);
    hide PassProgress, NameSet;
    assert id in w ==> w[id] == w0[id].(state := w[id].state);
  }

  lemma OneContainer(stackName: string, id: nat, c: Container)
    requires IsManaged(c, stackName) && Workload(c) != ""
    ensures var w, items := map[id := c], [Summary(id, c)];
      && Lists(w, stackName, items) && UniqueWorkloads(w, stackName)
      && Collapse(items) == map[Workload(c) := Summary(id, c)]
  {
    var items := [Summary(id, c)];
    assert items[..0] == [];
    assert Summary(id, c) in items && id in IdsOf(items);
  }

  /** A single service, done. */
  lemma OneServicePass(d: Desired, s: Service, w0: World, actual: map<string, Summary>, w: World,
                       outcome: Outcome, id: nat)
    requires d.services == [s] && s.name in actual && actual.Keys == {s.name} && Loaded(w0, d.name, actual)
    requires outcome != Created
    requires outcome != Kept ==> id !in w0
    requires ServiceStep(w0, w, d.name, s, d.configHash, actual, outcome, id)
    ensures PassProgress(w0, d, actual, d.services, w, map[s.name := id],
                         if outcome == Abandoned then {actual[s.name].id} else {}, {})
  {
    hide Progress, PassProgress, Loaded, ServiceStep;
    StartOfServices(w0, d, actual);
    PassStep(w0, d, actual, [], w0, map[], {}, s, w, outcome, id);
    assert [] + [s] == d.services;
    assert s in [s] && NameSet([s]) == {s.name};
    assert actual.Keys - NameSet([s]) == {};
    assert {} + {actual[s.name].id} == {actual[s.name].id};
  }

  /** Distinct labels alone do not give every container its name: a running job that shares a
      service's name, image and hash is taken for the service. */
  lemma JobIsAdopted(d: Desired, s: Service, j: Job, shortId: string, id: nat)
    requires d.services == [s] && s.name != "" && j.name == s.name && j.image == s.image
    ensures var c := JobContainer(d.name, j, d.configHash, shortId, RUNNING);
      var w, items := map[id := c], [Summary(id, c)];
      && Lists(w, d.name, items) && UniqueWorkloads(w, d.name)
      && ServiceStep(w, w, d.name, s, d.configHash, Collapse(items), Kept, id)
      && PassProgress(w, d, Collapse(items), d.services, w, map[s.name := id], {}, {})
      && Served(w, d.name, d.services) && !Realizes(w, d.name, d.services)
  {
    var c := JobContainer(d.name, j, d.configHash, shortId, RUNNING);
    var w, items := map[id := c], [Summary(id, c)];
    JobContainerLabels(d.name, j, d.configHash, shortId, RUNNING);
    hide BuildContainerName, JobContainer, Label, IsManaged;
    OneContainer(d.name, id, c);
    ListingLoads(w, d.name, items);
    assert w[id := w[id].(state := RUNNING)] == w;
    OneServicePass(d, s, w, Collapse(items), w, Kept, id);
    hide Collapse, Lists, PassProgress, UniqueWorkloads;
    assert id in ManagedIds(w, d.name) && Fits(w, d.name, id, s);
    assert s in d.services && s.name in NameSet(d.services);
  }

  /** Nor do they give one container per service: a misnamed container whose inspection fails stays
      beside the new one. */
  lemma MisnamedIsDoubled(d: Desired, s: Service, c: Container, id: nat, added: nat)
    requires d.services == [s] && s.name != "" && id != added
    requires IsManaged(c, d.name) && Workload(c) == s.name && c.name != BuildContainerName(d.name, s.name)
    ensures var w, items := map[id := c], [Summary(id, c)];
      var after := w[added := Running(d.name, s)];
      && Lists(w, d.name, items) && UniqueWorkloads(w, d.name)
      && ServiceStep(w, after, d.name, s, d.configHash, Collapse(items), Abandoned, added)
      && PassProgress(w, d, Collapse(items), d.services, after, map[s.name := added], {id}, {})
      && !Served(after, d.name, d.services)
  {
    var w, items := map[id := c], [Summary(id, c)];
    var after := w[added := Running(d.name, s)];
    OneContainer(d.name, id, c);
    ListingLoads(w, d.name, items);
    hide BuildContainerName, Running, Label, IsManaged, Lists, UniqueWorkloads;
    OneServicePass(d, s, w, Collapse(items), after, Abandoned, added);
    assert Distinct(ServiceNames(d.services));
    hide Collapse, PassProgress, ServiceStep, Served;
    ReconcileServes(w, d, items, after, map[s.name := added], {id});
  }

  // ---- Reconciling again ----

  /** What became of a service in a second reconcile, kept or replaced. */
  ghost predicate KeptAgain(w0: World, d: Desired, mid: World, owner: map<string, nat>, later: map<string, nat>,
                            s: Service)
  {
    && s.name in owner && owner[s.name] in mid && s.name in later
    && (later[s.name] == owner[s.name] <==> Label(mid[owner[s.name]].labels, HASH) == d.configHash)
    && (later[s.name] == owner[s.name] <==> owner[s.name] in w0 || Label(s.labels, HASH) == d.configHash)
    && (later[s.name] in mid <==> later[s.name] == owner[s.name])
  }

  /** Any successful reconcile leaves what an observer sees unchanged exactly when it loaded a settled
      container for each service and no other workload, and left nothing behind. */
  lemma ReconcileShowsNothing(w0: World, d: Desired, items: seq<Summary>, w: World,
                              owner: map<string, nat>, abandoned: set<nat>)
    requires Lists(w0, d.name, items) && Distinct(ServiceNames(d.services)) && UniqueNames(w0) && UniqueNames(w)
    requires PassProgress(w0, d, Collapse(items), d.services, w, owner, abandoned, {})
    ensures View(w, d.name) == View(w0, d.name)
      <==> Unmoved(w0, d.name, d.configHash, Collapse(items), d.services, abandoned)
  {
    hide Lists, Collapse, Progress, Loaded, View, Unmoved, Distinct, UniqueNames;
    ListingLoads(w0, d.name, items);
    UnchangedExactly(w0, d.name, d.configHash, Collapse(items), d.services, w, owner, abandoned);
  }

  /** From a sane stack, whatever the listing and the inspections, it does so exactly when the stack
      was realised already. */
  lemma RealizedStays(w0: World, d: Desired, items: seq<Summary>, w: World,
                      owner: map<string, nat>, abandoned: set<nat>)
    requires Lists(w0, d.name, items) && Distinct(ServiceNames(d.services)) && UniqueNames(w0) && UniqueNames(w)
    requires PassProgress(w0, d, Collapse(items), d.services, w, owner, abandoned, {})
    requires Sane(w0, d.name, NameSet(d.services))
    ensures View(w, d.name) == View(w0, d.name) <==> Realizes(w0, d.name, d.services)
  {
    hide Lists, Collapse, PassProgress, Shadowed, Loaded, View, Unmoved, Distinct, UniqueNames, Realizes,
      UniqueWorkloads, NamesConsistent;
    ReconcileConverges(w0, d, items, w, owner, abandoned);
    ReconcileShowsNothing(w0, d, items, w, owner, abandoned);
    ListingLoads(w0, d.name, items);
    NothingShadowedExactly(w0, d.name, items);
    UnmovedIsServed(w0, d.name, d.configHash, Collapse(items), d.services);
  }

  /** A second successful reconcile shows an observer the same stack exactly when it leaves nothing
      behind, finds no workload but the services, and meets each in the container the first gave it or
      in another that is settled. Of the containers it meets again it keeps exactly those stamped with
      the configuration hash: those the first reconcile found and kept, and those whose service holds
      that hash in the user's own labels. */
  lemma SecondReconcile(w0: World, d: Desired, items: seq<Summary>, mid: World, owner: map<string, nat>, left: set<nat>,
                        again: seq<Summary>, w: World, later: map<string, nat>, abandoned: set<nat>)
    requires Distinct(ServiceNames(d.services)) && UniqueNames(mid) && UniqueNames(w)
    requires PassProgress(w0, d, Collapse(items), d.services, mid, owner, left, {})
    requires Lists(mid, d.name, again)
    requires PassProgress(mid, d, Collapse(again), d.services, w, later, abandoned, {})
    ensures View(w, d.name) == View(mid, d.name) <==>
      abandoned == {} && Collapse(again).Keys == NameSet(d.services)
      && MetAgain(mid, d.name, d.configHash, d.services, owner, Collapse(again))
    ensures forall s :: s in d.services && MeetsOwner(owner, Collapse(again), s) && owner[s.name] !in abandoned ==>
      KeptAgain(w0, d, mid, owner, later, s)
  {
    var actual, loaded := Collapse(items), Collapse(again);
    ListingLoads(mid, d.name, again);
    hide Distinct, Lists, Collapse, Progress, View, MetAgain, UniqueNames, Loaded;
    assert TwoPasses(w0, d.name, d.configHash, actual, d.services, mid, owner, left, loaded, w, later, abandoned);
    hide TwoPasses, PassProgress;
    FixedPointExactly(w0, d.name, d.configHash, actual, d.services, mid, owner, left, loaded, w, later, abandoned);
    forall s | s in d.services && MeetsOwner(owner, loaded, s) && owner[s.name] !in abandoned
      ensures KeptAgain(w0, d, mid, owner, later, s)
    {
      SecondPassKeeps(w0, d.name, d.configHash, actual, d.services, mid, owner, left, loaded, w, later, abandoned, s);
    }
  }

  /** The second load shows the service in the container the first reconcile gave it. */
  predicate MeetsOwner(owner: map<string, nat>, loaded: map<string, Summary>, s: Service) {
    s.name in owner && s.name in loaded && loaded[s.name].id == owner[s.name]
  }

  /** After a reconcile that found distinct labels and left nothing behind, it shows every service so,
      and no other workload; then the view stays exactly when the second leaves nothing behind. */
  lemma ServedIsMetAgain(w0: World, d: Desired, items: seq<Summary>, mid: World, owner: map<string, nat>,
                         again: seq<Summary>, w: World, later: map<string, nat>, abandoned: set<nat>)
    requires Distinct(ServiceNames(d.services)) && UniqueNames(mid) && UniqueNames(w)
    requires forall s :: s in d.services ==> s.name != ""
    requires Lists(w0, d.name, items) && UniqueWorkloads(w0, d.name)
    requires PassProgress(w0, d, Collapse(items), d.services, mid, owner, {}, {})
    requires Lists(mid, d.name, again)
    requires PassProgress(mid, d, Collapse(again), d.services, w, later, abandoned, {})
    ensures forall s :: s in d.services ==> MeetsOwner(owner, Collapse(again), s)
    ensures View(w, d.name) == View(mid, d.name) <==> abandoned == {}
  {
    var actual, loaded := Collapse(items), Collapse(again);
    hide Distinct, Lists, Collapse, UniqueWorkloads, Served, Shadowed, Progress, Loaded, View, UniqueNames;
    ReconcileServes(w0, d, items, mid, owner, {});
    ServedIsUnique(mid, d.name, d.services);
    NothingShadowedExactly(w0, d.name, items);
    NothingShadowedExactly(mid, d.name, again);
    ListingLoads(mid, d.name, again);
    LoadsTheOwners(w0, d.name, d.configHash, actual, d.services, mid, owner, loaded, w, later, abandoned);
    FixedPointExactly(w0, d.name, d.configHash, actual, d.services, mid, owner, {}, loaded, w, later, abandoned);
    LoadedIsThere(mid, d.name, loaded);
    hide PassProgress;
    assert MetAgain(mid, d.name, d.configHash, d.services, owner, loaded);
  }

  lemma LoadedIsThere(w: World, stackName: string, loaded: map<string, Summary>)
    requires Loaded(w, stackName, loaded)
    ensures forall n :: n in loaded ==> loaded[n].id in w
  {
  }

  function Two(i: nat, a: Container, j: nat, b: Container): World {
    map[i := a, j := b]
  }

  lemma TwoFacts(i: nat, a: Container, j: nat, b: Container, stackName: string)
    requires i != j && a.name != b.name
    ensures UniqueNames(Two(i, a, j, b)) && Two(i, a, j, b) == Two(j, b, i, a)
    ensures j in Two(i, a, j, b) && Two(i, a, j, b)[j] == b
    ensures Two(i, a, j, b)[j := b.(state := RUNNING)] == Two(i, a, j, b.(state := RUNNING))
    ensures IsManaged(b, stackName) ==> j in ManagedIds(Two(i, a, j, b), stackName)
  {
    hide IsManaged;
  }

  /** Of two containers sharing a label, the one listed last is loaded; when it is stale it is
      replaced, and the other stays hidden. */
  lemma TwinIsReplaced(d: Desired, s: Service, i: nat, hidden: Container, j: nat, stale: Container, added: nat)
    requires d.services == [s] && s.name != "" && i != j && added != i && added != j
    requires IsManaged(hidden, d.name) && Workload(hidden) == s.name
    requires IsManaged(stale, d.name) && Workload(stale) == s.name && !Current(stale, s, d.configHash)
    ensures var w, items := Two(i, hidden, j, stale), [Summary(i, hidden), Summary(j, stale)];
      && Lists(w, d.name, items)
      && PassProgress(w, d, Collapse(items), d.services, Two(i, hidden, added, Running(d.name, s)),
                      map[s.name := added], {}, {})
  {
    var w, after := Two(i, hidden, j, stale), Two(i, hidden, added, Running(d.name, s));
    hide BuildContainerName, Running, Workload, IsManaged, Current;
    TwoContainers(d.name, i, hidden, j, stale);
    hide Collapse, Lists, Loaded, PassProgress;
    assert after == (w - {j})[added := Running(d.name, s)];
    OneServicePass(d, s, w, map[s.name := Summary(j, stale)], after, Replaced, added);
  }

  /** When it is current it is started. */
  lemma TwinIsStarted(d: Desired, s: Service, i: nat, hidden: Container, j: nat, current: Container)
    requires d.services == [s] && s.name != "" && i != j
    requires IsManaged(hidden, d.name) && Workload(hidden) == s.name
    requires IsManaged(current, d.name) && Workload(current) == s.name && Current(current, s, d.configHash)
    ensures var w, items := Two(i, hidden, j, current), [Summary(i, hidden), Summary(j, current)];
      && Lists(w, d.name, items)
      && PassProgress(w, d, Collapse(items), d.services, w[j := current.(state := RUNNING)], map[s.name := j], {}, {})
  {
    var w := Two(i, hidden, j, current);
    hide BuildContainerName, Running, Workload, IsManaged, Current;
    TwoContainers(d.name, i, hidden, j, current);
    hide Collapse, Lists, Loaded, PassProgress;
    OneServicePass(d, s, w, map[s.name := Summary(j, current)], w[j := current.(state := RUNNING)], Kept, j);
  }

  /** Leaving nothing behind is not enough by itself. Of two containers sharing a service's label, the
      one loaded first has the built name and a stale image, the other is current but stopped under
      another name: the first reconcile replaces the one, the second finds and starts the other. */
  lemma TwinsMove(d: Desired, s: Service, z: Container, x: Container)
    returns (w0: World, items: seq<Summary>, mid: World, again: seq<Summary>, w: World)
    requires d.services == [s] && s.name != ""
    requires IsManaged(z, d.name) && Workload(z) == s.name && z.image != s.image
    requires z.name == BuildContainerName(d.name, s.name)
    requires IsManaged(x, d.name) && Workload(x) == s.name && Current(x, s, d.configHash)
    requires x.name != z.name && x.state != RUNNING
    ensures w0 == Two(1, x, 0, z)
    ensures UniqueNames(w0) && UniqueNames(mid) && UniqueNames(w)
    ensures Lists(w0, d.name, items) && Lists(mid, d.name, again)
    ensures PassProgress(w0, d, Collapse(items), d.services, mid, map[s.name := 2], {}, {})
    ensures PassProgress(mid, d, Collapse(again), d.services, w, map[s.name := 1], {}, {})
    ensures View(w, d.name) != View(mid, d.name)
  {
    RunningServes(d.name, s);
    assert !Current(z, s, d.configHash);
    hide BuildContainerName, Running, Workload, IsManaged, Current, Lists, Collapse, PassProgress, View, UniqueNames,
      ManagedIds, Serves, Two;
    var c := Running(d.name, s);
    TwoFacts(1, x, 0, z, d.name);
    TwoFacts(2, c, 1, x, d.name);
    TwoFacts(2, c, 1, x.(state := RUNNING), d.name);
    TwinIsReplaced(d, s, 1, x, 0, z, 2);
    TwinIsStarted(d, s, 2, c, 1, x);
    w0, items := Two(1, x, 0, z), [Summary(1, x), Summary(0, z)];
    mid, again := Two(2, c, 1, x), [Summary(2, c), Summary(1, x)];
    w := mid[1 := x.(state := RUNNING)];
    StartingShows(mid, d.name, 1);
  }

  lemma StartingShows(w: World, stackName: string, id: nat)
    requires UniqueNames(w) && id in ManagedIds(w, stackName) && w[id].state != RUNNING
    ensures View(w[id := w[id].(state := RUNNING)], stackName) != View(w, stackName)
  {
    hide Workload, IsManaged;
    assert Seen(w[id]) in View(w, stackName);
    var after := w[id := w[id].(state := RUNNING)];
    forall m | m in after
      ensures Seen(after[m]) != Seen(w[id])
    {
      assert m != id ==> w[m].name != w[id].name;
    }
  }

  lemma TwoContainers(stackName: string, i: nat, a: Container, j: nat, b: Container)
    requires i != j && IsManaged(a, stackName) && IsManaged(b, stackName)
    requires Workload(a) == Workload(b) != ""
    ensures var w, items := map[i := a, j := b], [Summary(i, a), Summary(j, b)];
      && Lists(w, stackName, items) && Collapse(items) == map[Workload(b) := Summary(j, b)]
      && Loaded(w, stackName, map[Workload(b) := Summary(j, b)])
  {
    var w, items := map[i := a, j := b], [Summary(i, a), Summary(j, b)];
    assert items[..1] == [Summary(i, a)] && items[..1][..0] == [];
    assert items[0] in items && items[1] in items;
    assert i in IdsOf(items) && j in IdsOf(items);
    assert Collapse(items[..1]) == map[Workload(a) := Summary(i, a)];
  }

  lemma {:induction false} DistinctCounts(names: seq<string>, n: string)
    requires Distinct(names)
    ensures multiset(names)[n] == if n in names then 1 else 0
  {
    if names == [] {
    } else {
      var front, last := names[..|names| - 1], names[|names| - 1];
      DistinctCounts(front, n);
      assert names == front + [last];
      assert forall i :: 0 <= i < |front| ==> names[i] != names[|front|];
    }
  }

  /** With distinct names, each service appears exactly once across created, updated and skipped. */
  lemma ReportedExactlyOnce(t: Tally, services: seq<Service>, s: Service)
    requires Reported(t, services) && Distinct(ServiceNames(services)) && s in services
    ensures multiset(t.created)[s.name] + multiset(t.updated)[s.name] + multiset(t.skipped)[s.name] == 1
  {
    var i :| 0 <= i < |services| && services[i] == s;
    assert ServiceNames(services)[i] == s.name;
    DistinctCounts(ServiceNames(services), s.name);
    assert (multiset(t.created) + multiset(t.updated) + multiset(t.skipped))[s.name] == 1;
  }

  class Reconciler {
    const repo: Repository
    const runtime: Runtime

    constructor (repo: Repository, runtime: Runtime)
      ensures this.repo == repo && this.runtime == runtime
    {
      this.repo, this.runtime := repo, runtime;
    }

    method CreateAndStartService(stackName: string, s: Service, configHash: string, report: Report)
      returns (ok: bool, ghost id: nat)
      requires runtime.Valid()
      modifies runtime, repo, report`created
      ensures runtime.Valid() && runtime.nextId >= old(runtime.nextId)
      ensures Confined(old(runtime.containers), runtime.containers, {}, old(runtime.nextId))
      ensures TouchedOnly(old(runtime.touched), runtime.touched, {}, old(runtime.nextId))
      ensures ok ==> id == old(runtime.nextId) && id !in old(runtime.containers)
      ensures ok ==> NameFree(old(runtime.containers), BuildContainerName(stackName, s.name))
      ensures ok ==> runtime.containers == old(runtime.containers)[id := Running(stackName, s)]
      ensures ok ==> Upserted(old(repo.services), repo.services, stackName, s, configHash)
      ensures ok ==> repo.services[(stackName, s.name)].health == "unknown"
      ensures report.created == old(report.created) + if ok then [s.name] else []
      ensures StepIsSane(old(runtime.containers), runtime.containers, stackName, s)
      ensures Extends(old(runtime.requests), runtime.requests)
      ensures ok ==> id in runtime.requests && RequestsService(runtime.requests[id], stackName, s)
    {
      hide BuildContainerName, StampedLabels, Confined, StepIsSane, Carries, RequestsService, Extends;
      id := runtime.nextId;
      ghost var before := runtime.containers;
      var spec := ServiceSpec(stackName, s);
      var made := runtime.CreateContainer(spec);
      CreationIsConfined(before, runtime.containers, runtime.containers, id, NewContainer(spec), id);
      CreationIsSane(before, runtime.containers, runtime.containers, id, stackName, s);
      if made.Err? {
        return false, id;
      }
      ServiceRequest(stackName, s, runtime.requests[id]);
      ghost var created := runtime.containers;
      var started := runtime.StartContainer(made.value);
      CreationIsConfined(before, created, runtime.containers, id, NewContainer(spec), id);
      CreationIsSane(before, created, runtime.containers, id, stackName, s);
      if !started {
        return false, id;
      }
      assert runtime.containers == old(runtime.containers)[id := Running(stackName, s)];
      var stored := repo.UpsertService(stackName, s, ServiceRecord(configHash, RUNNING, "unknown"));
      if !stored {
        return false, id;
      }
      report.created := report.created + [s.name];
      return true, id;
    }

    /** One pass of the service loop. */
    method ReconcileService(stackName: string, s: Service, configHash: string, actual: map<string, Summary>,
                            report: Report)
      returns (ok: bool, ghost outcome: Outcome, ghost id: nat)
      requires runtime.Valid()
      modifies runtime, repo, report
      ensures runtime.Valid() && runtime.nextId >= old(runtime.nextId)
      ensures Confined(old(runtime.containers), runtime.containers, OwnEntry(actual, s), old(runtime.nextId))
      ensures TouchedOnly(old(runtime.touched), runtime.touched, OwnEntry(actual, s), old(runtime.nextId))
      ensures ok ==>
        ServiceStep(old(runtime.containers), runtime.containers, stackName, s, configHash, actual, outcome, id)
      ensures ok && outcome != Kept ==> id >= old(runtime.nextId)
      ensures ok ==> Upserted(old(repo.services), repo.services, stackName, s, configHash)
      ensures report.removed == old(report.removed)
      ensures ok ==> Logged(old(report.View()), report.View(), s.name, outcome, IsRunning(old(runtime.containers), id))
      ensures StepIsSane(old(runtime.containers), runtime.containers, stackName, s)
      ensures Extends(old(runtime.requests), runtime.requests)
      ensures ok && outcome != Kept ==> id in runtime.requests && RequestsService(runtime.requests[id], stackName, s)
    {
      hide BuildContainerName, StampedLabels, Running, Confined, TouchedOnly, NameFree, Upserted, HealthName,
        StepIsSane, RequestsService;
      outcome, id := Created, 0;
      if s.name !in actual {
        ok, id := CreateAndStartService(stackName, s, configHash, report);
        return ok, Created, id;
      }
      var current := actual[s.name].id;
      var inspected := runtime.InspectContainer(current);
      if inspected.Err? {
        ghost var before, touchedBefore, firstNew := runtime.containers, runtime.touched, runtime.nextId;
        ok, id := CreateAndStartService(stackName, s, configHash, report);
        ConfinedMore(before, runtime.containers, touchedBefore, runtime.touched, {current}, firstNew);
        return ok, Abandoned, id;
      }
      var info := inspected.value;
      if Label(info.container.labels, HASH) != configHash || info.container.image != s.image {
        ok, id := ReplaceService(stackName, s, configHash, current, report);
        return ok, Replaced, id;
      }
      ghost var was, firstNew := runtime.containers, runtime.nextId;
      ok := KeepService(stackName, s, configHash, current, info, report);
      ConfinedThins(was, runtime.containers, {current}, firstNew);
      ThinIsSane(was, runtime.containers, stackName, s);
      return ok, Kept, current;
    }

    /** A stop, whose failure is only a warning, then a forced remove. */
    method StopAndRemove(current: nat, warning: string, report: Report) returns (ok: bool)
      requires runtime.Valid()
      modifies runtime, report`warnings
      ensures runtime.Valid() && runtime.nextId == old(runtime.nextId)
      ensures Confined(old(runtime.containers), runtime.containers, {current}, old(runtime.nextId))
      ensures TouchedOnly(old(runtime.touched), runtime.touched, {current}, old(runtime.nextId))
      ensures ok ==> runtime.containers == old(runtime.containers) - {current}
      ensures runtime.requests == old(runtime.requests)
    {
      ghost var before := runtime.containers;
      var stopped := runtime.StopContainer(current);
      if !stopped {
        report.warnings := report.warnings + [warning];
      }
      ghost var mid := runtime.containers;
      ok := runtime.RemoveContainer(current);
      RemovalIsConfined(before, mid, runtime.containers, current, runtime.nextId);
    }

    method ReplaceService(stackName: string, s: Service, configHash: string, current: nat, report: Report)
      returns (ok: bool, ghost id: nat)
      requires runtime.Valid()
      modifies runtime, repo, report`created, report`recreated, report`warnings
      ensures runtime.Valid() && runtime.nextId >= old(runtime.nextId)
      ensures Confined(old(runtime.containers), runtime.containers, {current}, old(runtime.nextId))
      ensures TouchedOnly(old(runtime.touched), runtime.touched, {current}, old(runtime.nextId))
      ensures ok ==> id >= old(runtime.nextId) && id !in old(runtime.containers)
      ensures ok ==> runtime.containers == (old(runtime.containers) - {current})[id := Running(stackName, s)]
      ensures ok ==> Upserted(old(repo.services), repo.services, stackName, s, configHash)
      ensures ok ==>
        report.created == old(report.created) + [s.name] && report.recreated == old(report.recreated) + [s.name]
      ensures StepIsSane(old(runtime.containers), runtime.containers, stackName, s)
      ensures Extends(old(runtime.requests), runtime.requests)
      ensures ok ==> id in runtime.requests && RequestsService(runtime.requests[id], stackName, s)
    {
      hide BuildContainerName, StampedLabels, Running, Confined, TouchedOnly, NameFree, StepIsSane, RequestsService;
      id := runtime.nextId;
      ghost var before, touchedBefore, firstNew := runtime.containers, runtime.touched, runtime.nextId;
      ok := StopAndRemove(current, "stop " + s.name, report);
      ghost var mid, touchedMid := runtime.containers, runtime.touched;
      ConfinedThins(before, mid, {current}, firstNew);
      ThinIsSane(before, mid, stackName, s);
      if !ok {
        return;
      }
      ok, id := CreateAndStartService(stackName, s, configHash, report);
      ConfinedTwice(before, mid, runtime.containers, {current}, {}, firstNew, firstNew);
      TouchedTwice(touchedBefore, touchedMid, runtime.touched, {current}, {}, firstNew, firstNew);
      SaneSteps(before, mid, runtime.containers, stackName, s);
      if ok {
        report.recreated := report.recreated + [s.name];
      }
    }

    method KeepService(stackName: string, s: Service, configHash: string, current: nat, info: Info, report: Report)
      returns (ok: bool)
      requires runtime.Valid() && current in runtime.containers && info.container == runtime.containers[current]
      modifies runtime, repo, report`updated, report`skipped
      ensures runtime.Valid() && runtime.nextId == old(runtime.nextId)
      ensures Confined(old(runtime.containers), runtime.containers, {current}, old(runtime.nextId))
      ensures TouchedOnly(old(runtime.touched), runtime.touched, {current}, old(runtime.nextId))
      ensures ok ==>
        runtime.containers == old(runtime.containers)[current := old(runtime.containers)[current].(state := RUNNING)]
      ensures ok ==> Upserted(old(repo.services), repo.services, stackName, s, configHash)
      ensures ok ==> repo.services[(stackName, s.name)].health == HealthName(info.health)
      ensures ok ==> Logged(old(report.View()), report.View(), s.name, Kept, info.container.state == RUNNING)
      ensures runtime.requests == old(runtime.requests)
    {
      if info.container.state != RUNNING {
        ok := runtime.StartContainer(current);
        if !ok {
          return;
        }
        report.updated := report.updated + [s.name];
      } else {
        report.skipped := report.skipped + [s.name];
      }
      ok := repo.UpsertService(stackName, s, ServiceRecord(configHash, RUNNING, HealthName(info.health)));
    }

    /** The service loop. */
    method ReconcileServices(d: Desired, actual: map<string, Summary>, report: Report)
      returns (ok: bool, ghost owner: map<string, nat>, ghost abandoned: set<nat>)
      requires runtime.Valid() && Loaded(runtime.containers, d.name, actual)
      requires report.View() == Tally([], [], [], [], [])
      modifies runtime, repo, report
      ensures runtime.Valid() && runtime.nextId >= old(runtime.nextId)
      ensures Confined(old(runtime.containers), runtime.containers, ManagedIds(old(runtime.containers), d.name),
                       old(runtime.nextId))
      ensures TouchedOnly(old(runtime.touched), runtime.touched, ManagedIds(old(runtime.containers), d.name),
                          old(runtime.nextId))
      ensures ok ==> PassProgress(old(runtime.containers), d, actual, d.services, runtime.containers, owner, abandoned,
                                  actual.Keys - NameSet(d.services))
      ensures ok ==> Reported(report.View(), d.services)
      ensures ok ==> AllRecorded(repo.services, d, d.services)
      ensures report.removed == []
      ensures KeepsSane(old(runtime.containers), runtime.containers, d)
      ensures Extends(old(runtime.requests), runtime.requests)
      ensures ok ==> AllRequested(runtime.requests, old(runtime.containers), d, d.services, owner)
      ensures ok ==> AllTold(report.View(), old(runtime.containers), actual, d.services, owner, abandoned)
    {
      hide AllRequested, AllTold, Extends, RequestsService, KeepsSane, StepIsSane, Loaded, TouchedOnly, PassProgress,
        Reported, AllRecorded, Upserted, Confined,
        ServiceStep, ManagedIds, NameSet, Logged, OwnEntry;
      ghost var w0, firstNew, touched0 := runtime.containers, runtime.nextId, runtime.touched;
      ghost var managed := ManagedIds(w0, d.name);
      owner, abandoned := map[], {};
      StartOfServices(w0, d, actual);
      assert d.services[..0] == [];
      NothingHappened(w0, managed, firstNew, touched0);
      NothingDone(w0, repo.services, d);
      NothingRequested(runtime.requests, w0, d, actual);
      ghost var requests0 := runtime.requests;
      for i := 0 to |d.services|
        invariant runtime.Valid() && runtime.nextId >= firstNew
        invariant Confined(w0, runtime.containers, managed, firstNew)
        invariant TouchedOnly(touched0, runtime.touched, managed, firstNew)
        invariant PassProgress(w0, d, actual, d.services[..i], runtime.containers, owner, abandoned,
                               actual.Keys - NameSet(d.services[..i]))
        invariant Reported(report.View(), d.services[..i]) && report.removed == []
        invariant AllRecorded(repo.services, d, d.services[..i])
        invariant KeepsSane(w0, runtime.containers, d)
        invariant Extends(requests0, runtime.requests)
        invariant AllRequested(runtime.requests, w0, d, d.services[..i], owner)
        invariant AllTold(report.View(), w0, actual, d.services[..i], owner, abandoned)
      {
        var s := d.services[i];
        ghost var w, n, touched, tally, records :=
          runtime.containers, runtime.nextId, runtime.touched, report.View(), repo.services;
        assert d.services[..i + 1] == d.services[..i] + [s];
        ghost var requests := runtime.requests;
        ghost var outcome, id;
        ok, outcome, id := ReconcileService(d.name, s, d.configHash, actual, report);
        KeepsSaneStep(w0, w, runtime.containers, d, s);
        ExtendsTwice(requests0, requests, runtime.requests);
        OwnEntryIsManaged(w0, d.name, actual, s);
        ConfinedTwice(w0, w, runtime.containers, managed, OwnEntry(actual, s), firstNew, n);
        TouchedTwice(touched0, touched, runtime.touched, managed, OwnEntry(actual, s), firstNew, n);
        if !ok {
          return;
        }
        RequestStep(requests, runtime.requests, w0, d, actual, d.services[..i], w, owner, s, runtime.containers,
                    outcome, id);
        ToldStep(tally, report.View(), w0, d, actual, d.services[..i], w, owner, abandoned, s, runtime.containers,
                 outcome, id);
        PassStep(w0, d, actual, d.services[..i], w, owner, abandoned, s, runtime.containers, outcome, id);
        ReportStep(tally, report.View(), d.services[..i], s, outcome, IsRunning(w, id));
        RecordStep(records, repo.services, d, d.services[..i], s);
        abandoned := if outcome == Abandoned then abandoned + {actual[s.name].id} else abandoned;
        owner := owner[s.name := id];
      }
      assert d.services[..|d.services|] == d.services;
      ok := true;
    }

    /** The prune loop, over the loaded workloads in any order. */
    method Prune(d: Desired, ghost w0: World, actual: map<string, Summary>, report: Report,
                 ghost owner: map<string, nat>, ghost abandoned: set<nat>)
      returns (ok: bool)
      requires runtime.Valid() && Loaded(w0, d.name, actual)
      requires PassProgress(w0, d, actual, d.services, runtime.containers, owner, abandoned,
                            actual.Keys - NameSet(d.services))
      requires report.removed == []
      modifies runtime, report`removed, report`warnings
      ensures runtime.Valid() && runtime.nextId == old(runtime.nextId)
      ensures Confined(old(runtime.containers), runtime.containers, ManagedIds(w0, d.name), old(runtime.nextId))
      ensures TouchedOnly(old(runtime.touched), runtime.touched, ManagedIds(w0, d.name), old(runtime.nextId))
      ensures ok ==> PassProgress(w0, d, actual, d.services, runtime.containers, owner, abandoned, {})
      ensures ok ==> multiset(report.removed) == multiset(actual.Keys - NameSet(d.services))
      ensures runtime.requests == old(runtime.requests)
    {
      ghost var requests := runtime.requests;
      ghost var p := Prunes(w0, runtime.containers, runtime.nextId, runtime.touched, owner, abandoned);
      var desired := NameSet(d.services);
      var todo := actual.Keys;
      PruneStarts(p, d, actual);
      hide PruneState, TouchedOnly, PassProgress, Confined, ManagedIds, NameSet, Loaded;
      while todo != {}
        invariant runtime.Valid() && runtime.nextId == p.firstNew && runtime.requests == requests
        invariant PruneState(p, d, actual, runtime.containers, runtime.touched, report.removed, todo)
        decreases todo
      {
        var n :| n in todo;
        PruneStaysIn(p, d, actual, runtime.containers, runtime.touched, report.removed, todo, n);
        if n in desired {
          todo := todo - {n};
          continue;
        }
        if Label(actual[n].container.labels, MANAGED) != "true" {
          todo := todo - {n};
          continue;
        }
        ghost var w, touched := runtime.containers, runtime.touched;
        ok := StopAndRemove(actual[n].id, "stop removed " + n, report);
        PruneRemoves(p, d, actual, w, touched, report.removed, todo, n, runtime.containers, runtime.touched);
        if !ok {
          return;
        }
        report.removed := report.removed + [n];
        todo := todo - {n};
      }
      PruneEnds(p, d, actual, runtime.containers, runtime.touched, report.removed);
      ok := true;
    }

    /** Jobs and triggers are written before the load and again at the end. */
    method PersistAll(d: Desired) returns (ok: bool)
    {
      for i := 0 to |d.jobs| {
        ok := repo.Persist(d.jobs[i].name);
        if !ok {
          return;
        }
      }
      for i := 0 to |d.triggers| {
        ok := repo.Persist(d.triggers[i].name);
        if !ok {
          return;
        }
      }
      ok := true;
    }

    method PersistFirst(d: Desired) returns (ok: bool)
    {
      ok := repo.Persist("stack");
      if ok {
        ok := repo.Persist("last_applied_stack");
      }
      if ok {
        ok := repo.Persist("last_applied_config_hash");
      }
      if ok {
        ok := PersistAll(d);
      }
    }

    /** The service loop, then the prune loop. */
    method Apply(d: Desired, actual: map<string, Summary>, report: Report)
      returns (ok: bool, ghost owner: map<string, nat>, ghost abandoned: set<nat>)
      requires runtime.Valid() && Loaded(runtime.containers, d.name, actual)
      requires report.View() == Tally([], [], [], [], [])
      modifies runtime, repo, report
      ensures runtime.Valid() && runtime.nextId >= old(runtime.nextId)
      ensures Confined(old(runtime.containers), runtime.containers, ManagedIds(old(runtime.containers), d.name),
                       old(runtime.nextId))
      ensures TouchedOnly(old(runtime.touched), runtime.touched, ManagedIds(old(runtime.containers), d.name),
                          old(runtime.nextId))
      ensures ok ==>
        PassProgress(old(runtime.containers), d, actual, d.services, runtime.containers, owner, abandoned, {})
      ensures ok ==> Reported(report.View(), d.services)
      ensures ok ==> multiset(report.removed) == multiset(actual.Keys - NameSet(d.services))
      ensures ok ==> AllRecorded(repo.services, d, d.services)
      ensures KeepsSane(old(runtime.containers), runtime.containers, d)
      ensures Extends(old(runtime.requests), runtime.requests)
      ensures ok ==> AllRequested(runtime.requests, old(runtime.containers), d, d.services, owner)
      ensures ok ==> AllTold(report.View(), old(runtime.containers), actual, d.services, owner, abandoned)
    {
      hide TouchedOnly, PassProgress, Confined, ManagedIds, NameSet, Reported, AllRecorded, Loaded, KeepsSane, Extends,
        AllRequested, AllTold;
      ghost var w0, firstNew, touched0 := runtime.containers, runtime.nextId, runtime.touched;
      ghost var managed := ManagedIds(w0, d.name);
      ok, owner, abandoned := ReconcileServices(d, actual, report);
      if !ok {
        return;
      }
      ghost var mid, touchedMid, later, tally := runtime.containers, runtime.touched, runtime.nextId, report.View();
      ok := Prune(d, w0, actual, report, owner, abandoned);
      ConfinedTwice(w0, mid, runtime.containers, managed, managed, firstNew, later);
      ConfinedThins(mid, runtime.containers, managed, later);
      KeepsSaneThins(w0, mid, runtime.containers, d);
      TouchedTwice(touched0, touchedMid, runtime.touched, managed, managed, firstNew, later);
      ReportedIgnoresRemoved(tally, report.removed, d.services);
      ToldIgnoresRemoved(tally, report.removed, w0, actual, d.services, owner, abandoned);
    }

    /** A whole reconcile. On every run, only the stack's own managed containers and new ones are
        touched. On success the report, the records and the world are as the clauses say. */
    method Reconcile(d: Desired, lib: Library)
      returns (r: Result<Report, string>, ghost items: seq<Summary>, ghost owner: map<string, nat>,
               ghost abandoned: set<nat>)
      requires runtime.Valid()
      modifies runtime, repo
      ensures runtime.Valid() && runtime.nextId >= old(runtime.nextId)
      ensures Confined(old(runtime.containers), runtime.containers, ManagedIds(old(runtime.containers), d.name),
                       old(runtime.nextId))
      ensures TouchedOnly(old(runtime.touched), runtime.touched, ManagedIds(old(runtime.containers), d.name),
                          old(runtime.nextId))
      ensures r.Ok? ==> StackFault(d, lib) == None && Lists(old(runtime.containers), d.name, items)
      ensures r.Ok? ==>
        PassProgress(old(runtime.containers), d, Collapse(items), d.services, runtime.containers, owner, abandoned, {})
      ensures r.Ok? ==> Reported(r.value.View(), d.services)
      ensures r.Ok? ==> multiset(r.value.removed) == multiset(Collapse(items).Keys - NameSet(d.services))
      ensures r.Ok? ==> AllRecorded(repo.services, d, d.services)
      ensures Sane(old(runtime.containers), d.name, NameSet(d.services)) ==>
        Sane(runtime.containers, d.name, NameSet(d.services))
      ensures Extends(old(runtime.requests), runtime.requests)
      ensures r.Ok? ==> AllRequested(runtime.requests, old(runtime.containers), d, d.services, owner)
      ensures r.Ok? ==>
        AllTold(r.value.View(), old(runtime.containers), Collapse(items), d.services, owner, abandoned)
      ensures !StackAllowed(d, lib) ==>
        r.Err? && runtime.containers == old(runtime.containers) && repo.services == old(repo.services)
      ensures r.Ok? ==> AllKeptExactly(old(runtime.containers), d, Collapse(items), owner, abandoned)
      ensures forall id :: id in old(runtime.containers) && Foreign(old(runtime.containers)[id], d.name) ==>
        && id in runtime.containers && runtime.containers[id] == old(runtime.containers)[id]
        && (id in runtime.touched ==> id in old(runtime.touched))
    {
      hide StackFault, StackAllowed, PassProgress, Collapse, AllKeptExactly, Sane, AllTold, AllRequested, Reported,
        AllRecorded, NameSet, Lists;
      ghost var before, touchedBefore, firstNew := runtime.containers, runtime.touched, runtime.nextId;
      r, items, owner, abandoned := ReconcileOwn(d, lib);
      StackExactly(d, lib);
      if r.Ok? {
        ServicesKept(before, d, Collapse(items), runtime.containers, owner, abandoned);
      }
      ForeignStays(before, runtime.containers, touchedBefore, runtime.touched, d.name, firstNew);
    }

    /** Everything but the claim about foreign containers, which follows. */
    method ReconcileOwn(d: Desired, lib: Library)
      returns (r: Result<Report, string>, ghost items: seq<Summary>, ghost owner: map<string, nat>,
               ghost abandoned: set<nat>)
      requires runtime.Valid()
      modifies runtime, repo
      ensures runtime.Valid() && runtime.nextId >= old(runtime.nextId)
      ensures Confined(old(runtime.containers), runtime.containers, ManagedIds(old(runtime.containers), d.name),
                       old(runtime.nextId))
      ensures TouchedOnly(old(runtime.touched), runtime.touched, ManagedIds(old(runtime.containers), d.name),
                          old(runtime.nextId))
      ensures StackFault(d, lib).Some? ==>
        r.Err? && runtime.containers == old(runtime.containers) && repo.services == old(repo.services)
      ensures r.Ok? ==> StackFault(d, lib) == None && Lists(old(runtime.containers), d.name, items)
      ensures r.Ok? ==>
        PassProgress(old(runtime.containers), d, Collapse(items), d.services, runtime.containers, owner, abandoned, {})
      ensures r.Ok? ==> Reported(r.value.View(), d.services)
      ensures r.Ok? ==> multiset(r.value.removed) == multiset(Collapse(items).Keys - NameSet(d.services))
      ensures r.Ok? ==> AllRecorded(repo.services, d, d.services)
      ensures Sane(old(runtime.containers), d.name, NameSet(d.services)) ==>
        Sane(runtime.containers, d.name, NameSet(d.services))
      ensures Extends(old(runtime.requests), runtime.requests)
      ensures r.Ok? ==> AllRequested(runtime.requests, old(runtime.containers), d, d.services, owner)
      ensures r.Ok? ==>
        AllTold(r.value.View(), old(runtime.containers), Collapse(items), d.services, owner, abandoned)
    {
      hide AllRequested, AllTold, TouchedOnly, PassProgress, Confined, ManagedIds, NameSet, StackFault, Collapse,
        Reported, AllRecorded,
        Lists, Loaded, Sane;
      items, owner, abandoned := [], map[], {};
      NothingHappened(runtime.containers, ManagedIds(runtime.containers, d.name), runtime.nextId, runtime.touched);
      if StackFault(d, lib).Some? {
        return Err("stack"), items, owner, abandoned;
      }
      ServiceNamesAreSet(d, lib);
      var ok := PersistFirst(d);
      if !ok {
        return Err("persist"), items, owner, abandoned;
      }
      var loaded;
      loaded, items := LoadActualState(runtime, d.name);
      if loaded.Err? {
        return Err(loaded.error), items, owner, abandoned;
      }
      ListingLoads(runtime.containers, d.name, items);
      var report := new Report();
      ok, owner, abandoned := Apply(d, loaded.value, report);
      if ok {
        ok := PersistAll(d);
      }
      r := if ok then Ok(report) else Err("reconcile");
    }

    /** Reconciling the same desired state twice, with the state in between, what each reconcile left
        behind, and what the second one loaded. */
    method ReconcileTwice(d: Desired, lib: Library)
      returns (first: bool, second: bool, ghost mid: World, ghost owner: map<string, nat>,
               ghost later: map<string, nat>, ghost left: set<nat>, ghost leftAgain: set<nat>,
               ghost loaded: map<string, Summary>)
      requires runtime.Valid() && Distinct(ServiceNames(d.services))
      modifies runtime, repo
      ensures first ==> (Served(mid, d.name, d.services) <==>
        UniqueWorkloads(old(runtime.containers), d.name) && left == {})
      ensures first && second ==>
        (View(runtime.containers, d.name) == View(mid, d.name) <==>
          leftAgain == {} && loaded.Keys == NameSet(d.services)
          && MetAgain(mid, d.name, d.configHash, d.services, owner, loaded))
      ensures first && second ==>
        forall s :: s in d.services && MeetsOwner(owner, loaded, s) && owner[s.name] !in leftAgain ==>
          KeptAgain(old(runtime.containers), d, mid, owner, later, s)
      ensures first && second && UniqueWorkloads(old(runtime.containers), d.name) && left == {} ==>
        && (forall s :: s in d.services ==> MeetsOwner(owner, loaded, s))
        && (View(runtime.containers, d.name) == View(mid, d.name) <==> leftAgain == {})
      ensures first && second && Sane(old(runtime.containers), d.name, NameSet(d.services)) ==>
        && left == {} && leftAgain == {}
        && View(runtime.containers, d.name) == View(mid, d.name) == DesiredView(d.name, d.services)
    {
      hide BuildContainerName, PassProgress, Confined, TouchedOnly, Served, UniqueWorkloads, NamesConsistent, Lists,
        StackFault, Distinct, Reported, AllRecorded, Collapse, View, DesiredView, NameSet, KeptAgain, MetAgain,
        MeetsOwner, UniqueNames;
      second, later, leftAgain, loaded := false, map[], {}, map[];
      ghost var w0 := runtime.containers;
      var r;
      ghost var items, again;
      r, items, owner, left := Reconcile(d, lib);
      first, mid := r.Ok?, runtime.containers;
      if !first {
        return;
      }
      ServiceNamesAreSet(d, lib);
      ReconcileServes(w0, d, items, mid, owner, left);
      if Sane(w0, d.name, NameSet(d.services)) {
        ReconcileConverges(w0, d, items, mid, owner, left);
        RealizedView(mid, d.name, d.services);
      }
      r, again, later, leftAgain := Reconcile(d, lib);
      second, loaded := r.Ok?, Collapse(again);
      if second {
        SecondReconcile(w0, d, items, mid, owner, left, again, runtime.containers, later, leftAgain);
        if UniqueWorkloads(w0, d.name) && left == {} {
          ServedIsMetAgain(w0, d, items, mid, owner, again, runtime.containers, later, leftAgain);
        }
        if Sane(w0, d.name, NameSet(d.services)) {
          ReconcileConverges(mid, d, again, runtime.containers, later, leftAgain);
        }
      }
    }

    /** Failed reconciles do no lasting harm: from a sane stack, any number of them followed by a
        successful one realises the stack. */
    method ReconcileUntilSuccess(d: Desired, lib: Library, attempts: nat) returns (ok: bool)
      requires runtime.Valid() && Distinct(ServiceNames(d.services))
      modifies runtime, repo
      ensures Sane(old(runtime.containers), d.name, NameSet(d.services)) ==>
        Sane(runtime.containers, d.name, NameSet(d.services))
      ensures ok && Sane(old(runtime.containers), d.name, NameSet(d.services)) ==>
        && Realizes(runtime.containers, d.name, d.services)
        && View(runtime.containers, d.name) == DesiredView(d.name, d.services)
    {
      hide PassProgress, Confined, TouchedOnly, Realizes, UniqueWorkloads, NamesConsistent, Lists, StackFault,
        Distinct, Reported, AllRecorded, Collapse, View, DesiredView, NameSet, UniqueNames;
      ok := false;
      ghost var start := runtime.containers;
      for i := 0 to attempts
        invariant runtime.Valid() && !ok
        invariant Sane(start, d.name, NameSet(d.services)) ==> Sane(runtime.containers, d.name, NameSet(d.services))
      {
        ghost var w0 := runtime.containers;
        var r;
        ghost var items, owner, abandoned;
        r, items, owner, abandoned := Reconcile(d, lib);
        if r.Ok? {
          if Sane(w0, d.name, NameSet(d.services)) {
            ReconcileConverges(w0, d, items, runtime.containers, owner, abandoned);
            RealizedView(runtime.containers, d.name, d.services);
          }
          return true;
        }
      }
    }
  }
}
