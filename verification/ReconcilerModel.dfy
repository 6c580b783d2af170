/** Reconciling on plain worlds: what the load of the actual state sees, what one service's step
    does to the world, and what a whole pass adds up to. */
module ReconcilerModel {
  import opened Labels
  import opened Models
  import opened Spec
  import opened Engine

  function Workload(c: Container): string {
    Label(c.labels, WORKLOAD)
  }

  // ---- Loading the actual state ----

  /** Listed containers by workload label: unlabelled ones are skipped, the last of a label wins. */
  function Collapse(items: seq<Summary>): map<string, Summary> {
    if items == [] then map[]
    else
      var front, last := Collapse(items[..|items| - 1]), items[|items| - 1];
      if Workload(last.container) == "" then front else front[Workload(last.container) := last]
  }

  lemma {:induction false} CollapseMember(items: seq<Summary>, n: string)
    ensures n in Collapse(items) <==> n != "" && exists s :: s in items && Workload(s.container) == n
    ensures n in Collapse(items) ==> Collapse(items)[n] in items && Workload(Collapse(items)[n].container) == n
  {
    if items == [] {
    } else {
      CollapseMember(items[..|items| - 1], n);
      assert items == items[..|items| - 1] + [items[|items| - 1]];
    }
  }

  /** The entry for a label is its last occurrence in the listing. */
  lemma {:induction false} CollapseKeepsLast(items: seq<Summary>, i: nat)
    requires i < |items| && Workload(items[i].container) != ""
    requires forall j :: i < j < |items| ==> Workload(items[j].container) != Workload(items[i].container)
    ensures Workload(items[i].container) in Collapse(items) && Collapse(items)[Workload(items[i].container)] == items[i]
  {
    if i == |items| - 1 {
    } else {
      CollapseKeepsLast(items[..|items| - 1], i);
    }
  }

  /** What loading guarantees: entries are managed containers of the stack under their labels. */
  ghost predicate Loaded(w: World, stackName: string, actual: map<string, Summary>) {
    forall n :: n in actual ==>
      && n != "" && actual[n].id in w && IsManaged(w[actual[n].id], stackName)
      && actual[n].container == w[actual[n].id] && Workload(w[actual[n].id]) == n
  }

  ghost function ActIds(actual: map<string, Summary>, names: set<string>): set<nat> {
    set n | n in names && n in actual :: actual[n].id
  }

  /** Managed containers the loaded map does not show: duplicates of a label, or unlabelled. */
  ghost function Shadowed(w: World, stackName: string, actual: map<string, Summary>): set<nat> {
    ManagedIds(w, stackName) - ActIds(actual, actual.Keys)
  }

  ghost predicate UniqueWorkloads(w: World, stackName: string) {
    && (forall id :: id in ManagedIds(w, stackName) ==> Workload(w[id]) != "")
    && forall a, b :: a in ManagedIds(w, stackName) && b in ManagedIds(w, stackName) ==>
         Workload(w[a]) == Workload(w[b]) ==> a == b
  }

  lemma ListingLoads(w: World, stackName: string, items: seq<Summary>)
    requires Lists(w, stackName, items)
    ensures Loaded(w, stackName, Collapse(items))
  {
    var actual := Collapse(items);
    forall n | n in actual
      ensures n != "" && actual[n].id in ManagedIds(w, stackName)
      ensures actual[n].container == w[actual[n].id] && Workload(w[actual[n].id]) == n
    {
      CollapseMember(items, n);
      assert actual[n].id in IdsOf(items);
    }
  }

  /** Loading hides nothing exactly when labels are present and distinct. */
  lemma NothingShadowedExactly(w: World, stackName: string, items: seq<Summary>)
    requires Lists(w, stackName, items)
    ensures Shadowed(w, stackName, Collapse(items)) == {} <==> UniqueWorkloads(w, stackName)
  {
    var actual, managed := Collapse(items), ManagedIds(w, stackName);
    ListingLoads(w, stackName, items);
    forall id | id in managed
      ensures exists s :: s in items && s.id == id
    {
      assert id in IdsOf(items);
    }
    if UniqueWorkloads(w, stackName) {
      forall id | id in managed
        ensures id in ActIds(actual, actual.Keys)
      {
        var s :| s in items && s.id == id;
        var n := Workload(s.container);
        CollapseMember(items, n);
        assert actual[n].id == id;
      }
      assert Shadowed(w, stackName, actual) == {};
    }
    if Shadowed(w, stackName, actual) == {} {
      forall id | id in managed
        ensures Workload(w[id]) in actual && actual[Workload(w[id])].id == id
      {
        assert id !in Shadowed(w, stackName, actual);
      }
    }
  }

  // ---- One service ----

  datatype Outcome = Kept | Created | Replaced | Abandoned

  /** The container is already what the service asks for. */
  predicate Current(c: Container, s: Service, configHash: string) {
    Label(c.labels, HASH) == configHash && c.image == s.image
  }

  function Running(stackName: string, s: Service): Container {
    NewContainer(ServiceSpec(stackName, s)).(state := RUNNING)
  }

  ghost predicate NameFree(w: World, name: string) {
    forall id :: id in w ==> w[id].name != name
  }

  /** The effect on the world of a service step that succeeds, by outcome. */
  ghost predicate ServiceStep(w: World, after: World, stackName: string, s: Service, configHash: string,
                              actual: map<string, Summary>, outcome: Outcome, id: nat)
  {
    match outcome
    case Kept =>
      && s.name in actual && id == actual[s.name].id && id in w && Current(w[id], s, configHash)
      && after == w[id := w[id].(state := RUNNING)]
    case Created =>
      && s.name !in actual && id !in w && NameFree(w, BuildContainerName(stackName, s.name))
      && after == w[id := Running(stackName, s)]
    case Replaced =>
      && s.name in actual && actual[s.name].id in w && !Current(w[actual[s.name].id], s, configHash)
      && id !in w && after == (w - {actual[s.name].id})[id := Running(stackName, s)]
    case Abandoned =>
      && s.name in actual && id !in w && NameFree(w, BuildContainerName(stackName, s.name))
      && after == w[id := Running(stackName, s)]
  }

  // ---- Confinement, for successes and failures alike ----

  /** Only the allowed containers, and new ones, changed; what was there kept its identity. */
  ghost predicate Confined(w: World, after: World, allowed: set<nat>, firstNew: nat) {
    && (forall id :: id in w && id !in allowed ==> id in after && after[id] == w[id])
    && (forall id :: id in after ==> id >= firstNew || (id in w && after[id] == w[id].(state := after[id].state)))
  }

  lemma ConfinedTwice(w: World, mid: World, after: World, allowed: set<nat>, more: set<nat>, firstNew: nat, later: nat)
    requires Confined(w, mid, allowed, firstNew) && Confined(mid, after, more, later) && firstNew <= later
    requires more <= allowed
    requires forall id :: id in w ==> id < firstNew
    ensures Confined(w, after, allowed, firstNew)
  {
  }

  // ---- A whole pass ----

  ghost predicate Serves(c: Container, stackName: string, s: Service) {
    IsManaged(c, stackName) && Workload(c) == s.name && c.image == s.image && c.state == RUNNING
  }

  function NameSet(services: seq<Service>): set<string> {
    set s | s in services :: s.name
  }

  /** A finished service's loaded container that does not have the built name. */
  predicate Misnamed(w0: World, stackName: string, actual: map<string, Summary>, owner: map<string, nat>, id: nat) {
    && id in w0 && Workload(w0[id]) in owner && Workload(w0[id]) in actual && actual[Workload(w0[id])].id == id
    && w0[id].name != BuildContainerName(stackName, Workload(w0[id]))
  }

  predicate Untouched(w0: World, w: World, id: nat) {
    id in w0 && id in w && w[id] == w0[id]
  }

  /** Pending, hidden and left-behind containers are as they were loaded. */
  ghost predicate Bystanders(w0: World, stackName: string, actual: map<string, Summary>, w: World,
                             owner: map<string, nat>, abandoned: set<nat>, pending: set<string>)
  {
    && (forall n :: n in pending ==> n in actual && Untouched(w0, w, actual[n].id))
    && (forall id :: id in Shadowed(w0, stackName, actual) ==> Untouched(w0, w, id))
    && (forall id :: id in abandoned ==> Misnamed(w0, stackName, actual, owner, id) && Untouched(w0, w, id))
  }

  /** They stay so when nothing but one pending container changes. */
  lemma BystandersStay(w0: World, stackName: string, actual: map<string, Summary>, w: World,
                       owner: map<string, nat>, abandoned: set<nat>, pending: set<string>,
                       n: string, after: World, id: nat)
    requires Bystanders(w0, stackName, actual, w, owner, abandoned, pending) && n in actual
    requires forall m :: m in pending - {n} ==> actual[m].id != actual[n].id
    requires actual[n].id !in Shadowed(w0, stackName, actual) && actual[n].id !in abandoned
    requires forall x :: x in w0 && x in w && x != actual[n].id ==> x in after && after[x] == w[x]
    ensures Bystanders(w0, stackName, actual, after, owner, abandoned, pending - {n})
    ensures Bystanders(w0, stackName, actual, after, owner[n := id], abandoned, pending - {n})
  {
    hide BuildContainerName, Shadowed, Workload;
  }

  lemma BystandersRemain(w0: World, stackName: string, actual: map<string, Summary>, w: World,
                         owner: map<string, nat>, abandoned: set<nat>, pending: set<string>,
                         n: string, after: World, id: nat)
    requires Bystanders(w0, stackName, actual, w, owner, abandoned, pending)
    requires forall x :: x in w0 && x in w ==> x in after && after[x] == w[x]
    ensures Bystanders(w0, stackName, actual, after, owner[n := id], abandoned, pending)
  {
    hide BuildContainerName, Shadowed, Workload;
  }

  lemma LeaveBehind(w0: World, stackName: string, actual: map<string, Summary>, w: World,
                    owner: map<string, nat>, abandoned: set<nat>, pending: set<string>, id: nat)
    requires Bystanders(w0, stackName, actual, w, owner, abandoned, pending)
    requires Misnamed(w0, stackName, actual, owner, id) && Untouched(w0, w, id)
    ensures Bystanders(w0, stackName, actual, w, owner, abandoned + {id}, pending)
  {
    hide Misnamed, Untouched, Shadowed;
  }

  /** The state of a pass: `services` are done and owned, `pending` entries are as they were
      loaded, and nothing else of the stack exists but shadowed and abandoned containers. */
  ghost predicate Progress(w0: World, stackName: string, configHash: string, actual: map<string, Summary>,
                           services: seq<Service>, w: World, owner: map<string, nat>, abandoned: set<nat>,
                           pending: set<string>)
  {
    && owner.Keys == NameSet(services) && pending <= actual.Keys - owner.Keys
    && (forall s :: s in services ==> OwnedBy(w0, stackName, configHash, actual, s, w, owner, abandoned))
    && Bystanders(w0, stackName, actual, w, owner, abandoned, pending)
    && ManagedIds(w, stackName)
       == Together(owner.Values, ActIds(actual, pending), Shadowed(w0, stackName, actual), abandoned)
  }

  ghost function Together(owned: set<nat>, pending: set<nat>, shadowed: set<nat>, abandoned: set<nat>): set<nat> {
    owned + pending + shadowed + abandoned
  }

  lemma TogetherGrows(o: set<nat>, p: set<nat>, s: set<nat>, a: set<nat>, id: nat)
    ensures Together(o + {id}, p, s, a) == Together(o, p, s, a) + {id}
  {
  }

  /** How the whole changes when one container changes its part. */
  lemma TogetherChanges(o: set<nat>, p: set<nat>, q: set<nat>, s: set<nat>, a: set<nat>, was: nat, id: nat)
    requires p == q + {was}
    ensures Together(o + {was}, q, s, a) == Together(o, p, s, a)
    ensures Together(o + {id}, q, s, a + {was}) == Together(o, p, s, a) + {id}
    ensures was !in o + q + s + a ==> Together(o, q, s, a) == Together(o, p, s, a) - {was}
    ensures was !in o + q + s + a ==> Together(o + {id}, q, s, a) == Together(o, p, s, a) - {was} + {id}
  {
  }

  /** The loaded container of the name, running and otherwise as it was. */
  predicate WasKept(w0: World, actual: map<string, Summary>, n: string, w: World, id: nat) {
    && n in actual && id == actual[n].id
    && id in w0 && id in w && w[id] == w0[id].(state := RUNNING)
  }

  /** A finished service: its container serves it, and is either its loaded one, kept, or a newly
      made one; it was kept exactly when the loaded container was inspected and found current. */
  ghost predicate OwnedBy(w0: World, stackName: string, configHash: string, actual: map<string, Summary>, s: Service,
                          w: World, owner: map<string, nat>, abandoned: set<nat>)
  {
    && s.name in owner && owner[s.name] in w && Serves(w[owner[s.name]], stackName, s)
    && (owner[s.name] !in w0 ==> w[owner[s.name]] == Running(stackName, s))
    && (owner[s.name] in w0 ==> WasKept(w0, actual, s.name, w, owner[s.name]) && owner[s.name] !in abandoned)
    && (s.name in actual && actual[s.name].id in w0 && actual[s.name].id !in abandoned ==>
          (owner[s.name] == actual[s.name].id <==> Current(w0[actual[s.name].id], s, configHash)))
  }

  lemma RunningServes(stackName: string, s: Service)
    ensures Serves(Running(stackName, s), stackName, s)
    ensures Running(stackName, s).name == BuildContainerName(stackName, s.name)
  {
    hide BuildContainerName;
    WorkloadLabelsIdentify(stackName, "service", s.name, Label(s.labels, HASH), s.labels);
  }

  lemma StartOfPass(w: World, stackName: string, configHash: string, actual: map<string, Summary>)
    requires Loaded(w, stackName, actual)
    ensures Progress(w, stackName, configHash, actual, [], w, map[], {}, actual.Keys)
  {
    hide BuildContainerName;
  }

  /** Pending entries, owners, shadowed and abandoned containers are told apart by their labels. */
  lemma PendingIsApart(w0: World, stackName: string, configHash: string, actual: map<string, Summary>,
                       services: seq<Service>, w: World, owner: map<string, nat>, abandoned: set<nat>,
                       pending: set<string>, n: string)
    requires Progress(w0, stackName, configHash, actual, services, w, owner, abandoned, pending)
    requires Loaded(w0, stackName, actual) && n in pending
    ensures var id := actual[n].id;
      && Untouched(w0, w, id) && Workload(w[id]) == n && IsManaged(w[id], stackName)
      && id !in owner.Values && id !in Shadowed(w0, stackName, actual) && id !in abandoned
      && id !in ActIds(actual, pending - {n}) && ActIds(actual, pending) == ActIds(actual, pending - {n}) + {id}
  {
    hide BuildContainerName, Current;
    var id := actual[n].id;
    forall m | m in owner
      ensures owner[m] != id
    {
      var s :| s in services && s.name == m;
      assert OwnedBy(w0, stackName, configHash, actual, s, w, owner, abandoned);
    }
    forall m | m in pending && m != n
      ensures actual[m].id != id
    {
      assert Workload(w0[actual[m].id]) == m;
    }
    assert id in ActIds(actual, actual.Keys);
    forall x | x in ActIds(actual, pending)
      ensures x in ActIds(actual, pending - {n}) + {id}
    {
      var m :| m in pending && m in actual && actual[m].id == x;
      if m != n {
        assert m in pending - {n};
      }
    }
  }

  /** Adding a served container under a new name and updating the pending set. */
  lemma AddOwner(w0: World, stackName: string, configHash: string, actual: map<string, Summary>,
                 services: seq<Service>, w: World, owner: map<string, nat>, abandoned: set<nat>,
                 s: Service, after: World, id: nat, abandonedAfter: set<nat>)
    requires forall t :: t in services ==> OwnedBy(w0, stackName, configHash, actual, t, w, owner, abandoned)
    requires owner.Keys == NameSet(services) && s.name !in owner
    requires forall n :: n in owner ==> owner[n] in w ==> owner[n] in after && after[owner[n]] == w[owner[n]]
    requires abandoned <= abandonedAfter && forall n :: n in owner ==> owner[n] !in abandonedAfter - abandoned
    requires OwnedBy(w0, stackName, configHash, actual, s, after, owner[s.name := id], abandonedAfter)
    ensures var grown := owner[s.name := id];
      && grown.Keys == NameSet(services + [s]) && grown.Values == owner.Values + {id}
      && forall t :: t in services + [s] ==> OwnedBy(w0, stackName, configHash, actual, t, after, grown, abandonedAfter)
  {
    hide BuildContainerName, Current, Serves, Running;
    var grown := owner[s.name := id];
    forall t | t in services
      ensures OwnedBy(w0, stackName, configHash, actual, t, after, grown, abandonedAfter)
    {
      assert t.name in NameSet(services);
      StillOwned(w0, stackName, configHash, actual, t, w, owner, abandoned, after, grown, abandonedAfter);
    }
    hide OwnedBy;
    forall v | v in owner.Values
      ensures v in grown.Values
    {
      var n :| n in owner && owner[n] == v;
      assert grown[n] == v;
    }
    assert grown[s.name] == id;
    forall v | v in grown.Values
      ensures v in owner.Values + {id}
    {
      var n :| n in grown && grown[n] == v;
    }
  }

  lemma StillOwned(w0: World, stackName: string, configHash: string, actual: map<string, Summary>, s: Service,
                   w: World, owner: map<string, nat>, abandoned: set<nat>,
                   after: World, grown: map<string, nat>, abandonedAfter: set<nat>)
    requires OwnedBy(w0, stackName, configHash, actual, s, w, owner, abandoned)
    requires s.name in grown && grown[s.name] == owner[s.name]
    requires owner[s.name] in after && after[owner[s.name]] == w[owner[s.name]]
    requires abandoned <= abandonedAfter && owner[s.name] !in abandonedAfter - abandoned
    ensures OwnedBy(w0, stackName, configHash, actual, s, after, grown, abandonedAfter)
  {
    hide BuildContainerName, Current, Serves, Running;
  }

  lemma NewIsOwned(w0: World, stackName: string, configHash: string, actual: map<string, Summary>, s: Service,
                   after: World, owner: map<string, nat>, abandoned: set<nat>, id: nat)
    requires id !in w0 && id in after && after[id] == Running(stackName, s)
    requires s.name in actual && actual[s.name].id in w0 && actual[s.name].id !in abandoned ==>
      !Current(w0[actual[s.name].id], s, configHash)
    ensures OwnedBy(w0, stackName, configHash, actual, s, after, owner[s.name := id], abandoned)
  {
    hide Current;
    RunningServes(stackName, s);
    hide Running, Serves, BuildContainerName;
  }

  lemma KeptStep(w0: World, stackName: string, configHash: string, actual: map<string, Summary>,
                 services: seq<Service>, w: World, owner: map<string, nat>, abandoned: set<nat>,
                 pending: set<string>, s: Service, after: World, id: nat)
    requires Progress(w0, stackName, configHash, actual, services, w, owner, abandoned, pending)
    requires Loaded(w0, stackName, actual) && s.name !in owner && s.name in pending
    requires ServiceStep(w, after, stackName, s, configHash, actual, Kept, id)
    ensures Progress(w0, stackName, configHash, actual, services + [s], after, owner[s.name := id], abandoned,
                     pending - {s.name})
  {
    hide BuildContainerName, Shadowed, ActIds, Running, Serves, Workload, IsManaged, Label, Together;
    CurrentServes(w[id], stackName, s, configHash);
    hide Current;
    PendingIsApart(w0, stackName, configHash, actual, services, w, owner, abandoned, pending, s.name);
    OthersApart(w0, stackName, configHash, actual, services, w, owner, abandoned, pending, s.name);
    SameManaged(w, stackName, id, RUNNING);
    assert OwnedBy(w0, stackName, configHash, actual, s, after, owner[s.name := id], abandoned);
    hide OwnedBy;
    BystandersStay(w0, stackName, actual, w, owner, abandoned, pending, s.name, after, id);
    hide Bystanders;
    AddOwner(w0, stackName, configHash, actual, services, w, owner, abandoned, s, after, id, abandoned);
    TogetherChanges(owner.Values, ActIds(actual, pending), ActIds(actual, pending - {s.name}),
                    Shadowed(w0, stackName, actual), abandoned, actual[s.name].id, id);
  }

  lemma CurrentServes(c: Container, stackName: string, s: Service, configHash: string)
    requires IsManaged(c, stackName) && Workload(c) == s.name && Current(c, s, configHash)
    ensures Serves(c.(state := RUNNING), stackName, s)
  {
  }

  lemma SameManaged(w: World, stackName: string, id: nat, state: string)
    requires id in w
    ensures ManagedIds(w[id := w[id].(state := state)], stackName) == ManagedIds(w, stackName)
  {
  }

  lemma OneLessManaged(w: World, stackName: string, id: nat)
    ensures ManagedIds(w - {id}, stackName) == ManagedIds(w, stackName) - {id}
  {
  }

  /** Distinct pending names have distinct containers. */
  lemma OthersApart(w0: World, stackName: string, configHash: string, actual: map<string, Summary>,
                    services: seq<Service>, w: World, owner: map<string, nat>, abandoned: set<nat>,
                    pending: set<string>, n: string)
    requires Progress(w0, stackName, configHash, actual, services, w, owner, abandoned, pending)
    requires Loaded(w0, stackName, actual) && n in pending
    ensures forall m :: m in pending - {n} ==> actual[m].id != actual[n].id
    ensures forall m :: m in owner ==> owner[m] != actual[n].id && owner[m] in w
  {
    hide BuildContainerName, Current;
    PendingIsApart(w0, stackName, configHash, actual, services, w, owner, abandoned, pending, n);
    forall m | m in pending - {n}
      ensures actual[m].id != actual[n].id
    {
      assert Workload(w0[actual[m].id]) == m;
    }
    forall m | m in owner
      ensures owner[m] in w
    {
      var s :| s in services && s.name == m;
      assert OwnedBy(w0, stackName, configHash, actual, s, w, owner, abandoned);
    }
  }

  lemma NewContainerStep(w0: World, stackName: string, configHash: string, actual: map<string, Summary>,
                         services: seq<Service>, w: World, owner: map<string, nat>, abandoned: set<nat>,
                         pending: set<string>, s: Service, after: World, id: nat)
    requires Progress(w0, stackName, configHash, actual, services, w, owner, abandoned, pending)
    requires s.name !in owner && s.name !in actual && id !in w && id !in w0
    requires after == w[id := Running(stackName, s)]
    ensures Progress(w0, stackName, configHash, actual, services + [s], after, owner[s.name := id], abandoned,
                     pending - {s.name})
  {
    hide BuildContainerName, Current, Shadowed, ActIds, Running, Serves, Workload, IsManaged, Label, ManagedIds,
      Together;
    hide OwnedBy;
    NewIsOwned(w0, stackName, configHash, actual, s, after, owner, abandoned, id);
    NewIsManaged(w, stackName, s, id);
    assert pending - {s.name} == pending;
    BystandersRemain(w0, stackName, actual, w, owner, abandoned, pending, s.name, after, id);
    hide Bystanders;
    AddOwner(w0, stackName, configHash, actual, services, w, owner, abandoned, s, after, id, abandoned);
    TogetherGrows(owner.Values, ActIds(actual, pending), Shadowed(w0, stackName, actual), abandoned, id);
  }

  lemma NewIsManaged(w: World, stackName: string, s: Service, id: nat)
    requires id !in w
    ensures ManagedIds(w[id := Running(stackName, s)], stackName) == ManagedIds(w, stackName) + {id}
  {
    hide Running;
    RunningServes(stackName, s);
  }

  lemma ReplacedStep(w0: World, stackName: string, configHash: string, actual: map<string, Summary>,
                     services: seq<Service>, w: World, owner: map<string, nat>, abandoned: set<nat>,
                     pending: set<string>, s: Service, after: World, id: nat)
    requires Progress(w0, stackName, configHash, actual, services, w, owner, abandoned, pending)
    requires Loaded(w0, stackName, actual) && s.name !in owner && s.name in pending && id !in w0
    requires ServiceStep(w, after, stackName, s, configHash, actual, Replaced, id)
    ensures Progress(w0, stackName, configHash, actual, services + [s], after, owner[s.name := id], abandoned,
                     pending - {s.name})
  {
    hide BuildContainerName, Current, Shadowed, ActIds, Running, Serves, Workload, IsManaged, Label, ManagedIds,
      Together;
    PendingIsApart(w0, stackName, configHash, actual, services, w, owner, abandoned, pending, s.name);
    OthersApart(w0, stackName, configHash, actual, services, w, owner, abandoned, pending, s.name);
    hide OwnedBy;
    NewIsOwned(w0, stackName, configHash, actual, s, after, owner, abandoned, id);
    var old' := actual[s.name].id;
    NewIsManaged(w - {old'}, stackName, s, id);
    OneLessManaged(w, stackName, old');
    BystandersStay(w0, stackName, actual, w, owner, abandoned, pending, s.name, after, id);
    hide Bystanders;
    AddOwner(w0, stackName, configHash, actual, services, w, owner, abandoned, s, after, id, abandoned);
    TogetherChanges(owner.Values, ActIds(actual, pending), ActIds(actual, pending - {s.name}),
                    Shadowed(w0, stackName, actual), abandoned, actual[s.name].id, id);
  }

  lemma AbandonedStep(w0: World, stackName: string, configHash: string, actual: map<string, Summary>,
                      services: seq<Service>, w: World, owner: map<string, nat>, abandoned: set<nat>,
                      pending: set<string>, s: Service, after: World, id: nat)
    requires Progress(w0, stackName, configHash, actual, services, w, owner, abandoned, pending)
    requires Loaded(w0, stackName, actual) && s.name !in owner && s.name in pending && id !in w0
    requires ServiceStep(w, after, stackName, s, configHash, actual, Abandoned, id)
    ensures Progress(w0, stackName, configHash, actual, services + [s], after, owner[s.name := id],
                     abandoned + {actual[s.name].id}, pending - {s.name})
  {
    hide BuildContainerName, Current, Shadowed, ActIds, Running, Serves, Workload, IsManaged, Label, ManagedIds,
      Together;
    PendingIsApart(w0, stackName, configHash, actual, services, w, owner, abandoned, pending, s.name);
    OthersApart(w0, stackName, configHash, actual, services, w, owner, abandoned, pending, s.name);
    hide OwnedBy;
    NewIsOwned(w0, stackName, configHash, actual, s, after, owner, abandoned + {actual[s.name].id}, id);
    NewIsManaged(w, stackName, s, id);
    BystandersStay(w0, stackName, actual, w, owner, abandoned, pending, s.name, after, id);
    assert Untouched(w0, after, actual[s.name].id);
    assert w0[actual[s.name].id].name != BuildContainerName(stackName, s.name);
    LeaveBehind(w0, stackName, actual, after, owner[s.name := id], abandoned, pending - {s.name}, actual[s.name].id);
    hide Bystanders, Misnamed, Untouched;
    AddOwner(w0, stackName, configHash, actual, services, w, owner, abandoned, s, after, id,
             abandoned + {actual[s.name].id});
    TogetherChanges(owner.Values, ActIds(actual, pending), ActIds(actual, pending - {s.name}),
                    Shadowed(w0, stackName, actual), abandoned, actual[s.name].id, id);
  }

  /** Removing the container of a workload nobody wants. */
  lemma PruneStep(w0: World, stackName: string, configHash: string, actual: map<string, Summary>,
                  services: seq<Service>, w: World, owner: map<string, nat>, abandoned: set<nat>,
                  pending: set<string>, n: string)
    requires Progress(w0, stackName, configHash, actual, services, w, owner, abandoned, pending)
    requires Loaded(w0, stackName, actual) && n in pending
    ensures Progress(w0, stackName, configHash, actual, services, w - {actual[n].id}, owner, abandoned, pending - {n})
  {
    hide BuildContainerName, Current, Shadowed, ActIds, Serves, Workload, IsManaged, Label, ManagedIds, Together,
      OwnedBy;
    PendingIsApart(w0, stackName, configHash, actual, services, w, owner, abandoned, pending, n);
    OthersApart(w0, stackName, configHash, actual, services, w, owner, abandoned, pending, n);
    var after := w - {actual[n].id};
    OneLessManaged(w, stackName, actual[n].id);
    BystandersStay(w0, stackName, actual, w, owner, abandoned, pending, n, after, 0);
    hide Bystanders;
    TogetherChanges(owner.Values, ActIds(actual, pending), ActIds(actual, pending - {n}),
                    Shadowed(w0, stackName, actual), abandoned, actual[n].id, 0);
    forall s | s in services
      ensures OwnedBy(w0, stackName, configHash, actual, s, after, owner, abandoned)
    {
      assert s.name in NameSet(services);
      StillOwned(w0, stackName, configHash, actual, s, w, owner, abandoned, after, owner, abandoned);
    }
  }

  /** One successful service step carries the pass on, whichever way it went. */
  lemma ServiceStepProgress(w0: World, stackName: string, configHash: string, actual: map<string, Summary>,
                            services: seq<Service>, w: World, owner: map<string, nat>, abandoned: set<nat>,
                            s: Service, after: World, outcome: Outcome, id: nat)
    requires var pending := actual.Keys - owner.Keys;
      Progress(w0, stackName, configHash, actual, services, w, owner, abandoned, pending)
    requires Loaded(w0, stackName, actual) && s.name !in owner && (outcome != Kept ==> id !in w0)
    requires ServiceStep(w, after, stackName, s, configHash, actual, outcome, id)
    ensures var grown := owner[s.name := id];
      Progress(w0, stackName, configHash, actual, services + [s], after, grown,
               if outcome == Abandoned then abandoned + {actual[s.name].id} else abandoned, actual.Keys - grown.Keys)
  {
    hide Progress, Loaded, Current, Running, NameFree;
    var pending := actual.Keys - owner.Keys;
    assert pending - {s.name} == actual.Keys - owner[s.name := id].Keys;
    match outcome
    case Kept => KeptStep(w0, stackName, configHash, actual, services, w, owner, abandoned, pending, s, after, id);
    case Created =>
      NewContainerStep(w0, stackName, configHash, actual, services, w, owner, abandoned, pending, s, after, id);
    case Replaced =>
      ReplacedStep(w0, stackName, configHash, actual, services, w, owner, abandoned, pending, s, after, id);
    case Abandoned =>
      AbandonedStep(w0, stackName, configHash, actual, services, w, owner, abandoned, pending, s, after, id);
  }

  // ---- Where a finished pass ends ----

  /** Containers of the given workloads have their built names; others, a job's say, need not. */
  ghost predicate NamesConsistent(w: World, stackName: string, names: set<string>) {
    forall id :: id in ManagedIds(w, stackName) && Workload(w[id]) in names ==>
      w[id].name == BuildContainerName(stackName, Workload(w[id]))
  }

  /** The container is one of the stack's and serves the service. */
  ghost predicate Fits(w: World, stackName: string, id: nat, s: Service) {
    id in ManagedIds(w, stackName) && Serves(w[id], stackName, s)
  }

  ghost predicate Needed(w: World, stackName: string, services: seq<Service>, id: nat) {
    exists s :: s in services && Fits(w, stackName, id, s)
  }

  /** The stack's containers are one running container per service, and nothing else. */
  ghost predicate Served(w: World, stackName: string, services: seq<Service>) {
    && (forall s :: s in services ==> exists id :: Fits(w, stackName, id, s))
    && (forall id :: id in ManagedIds(w, stackName) ==> Needed(w, stackName, services, id))
    && forall a, b :: a in ManagedIds(w, stackName) && b in ManagedIds(w, stackName) ==>
         Workload(w[a]) == Workload(w[b]) ==> a == b
  }

  /** And they all have the names built for them. */
  ghost predicate Realizes(w: World, stackName: string, services: seq<Service>) {
    Served(w, stackName, services) && NamesConsistent(w, stackName, NameSet(services))
  }

  /** With consistent names of the desired workloads no loaded container is left behind. */
  lemma NothingAbandoned(w0: World, stackName: string, configHash: string, actual: map<string, Summary>,
                         services: seq<Service>, w: World, owner: map<string, nat>, abandoned: set<nat>)
    requires Progress(w0, stackName, configHash, actual, services, w, owner, abandoned, {})
    requires NamesConsistent(w0, stackName, NameSet(services)) && abandoned <= ManagedIds(w0, stackName)
    ensures abandoned == {}
  {
    hide OwnedBy, Together, Shadowed, ManagedIds, NameSet, BuildContainerName, Untouched;
    forall id | id in ManagedIds(w0, stackName)
      ensures !Misnamed(w0, stackName, actual, owner, id)
    {
    }
    assert forall id :: id in ManagedIds(w0, stackName) ==> id !in abandoned;
  }

  // ---- What failures cannot spoil ----

  /** Labels are present and distinct, and containers of the given workloads have their built names. */
  ghost predicate Sane(w: World, stackName: string, names: set<string>) {
    UniqueWorkloads(w, stackName) && NamesConsistent(w, stackName, names)
  }

  /** Nothing new, and what is left kept its identity. */
  ghost predicate Thinned(w: World, after: World) {
    forall id :: id in after ==> id in w && after[id] == w[id].(state := after[id].state)
  }

  lemma ThinningKeepsSane(w: World, after: World, stackName: string, names: set<string>)
    requires Thinned(w, after) && Sane(w, stackName, names)
    ensures Sane(after, stackName, names)
  {
    hide BuildContainerName;
    assert forall id :: id in ManagedIds(after, stackName) ==> id in ManagedIds(w, stackName);
    assert forall id :: id in after ==> Workload(after[id]) == Workload(w[id]) && after[id].name == w[id].name;
    hide Workload, ManagedIds, Thinned;
  }

  /** A container can be created under its built name only while no other of its workload exists. */
  lemma CreationKeepsSane(w: World, stackName: string, names: set<string>, s: Service, id: nat)
    requires Sane(w, stackName, names) && id !in w && s.name in names && s.name != ""
    requires NameFree(w, BuildContainerName(stackName, s.name))
    ensures Sane(w[id := NewContainer(ServiceSpec(stackName, s))], stackName, names)
  {
    hide BuildContainerName;
    var c := NewContainer(ServiceSpec(stackName, s));
    WorkloadLabelsIdentify(stackName, "service", s.name, Label(s.labels, HASH), s.labels);
    assert ManagedIds(w[id := c], stackName) == ManagedIds(w, stackName) + {id};
    assert Workload(c) == s.name && c.name == BuildContainerName(stackName, s.name);
    hide ManagedIds, Workload;
    assert forall m :: m in ManagedIds(w, stackName) ==> Workload(w[m]) != s.name;
  }

  /** Every service has a container that serves it, and there are no other owners. */
  ghost predicate Owns(w: World, stackName: string, services: seq<Service>, owner: map<string, nat>) {
    && (forall s :: s in services ==> s.name in owner && Fits(w, stackName, owner[s.name], s))
    && forall id :: id in owner.Values ==> Needed(w, stackName, services, id) && OwnsItsName(w, owner, id)
  }

  ghost predicate OwnsItsName(w: World, owner: map<string, nat>, id: nat) {
    id in w && Workload(w[id]) in owner && owner[Workload(w[id])] == id
  }

  /** Who owns what at the end of a pass. */
  lemma OwnersServe(w0: World, stackName: string, configHash: string, actual: map<string, Summary>,
                    services: seq<Service>, w: World, owner: map<string, nat>, abandoned: set<nat>)
    requires Progress(w0, stackName, configHash, actual, services, w, owner, abandoned, {})
    ensures Owns(w, stackName, services, owner)
    ensures ManagedIds(w, stackName) == owner.Values + Shadowed(w0, stackName, actual) + abandoned
  {
    assert ActIds(actual, {}) == {};
    hide BuildContainerName, Current, Shadowed, ActIds, Running;
    forall s | s in services
      ensures s.name in owner && Fits(w, stackName, owner[s.name], s)
    {
      assert OwnedBy(w0, stackName, configHash, actual, s, w, owner, abandoned);
    }
    hide OwnedBy, Fits, Owns, Untouched, Misnamed, ManagedIds;
    NoOtherOwners(w, stackName, services, owner);
  }

  lemma NoOtherOwners(w: World, stackName: string, services: seq<Service>, owner: map<string, nat>)
    requires owner.Keys == NameSet(services)
    requires forall s :: s in services ==> s.name in owner && Fits(w, stackName, owner[s.name], s)
    ensures Owns(w, stackName, services, owner)
  {
    hide Workload, IsManaged;
    forall id | id in owner.Values
      ensures Needed(w, stackName, services, id) && OwnsItsName(w, owner, id)
    {
      var n :| n in owner && owner[n] == id;
      var s :| s in services && s.name == n;
      assert Fits(w, stackName, id, s);
    }
    hide Needed, OwnsItsName;
  }

  /** Hidden and left-behind containers own nothing. */
  lemma IntrudersOwnNothing(w0: World, stackName: string, configHash: string, actual: map<string, Summary>,
                            services: seq<Service>, w: World, owner: map<string, nat>, abandoned: set<nat>)
    requires Progress(w0, stackName, configHash, actual, services, w, owner, abandoned, {})
    ensures owner.Values !! Shadowed(w0, stackName, actual) + abandoned
  {
    hide BuildContainerName, Current, Running, Serves;
    forall id | id in owner.Values
      ensures id !in Shadowed(w0, stackName, actual) && id !in abandoned
    {
      var n :| n in owner && owner[n] == id;
      var s :| s in services && s.name == n;
      assert OwnedBy(w0, stackName, configHash, actual, s, w, owner, abandoned);
      if id in w0 {
        assert id in ActIds(actual, actual.Keys);
      } else {
        assert id in abandoned ==> Untouched(w0, w, id);
      }
    }
  }

  /** Some service wants the container as it is: its name, image and hash, whatever its kind. */
  ghost predicate WantedAsIs(c: Container, services: seq<Service>, configHash: string) {
    exists s :: s in services && s.name == Workload(c) && Current(c, s, configHash)
  }

  lemma WantedIsKept(w0: World, stackName: string, configHash: string, actual: map<string, Summary>,
                     services: seq<Service>, w: World, owner: map<string, nat>, abandoned: set<nat>, n: string)
    requires Progress(w0, stackName, configHash, actual, services, w, owner, abandoned, {})
    requires Loaded(w0, stackName, actual) && n in actual && actual[n].id !in abandoned
    requires WantedAsIs(w0[actual[n].id], services, configHash)
    ensures actual[n].id in owner.Values
  {
    var s :| s in services && s.name == n && Current(w0[actual[n].id], s, configHash);
    hide BuildContainerName, Current, Running, Workload, Together;
    assert OwnedBy(w0, stackName, configHash, actual, s, w, owner, abandoned);
    assert owner[s.name] in owner.Values;
  }

  lemma KeptIsWanted(w0: World, stackName: string, configHash: string, actual: map<string, Summary>,
                     services: seq<Service>, w: World, owner: map<string, nat>, abandoned: set<nat>, n: string)
    requires Progress(w0, stackName, configHash, actual, services, w, owner, abandoned, {})
    requires Loaded(w0, stackName, actual) && n in actual && actual[n].id in owner.Values
    ensures WantedAsIs(w0[actual[n].id], services, configHash) && actual[n].id !in abandoned
    ensures n in owner && owner[n] == actual[n].id && WasKept(w0, actual, n, w, actual[n].id)
  {
    var id := actual[n].id;
    var m :| m in owner && owner[m] == id;
    var s :| s in services && s.name == m;
    hide BuildContainerName, Current, Running, Together;
    assert OwnedBy(w0, stackName, configHash, actual, s, w, owner, abandoned);
    assert Workload(w0[id]) == m == n;
    assert Current(w0[id], s, configHash);
  }

  /** What becomes of a loaded container: it stays exactly when some service wants it as it is or its
      inspection failed, and then only its state may have changed. */
  lemma LoadedFate(w0: World, stackName: string, configHash: string, actual: map<string, Summary>,
                   services: seq<Service>, w: World, owner: map<string, nat>, abandoned: set<nat>, n: string)
    requires Progress(w0, stackName, configHash, actual, services, w, owner, abandoned, {})
    requires Loaded(w0, stackName, actual) && n in actual
    ensures var id := actual[n].id;
      && (id in ManagedIds(w, stackName) <==> id in abandoned || WantedAsIs(w0[id], services, configHash))
      && (id in ManagedIds(w, stackName) ==> n in owner)
      && (id in ManagedIds(w, stackName) && id !in abandoned ==>
            owner[n] == id && w[id] == w0[id].(state := RUNNING))
  {
    var id := actual[n].id;
    OwnersServe(w0, stackName, configHash, actual, services, w, owner, abandoned);
    assert id in ActIds(actual, actual.Keys);
    assert id in abandoned ==> Misnamed(w0, stackName, actual, owner, id);
    if id in owner.Values {
      KeptIsWanted(w0, stackName, configHash, actual, services, w, owner, abandoned, n);
    }
    if id !in abandoned && WantedAsIs(w0[id], services, configHash) {
      WantedIsKept(w0, stackName, configHash, actual, services, w, owner, abandoned, n);
    }
    hide Progress, Owns, WantedAsIs, ActIds, BuildContainerName, Misnamed, Workload;
  }

  /** A finished pass over distinct names leaves one running container per service and
      nothing else exactly when loading showed every managed container and none was left behind. */
  lemma ServedExactly(w0: World, stackName: string, configHash: string, actual: map<string, Summary>,
                      services: seq<Service>, w: World, owner: map<string, nat>, abandoned: set<nat>)
    requires Progress(w0, stackName, configHash, actual, services, w, owner, abandoned, {})
    ensures Served(w, stackName, services) <==> Shadowed(w0, stackName, actual) == {} && abandoned == {}
  {
    OwnersServe(w0, stackName, configHash, actual, services, w, owner, abandoned);
    IntrudersOwnNothing(w0, stackName, configHash, actual, services, w, owner, abandoned);
    hide Progress, ManagedIds, Shadowed, Owns, Served;
    var intruders := Shadowed(w0, stackName, actual) + abandoned;
    if intruders == {} {
      assert ManagedIds(w, stackName) == owner.Values;
      OwnersAreEnough(w, stackName, services, owner);
    } else {
      HasMember(intruders);
      var id :| id in intruders;
      IntruderShows(w, stackName, services, owner, id);
    }
  }

  lemma OwnersAreEnough(w: World, stackName: string, services: seq<Service>, owner: map<string, nat>)
    requires Owns(w, stackName, services, owner) && ManagedIds(w, stackName) == owner.Values
    ensures Served(w, stackName, services)
  {
    hide ManagedIds, Fits, Workload, Needed;
    forall s | s in services
      ensures exists id :: Fits(w, stackName, id, s)
    {
      assert Fits(w, stackName, owner[s.name], s);
    }
    forall a, b | a in owner.Values && b in owner.Values && Workload(w[a]) == Workload(w[b])
      ensures a == b
    {
      assert OwnsItsName(w, owner, a) && OwnsItsName(w, owner, b);
    }
  }

  lemma IntruderShows(w: World, stackName: string, services: seq<Service>, owner: map<string, nat>, id: nat)
    requires Owns(w, stackName, services, owner) && id in ManagedIds(w, stackName) && id !in owner.Values
    ensures !Served(w, stackName, services)
  {
    hide ManagedIds, Workload, OwnsItsName;
    if Needed(w, stackName, services, id) {
      var s :| s in services && Fits(w, stackName, id, s);
      assert Fits(w, stackName, owner[s.name], s);
      assert owner[s.name] in owner.Values;
    }
  }

  lemma HasMember(ids: set<nat>)
    ensures ids != {} ==> exists id :: id in ids
  {
  }

  /** Every container kept for a service has the name built for it. */
  ghost predicate KeptNames(w0: World, stackName: string, services: seq<Service>, owner: map<string, nat>) {
    forall s :: s in services && s.name in owner && owner[s.name] in w0 ==>
      w0[owner[s.name]].name == BuildContainerName(stackName, s.name)
  }

  /** The names are right as well exactly when the kept containers had them. */
  lemma RealizesExactly(w0: World, stackName: string, configHash: string, actual: map<string, Summary>,
                        services: seq<Service>, w: World, owner: map<string, nat>, abandoned: set<nat>)
    requires Progress(w0, stackName, configHash, actual, services, w, owner, abandoned, {})
    ensures Realizes(w, stackName, services)
      <==> Shadowed(w0, stackName, actual) == {} && abandoned == {} && KeptNames(w0, stackName, services, owner)
  {
    ServedExactly(w0, stackName, configHash, actual, services, w, owner, abandoned);
    if Served(w, stackName, services) {
      OwnersServe(w0, stackName, configHash, actual, services, w, owner, {});
      forall s | s in services
        ensures Fits(w, stackName, owner[s.name], s)
        ensures w[owner[s.name]].name
          == if owner[s.name] in w0 then w0[owner[s.name]].name else BuildContainerName(stackName, s.name)
      {
        OwnerName(w0, stackName, configHash, actual, s, w, owner);
      }
      hide Progress, Shadowed, Served, BuildContainerName;
      if KeptNames(w0, stackName, services, owner) {
        forall id | id in ManagedIds(w, stackName)
          ensures w[id].name == BuildContainerName(stackName, Workload(w[id]))
        {
          var s :| s in services && Fits(w, stackName, id, s);
        }
      }
    }
  }

  lemma OwnerName(w0: World, stackName: string, configHash: string, actual: map<string, Summary>, s: Service,
                  w: World, owner: map<string, nat>)
    requires OwnedBy(w0, stackName, configHash, actual, s, w, owner, {})
    ensures w[owner[s.name]].name
      == if owner[s.name] in w0 then w0[owner[s.name]].name else BuildContainerName(stackName, s.name)
  {
    hide BuildContainerName, Current;
    RunningServes(stackName, s);
  }

  /** From consistent names of the desired workloads, a finished pass converges exactly when the
      loaded state showed every managed container. */
  lemma ConvergesExactly(w0: World, stackName: string, configHash: string, actual: map<string, Summary>,
                         services: seq<Service>, w: World, owner: map<string, nat>, abandoned: set<nat>)
    requires Progress(w0, stackName, configHash, actual, services, w, owner, abandoned, {})
    requires Loaded(w0, stackName, actual) && NamesConsistent(w0, stackName, NameSet(services))
    requires abandoned <= ManagedIds(w0, stackName)
    ensures abandoned == {}
    ensures Realizes(w, stackName, services) <==> Shadowed(w0, stackName, actual) == {}
  {
    NothingAbandoned(w0, stackName, configHash, actual, services, w, owner, abandoned);
    RealizesExactly(w0, stackName, configHash, actual, services, w, owner, {});
    hide BuildContainerName, Current, Running, Serves, Realizes, Shadowed;
    forall s | s in services && owner[s.name] in w0
      ensures w0[owner[s.name]].name == BuildContainerName(stackName, s.name)
    {
      assert OwnedBy(w0, stackName, configHash, actual, s, w, owner, {});
      assert actual[s.name].id in ManagedIds(w0, stackName);
    }
  }

  // ---- The visible state, and a second pass ----

  /** What an observer sees of a container, its id aside. */
  function Seen(c: Container): (string, string, string, string) {
    (Workload(c), c.name, c.image, c.state)
  }

  ghost function View(w: World, stackName: string): set<(string, string, string, string)> {
    set id | id in ManagedIds(w, stackName) :: Seen(w[id])
  }

  ghost function DesiredView(stackName: string, services: seq<Service>): set<(string, string, string, string)> {
    set s | s in services :: (s.name, BuildContainerName(stackName, s.name), s.image, RUNNING)
  }

  /** A realised stack shows exactly the desired view. */
  lemma RealizedView(w: World, stackName: string, services: seq<Service>)
    requires Realizes(w, stackName, services)
    ensures View(w, stackName) == DesiredView(stackName, services)
  {
    hide BuildContainerName, ManagedIds;
    forall x | x in DesiredView(stackName, services)
      ensures x in View(w, stackName)
    {
      var s :| s in services && x == (s.name, BuildContainerName(stackName, s.name), s.image, RUNNING);
      var id :| Fits(w, stackName, id, s);
      assert Seen(w[id]) == x;
    }
    forall x | x in View(w, stackName)
      ensures x in DesiredView(stackName, services)
    {
      var id :| id in ManagedIds(w, stackName) && x == Seen(w[id]);
      var s :| s in services && Fits(w, stackName, id, s);
    }
  }

  /** A served stack loads without hiding anything. */
  lemma ServedIsUnique(w: World, stackName: string, services: seq<Service>)
    requires Served(w, stackName, services)
    requires forall s :: s in services ==> s.name != ""
    ensures UniqueWorkloads(w, stackName)
  {
    hide ManagedIds;
    forall id | id in ManagedIds(w, stackName)
      ensures Workload(w[id]) != ""
    {
      var s :| s in services && Fits(w, stackName, id, s);
    }
  }

  // ---- When a pass shows nothing ----

  ghost function SeenOf(w: World, ids: set<nat>): set<(string, string, string, string)> {
    set id | id in ids && id in w :: Seen(w[id])
  }

  /** The container serves the service, and would be kept for it or replaced by one that looks alike. */
  predicate Settled(c: Container, stackName: string, s: Service, configHash: string) {
    && IsManaged(c, stackName) && Workload(c) == s.name && c.image == s.image && c.state == RUNNING
    && (Current(c, s, configHash) || c.name == BuildContainerName(stackName, s.name))
  }

  /** What was loaded is a settled container for each service, and nothing was left behind. */
  ghost predicate Unmoved(w0: World, stackName: string, configHash: string, actual: map<string, Summary>,
                          services: seq<Service>, abandoned: set<nat>)
  {
    && abandoned == {} && actual.Keys == NameSet(services)
    && forall s :: s in services ==>
         && s.name in actual && actual[s.name].id in w0
         && Settled(w0[actual[s.name].id], stackName, s, configHash)
  }

  /** With unique names, containers apart look different. */
  lemma SeenApart(w: World, a: set<nat>, b: set<nat>)
    requires UniqueNames(w) && a !! b
    ensures SeenOf(w, a) !! SeenOf(w, b)
    ensures SeenOf(w, a + b) == SeenOf(w, a) + SeenOf(w, b)
  {
    hide Workload;
    forall i, j | i in a && j in b && i in w && j in w
      ensures Seen(w[i]) != Seen(w[j])
    {
      assert w[i].name != w[j].name;
    }
    hide Seen, UniqueNames;
  }

  lemma SeenSame(w: World, after: World, ids: set<nat>)
    requires forall id :: id in ids ==> Untouched(w, after, id)
    ensures SeenOf(w, ids) == SeenOf(after, ids)
  {
    hide Workload;
  }

  lemma CommonPart<T>(common: set<T>, a: set<T>, b: set<T>)
    requires common !! a && common !! b
    ensures common + a == common + b <==> a == b
  {
    if common + a == common + b {
      assert a == (common + a) - common;
      assert b == (common + b) - common;
    }
  }

  /** A pass changes what is seen of a stack exactly when it changes what is seen of the containers it
      loaded, since those it did not load stay as they are. */
  lemma OnlyLoadedMatter(w0: World, stackName: string, configHash: string, actual: map<string, Summary>,
                         services: seq<Service>, w: World, owner: map<string, nat>, abandoned: set<nat>)
    requires Progress(w0, stackName, configHash, actual, services, w, owner, abandoned, {})
    requires Loaded(w0, stackName, actual) && UniqueNames(w0) && UniqueNames(w)
    ensures View(w, stackName) == View(w0, stackName)
      <==> SeenOf(w, owner.Values + abandoned) == SeenOf(w0, ActIds(actual, actual.Keys))
  {
    var hidden, loaded, made := Shadowed(w0, stackName, actual), ActIds(actual, actual.Keys), owner.Values + abandoned;
    OwnersServe(w0, stackName, configHash, actual, services, w, owner, abandoned);
    IntrudersOwnNothing(w0, stackName, configHash, actual, services, w, owner, abandoned);
    assert abandoned <= loaded;
    assert hidden !! loaded;
    assert loaded <= ManagedIds(w0, stackName);
    assert ManagedIds(w0, stackName) == hidden + loaded && ManagedIds(w, stackName) == hidden + made;
    SeenSame(w0, w, hidden);
    hide Progress, Loaded, ManagedIds, ActIds, Owns, Seen, UniqueNames;
    assert hidden !! made;
    assert View(w0, stackName) == SeenOf(w0, hidden + loaded) && View(w, stackName) == SeenOf(w, hidden + made);
    SeenApart(w0, hidden, loaded);
    SeenApart(w, hidden, made);
    hide SeenOf, View;
    CommonPart(SeenOf(w0, hidden), SeenOf(w, made), SeenOf(w0, loaded));
  }

  /** Of one service: what its pass made looks like what it loaded exactly when that was settled. */
  lemma SameSeen(w0: World, stackName: string, configHash: string, actual: map<string, Summary>, s: Service,
                 w: World, owner: map<string, nat>)
    requires OwnedBy(w0, stackName, configHash, actual, s, w, owner, {})
    requires Loaded(w0, stackName, actual) && s.name in actual
    ensures Seen(w[owner[s.name]]) == Seen(w0[actual[s.name].id])
      <==> Settled(w0[actual[s.name].id], stackName, s, configHash)
  {
    hide BuildContainerName;
    RunningServes(stackName, s);
    hide Running;
  }

  /** A left-behind container looks different from its service's new one. */
  lemma TwinLooksDifferent(w0: World, stackName: string, configHash: string, actual: map<string, Summary>,
                           services: seq<Service>, w: World, owner: map<string, nat>, abandoned: set<nat>, id: nat)
    requires Progress(w0, stackName, configHash, actual, services, w, owner, abandoned, {}) && id in abandoned
    ensures id in w0 && Workload(w0[id]) in owner && owner[Workload(w0[id])] in w
    ensures Workload(w0[id]) in actual && actual[Workload(w0[id])].id == id
    ensures Workload(w[owner[Workload(w0[id])]]) == Workload(w0[id])
    ensures Seen(w[owner[Workload(w0[id])]]) != Seen(w0[id])
  {
    hide BuildContainerName, Current;
    assert Misnamed(w0, stackName, actual, owner, id);
    var s :| s in services && s.name == Workload(w0[id]);
    assert OwnedBy(w0, stackName, configHash, actual, s, w, owner, abandoned);
    RunningServes(stackName, s);
    hide Running;
  }

  lemma LoadedSeen(w0: World, stackName: string, actual: map<string, Summary>, n: string)
    requires Loaded(w0, stackName, actual) && n in actual
    ensures Seen(w0[actual[n].id]) in SeenOf(w0, ActIds(actual, actual.Keys))
    ensures Seen(w0[actual[n].id]).0 == n
  {
    assert actual[n].id in ActIds(actual, actual.Keys);
  }

  /** What is loaded is one container per workload, so its looks are told apart by the workload. */
  lemma SeenIsLoaded(w0: World, stackName: string, actual: map<string, Summary>, x: (string, string, string, string))
    requires Loaded(w0, stackName, actual) && x in SeenOf(w0, ActIds(actual, actual.Keys))
    ensures x.0 in actual && actual[x.0].id in w0 && x == Seen(w0[actual[x.0].id])
  {
  }

  lemma OwnerSeen(w: World, stackName: string, services: seq<Service>, owner: map<string, nat>, abandoned: set<nat>,
                  s: Service)
    requires Owns(w, stackName, services, owner) && s in services
    ensures s.name in owner && owner[s.name] in w && Seen(w[owner[s.name]]).0 == s.name
    ensures Seen(w[owner[s.name]]) in SeenOf(w, owner.Values + abandoned)
  {
    assert Fits(w, stackName, owner[s.name], s);
    hide Fits;
    assert owner[s.name] in owner.Values;
  }

  lemma SeenIsOwned(w: World, stackName: string, services: seq<Service>, owner: map<string, nat>,
                    x: (string, string, string, string))
    requires Owns(w, stackName, services, owner) && x in SeenOf(w, owner.Values)
    ensures x.0 in NameSet(services) && x.0 in owner && owner[x.0] in w && x == Seen(w[owner[x.0]])
  {
    var id :| id in owner.Values && id in w && x == Seen(w[id]);
    assert OwnsItsName(w, owner, id) && Needed(w, stackName, services, id);
  }

  /** So a pass that left one behind looks different. */
  lemma TwinShows(w0: World, stackName: string, configHash: string, actual: map<string, Summary>,
                  services: seq<Service>, w: World, owner: map<string, nat>, abandoned: set<nat>, id: nat)
    requires Progress(w0, stackName, configHash, actual, services, w, owner, abandoned, {}) && id in abandoned
    requires Loaded(w0, stackName, actual)
    ensures SeenOf(w, owner.Values + abandoned) != SeenOf(w0, ActIds(actual, actual.Keys))
  {
    hide Loaded, SeenOf, ActIds, Seen, OwnedBy, Bystanders, Owns;
    TwinLooksDifferent(w0, stackName, configHash, actual, services, w, owner, abandoned, id);
    OwnersServe(w0, stackName, configHash, actual, services, w, owner, abandoned);
    var s :| s in services && s.name == Workload(w0[id]);
    OwnerSeen(w, stackName, services, owner, abandoned, s);
    if Seen(w[owner[s.name]]) in SeenOf(w0, ActIds(actual, actual.Keys)) {
      SeenIsLoaded(w0, stackName, actual, Seen(w[owner[s.name]]));
    }
  }

  lemma SameLooksOneWay(w0: World, stackName: string, configHash: string, actual: map<string, Summary>,
                        services: seq<Service>, w: World, owner: map<string, nat>)
    requires Progress(w0, stackName, configHash, actual, services, w, owner, {}, {})
    requires Loaded(w0, stackName, actual)
    requires SeenOf(w, owner.Values) == SeenOf(w0, ActIds(actual, actual.Keys))
    ensures Unmoved(w0, stackName, configHash, actual, services, {})
  {
    hide Owns, OwnedBy, SeenOf, ActIds, Settled, Bystanders, Seen;
    OwnersServe(w0, stackName, configHash, actual, services, w, owner, {});
    assert owner.Values + {} == owner.Values;
    forall n | n in actual
      ensures n in NameSet(services)
    {
      LoadedSeen(w0, stackName, actual, n);
      SeenIsOwned(w, stackName, services, owner, Seen(w0[actual[n].id]));
    }
    forall s | s in services
      ensures s.name in actual && actual[s.name].id in w0
      ensures Settled(w0[actual[s.name].id], stackName, s, configHash)
    {
      assert OwnedBy(w0, stackName, configHash, actual, s, w, owner, {});
      OwnerSeen(w, stackName, services, owner, {}, s);
      SeenIsLoaded(w0, stackName, actual, Seen(w[owner[s.name]]));
      SameSeen(w0, stackName, configHash, actual, s, w, owner);
    }
    hide Progress, Loaded;
  }

  lemma SameLooksOtherWay(w0: World, stackName: string, configHash: string, actual: map<string, Summary>,
                          services: seq<Service>, w: World, owner: map<string, nat>)
    requires Progress(w0, stackName, configHash, actual, services, w, owner, {}, {})
    requires Loaded(w0, stackName, actual) && Unmoved(w0, stackName, configHash, actual, services, {})
    ensures SeenOf(w, owner.Values) == SeenOf(w0, ActIds(actual, actual.Keys))
  {
    hide Settled, Seen, SeenOf, ActIds, Owns, OwnedBy, Bystanders;
    OwnersServe(w0, stackName, configHash, actual, services, w, owner, {});
    assert owner.Values + {} == owner.Values;
    forall s | s in services
      ensures s.name in owner && owner[s.name] in w && s.name in actual
      ensures Seen(w[owner[s.name]]) == Seen(w0[actual[s.name].id])
    {
      assert OwnedBy(w0, stackName, configHash, actual, s, w, owner, {});
      SameSeen(w0, stackName, configHash, actual, s, w, owner);
    }
    hide Progress;
    forall x | x in SeenOf(w, owner.Values)
      ensures x in SeenOf(w0, ActIds(actual, actual.Keys))
    {
      SeenIsOwned(w, stackName, services, owner, x);
      var s :| s in services && s.name == x.0;
      LoadedSeen(w0, stackName, actual, s.name);
    }
    forall x | x in SeenOf(w0, ActIds(actual, actual.Keys))
      ensures x in SeenOf(w, owner.Values)
    {
      SeenIsLoaded(w0, stackName, actual, x);
      var s :| s in services && s.name == x.0;
      OwnerSeen(w, stackName, services, owner, {}, s);
    }
  }

  /** Any pass, from any world, leaves what an observer sees unchanged exactly when it loaded a settled
      container for each service and no other workload, and left nothing behind. */
  lemma UnchangedExactly(w0: World, stackName: string, configHash: string, actual: map<string, Summary>,
                         services: seq<Service>, w: World, owner: map<string, nat>, abandoned: set<nat>)
    requires Progress(w0, stackName, configHash, actual, services, w, owner, abandoned, {})
    requires Loaded(w0, stackName, actual) && UniqueNames(w0) && UniqueNames(w)
    ensures View(w, stackName) == View(w0, stackName)
      <==> Unmoved(w0, stackName, configHash, actual, services, abandoned)
  {
    OnlyLoadedMatter(w0, stackName, configHash, actual, services, w, owner, abandoned);
    hide Progress, Loaded, View, SeenOf, ActIds, UniqueNames;
    if abandoned != {} {
      HasMember(abandoned);
      var id :| id in abandoned;
      TwinShows(w0, stackName, configHash, actual, services, w, owner, abandoned, id);
    } else {
      assert owner.Values + abandoned == owner.Values;
      if SeenOf(w, owner.Values) == SeenOf(w0, ActIds(actual, actual.Keys)) {
        SameLooksOneWay(w0, stackName, configHash, actual, services, w, owner);
      }
      if Unmoved(w0, stackName, configHash, actual, services, {}) {
        SameLooksOtherWay(w0, stackName, configHash, actual, services, w, owner);
      }
    }
  }

  /** When loading hides nothing and nothing is left behind, that is exactly when the stack was served
      with settled containers. */
  lemma UnmovedIsServed(w0: World, stackName: string, configHash: string, actual: map<string, Summary>,
                        services: seq<Service>)
    requires Loaded(w0, stackName, actual) && Shadowed(w0, stackName, actual) == {}
    requires NamesConsistent(w0, stackName, NameSet(services))
    ensures Unmoved(w0, stackName, configHash, actual, services, {}) <==> Realizes(w0, stackName, services)
  {
    hide BuildContainerName, Current;
    forall id | id in ManagedIds(w0, stackName)
      ensures Workload(w0[id]) in actual && actual[Workload(w0[id])].id == id
    {
      assert id !in Shadowed(w0, stackName, actual);
    }
    hide Shadowed;
    if Unmoved(w0, stackName, configHash, actual, services, {}) {
      forall s | s in services
        ensures Fits(w0, stackName, actual[s.name].id, s)
      {
      }
      forall id | id in ManagedIds(w0, stackName)
        ensures Needed(w0, stackName, services, id)
      {
        var s :| s in services && s.name == Workload(w0[id]);
        assert Fits(w0, stackName, id, s);
      }
    }
    if Realizes(w0, stackName, services) {
      forall s | s in services
        ensures s.name in actual && Settled(w0[actual[s.name].id], stackName, s, configHash)
      {
        var id :| Fits(w0, stackName, id, s);
      }
      forall n | n in actual
        ensures n in NameSet(services)
      {
        assert actual[n].id in ManagedIds(w0, stackName);
        var s :| s in services && Fits(w0, stackName, actual[n].id, s);
      }
    }
  }

  // ---- A second pass ----

  /** Two passes over the same services, the second from where the first ended. */
  ghost predicate TwoPasses(w0: World, stackName: string, configHash: string, actual: map<string, Summary>,
                            services: seq<Service>, mid: World, owner: map<string, nat>, left: set<nat>,
                            loaded: map<string, Summary>, w: World, later: map<string, nat>, abandoned: set<nat>)
  {
    && Progress(w0, stackName, configHash, actual, services, mid, owner, left, {})
    && Loaded(mid, stackName, loaded)
    && Progress(mid, stackName, configHash, loaded, services, w, later, abandoned, {})
  }

  /** A service's container is settled for it as soon as its pass is over. */
  lemma OwnerIsSettled(w0: World, stackName: string, configHash: string, actual: map<string, Summary>, s: Service,
                       w: World, owner: map<string, nat>, abandoned: set<nat>)
    requires OwnedBy(w0, stackName, configHash, actual, s, w, owner, abandoned)
    ensures s.name in owner && owner[s.name] in w && Settled(w[owner[s.name]], stackName, s, configHash)
  {
    hide BuildContainerName;
    RunningServes(stackName, s);
    hide Running;
  }

  /** The second pass keeps a service's container it loads exactly when it carries the configuration
      hash: when the first pass kept it too, or the user's own labels put the hash there. */
  lemma SecondPassKeeps(w0: World, stackName: string, configHash: string, actual: map<string, Summary>,
                        services: seq<Service>, mid: World, owner: map<string, nat>, left: set<nat>,
                        loaded: map<string, Summary>, w: World, later: map<string, nat>, abandoned: set<nat>,
                        s: Service)
    requires TwoPasses(w0, stackName, configHash, actual, services, mid, owner, left, loaded, w, later, abandoned)
    requires s in services && s.name in loaded && s.name in owner && loaded[s.name].id == owner[s.name]
    requires owner[s.name] !in abandoned
    ensures owner[s.name] in mid && s.name in later && later[s.name] in w
    ensures later[s.name] == owner[s.name] <==> Label(mid[owner[s.name]].labels, HASH) == configHash
    ensures later[s.name] == owner[s.name] <==> owner[s.name] in w0 || Label(s.labels, HASH) == configHash
    ensures later[s.name] in mid <==> later[s.name] == owner[s.name]
    ensures Seen(w[later[s.name]]) == Seen(mid[owner[s.name]])
  {
    assert OwnedBy(w0, stackName, configHash, actual, s, mid, owner, left);
    assert OwnedBy(mid, stackName, configHash, loaded, s, w, later, abandoned);
    hide TwoPasses, BuildContainerName, StampedLabels;
    RunningServes(stackName, s);
    RunningHash(stackName, s);
  }

  /** A container made for a service is stamped with the hash found in the user's own labels. */
  lemma RunningHash(stackName: string, s: Service)
    ensures Label(Running(stackName, s).labels, HASH) == Label(s.labels, HASH)
  {
    hide BuildContainerName;
    WorkloadLabelsIdentify(stackName, "service", s.name, Label(s.labels, HASH), s.labels);
  }

  /** Each service was loaded as the container the first pass gave it, or as another settled one. */
  ghost predicate MetAgain(mid: World, stackName: string, configHash: string, services: seq<Service>,
                           owner: map<string, nat>, loaded: map<string, Summary>)
  {
    forall s :: s in services ==>
      && s.name in owner && s.name in loaded && loaded[s.name].id in mid
      && (loaded[s.name].id == owner[s.name] || Settled(mid[loaded[s.name].id], stackName, s, configHash))
  }

  /** A second pass leaves what an observer sees unchanged exactly when it leaves nothing behind, finds
      no workload but the services, and meets each in the container the first pass gave it or in
      another that is settled. */
  lemma FixedPointExactly(w0: World, stackName: string, configHash: string, actual: map<string, Summary>,
                          services: seq<Service>, mid: World, owner: map<string, nat>, left: set<nat>,
                          loaded: map<string, Summary>, w: World, later: map<string, nat>, abandoned: set<nat>)
    requires TwoPasses(w0, stackName, configHash, actual, services, mid, owner, left, loaded, w, later, abandoned)
    requires UniqueNames(mid) && UniqueNames(w)
    ensures View(w, stackName) == View(mid, stackName) <==>
      abandoned == {} && loaded.Keys == NameSet(services)
      && MetAgain(mid, stackName, configHash, services, owner, loaded)
  {
    hide OwnedBy, Settled, View, UniqueNames, Bystanders;
    UnchangedExactly(mid, stackName, configHash, loaded, services, w, later, abandoned);
    forall s | s in services
      ensures s.name in owner && owner[s.name] in mid && Settled(mid[owner[s.name]], stackName, s, configHash)
      ensures s.name in loaded ==> loaded[s.name].id in mid
    {
      assert OwnedBy(w0, stackName, configHash, actual, s, mid, owner, left);
      OwnerIsSettled(w0, stackName, configHash, actual, s, mid, owner, left);
    }
    hide TwoPasses;
  }

  /** When neither load hid anything and the first pass left nothing behind, the second pass meets
      every service in the container the first one gave it, and no other workload. */
  lemma LoadsTheOwners(w0: World, stackName: string, configHash: string, actual: map<string, Summary>,
                       services: seq<Service>, mid: World, owner: map<string, nat>,
                       loaded: map<string, Summary>, w: World, later: map<string, nat>, abandoned: set<nat>)
    requires TwoPasses(w0, stackName, configHash, actual, services, mid, owner, {}, loaded, w, later, abandoned)
    requires Shadowed(w0, stackName, actual) == {} && Shadowed(mid, stackName, loaded) == {}
    ensures loaded.Keys == NameSet(services)
    ensures forall s :: s in services ==> s.name in owner && s.name in loaded && loaded[s.name].id == owner[s.name]
  {
    hide BuildContainerName, Current, Running, OwnedBy, Bystanders, Workload;
    OwnersServe(w0, stackName, configHash, actual, services, mid, owner, {});
    assert ManagedIds(mid, stackName) == owner.Values;
    hide Progress;
    forall s | s in services
      ensures s.name in owner && s.name in loaded && loaded[s.name].id == owner[s.name]
    {
      assert Fits(mid, stackName, owner[s.name], s);
      assert owner[s.name] in ActIds(loaded, loaded.Keys);
    }
    forall n | n in loaded
      ensures n in NameSet(services)
    {
      assert loaded[n].id in ManagedIds(mid, stackName);
      assert Needed(mid, stackName, services, loaded[n].id);
    }
  }
}
