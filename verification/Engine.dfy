/** The container engine and the state store as the reconciler sees them: every call may fail, and
    a failed call may or may not have taken effect on the one container it names. */
module Engine {
  import opened Wrappers
  import opened Labels
  import opened Models
  import opened Spec
  import opened Validation

  datatype Container = Container(name: string, image: string, state: string, labels: LabelMap)

  datatype Summary = Summary(id: nat, container: Container)

  datatype Info = Info(container: Container, health: string)

  type World = map<nat, Container>

  const RUNNING: string := "running"

  predicate IsManaged(c: Container, stackName: string) {
    Label(c.labels, MANAGED) == "true" && Label(c.labels, STACK) == stackName
  }

  /** What `CreateContainer` makes of a specification. */
  function NewContainer(spec: ContainerSpec): Container {
    Container(spec.name, spec.image, "created", StampedLabels(spec))
  }

  /** The container made from a specification's request is the specification's. */
  lemma MadeFromRequest(spec: ContainerSpec, cfg: CreateConfig)
    requires Carries(spec, Label(spec.labels, HASH), cfg)
    ensures Container(spec.name, cfg.image, "created", cfg.labels) == NewContainer(spec)
  {
    hide WorkloadLabels;
  }

  ghost function ManagedIds(w: World, stackName: string): (ids: set<nat>)
    ensures ids <= w.Keys
  {
    set id | id in w && IsManaged(w[id], stackName)
  }

  ghost function IdsOf(items: seq<Summary>): set<nat> {
    set s | s in items :: s.id
  }

  lemma IdsOfGrows(items: seq<Summary>, s: Summary)
    ensures IdsOf(items + [s]) == IdsOf(items) + {s.id}
  {
  }

  /** The managed containers of a stack, each once, in any order. */
  ghost predicate Lists(w: World, stackName: string, items: seq<Summary>) {
    && (forall i, j :: 0 <= i < j < |items| ==> items[i].id != items[j].id)
    && (forall s :: s in items ==> s.id in w && s.container == w[s.id])
    && IdsOf(items) == ManagedIds(w, stackName)
  }

  ghost predicate UniqueNames(w: World) {
    forall a, b :: a in w && b in w && w[a].name == w[b].name ==> a == b
  }

  /** The world is as before, or one container is in some other state. */
  ghost predicate MayRestate(before: World, after: World, id: nat) {
    after == before || (id in before && id in after && after == before[id := before[id].(state := after[id].state)])
  }

  type Requests = map<nat, CreateConfig>

  /** Nothing recorded is forgotten or changed. */
  ghost predicate Extends(before: Requests, after: Requests) {
    forall id :: id in before ==> id in after && after[id] == before[id]
  }

  class Runtime {
    const lib: Library
    /** The request each container was created from. */
    var requests: Requests
    var containers: World
    var nextId: nat
    /** Containers that were asked to start, stop or go away. */
    ghost var touched: set<nat>

    ghost predicate Valid()
      reads this
    {
      && (forall id :: id in containers ==> id < nextId)
      && (forall id :: id in requests ==> id < nextId)
      && UniqueNames(containers)
    }

    constructor (lib: Library)
      ensures Valid() && containers == map[] && requests == map[] && this.lib == lib
    {
      this.lib, requests, containers, nextId, touched := lib, map[], map[], 0, {};
    }

    /** Builds the request from the specification and its own hash label, and creates the container.
        Names are unique; a failed create may still have left the new container behind. */
    method CreateContainer(spec: ContainerSpec) returns (r: Result<nat, string>)
      requires Valid()
      modifies this`containers, this`nextId, this`requests
      ensures Valid() && nextId >= old(nextId) && Extends(old(requests), requests)
      ensures r.Ok? ==> r.value == old(nextId) && containers == old(containers)[r.value := NewContainer(spec)]
      ensures r.Ok? ==> r.value in requests && Carries(spec, Label(spec.labels, HASH), requests[r.value])
      ensures r.Ok? ==>
        containers[r.value].image == requests[r.value].image && containers[r.value].labels == requests[r.value].labels
      ensures containers != old(containers) ==>
        forall id :: id in old(containers) ==> old(containers)[id].name != spec.name
      ensures r.Err? ==>
        containers == old(containers) || containers == old(containers)[old(nextId) := NewContainer(spec)]
    {
      hide Carries, NewContainer, Buildable, StampedLabels;
      var built := BuildCreateConfig(spec, Label(spec.labels, HASH), lib);
      var fails: bool, applied: bool := *, *;
      if built.Err? || (fails && !applied) || exists id :: id in containers && containers[id].name == spec.name {
        return Err("create");
      }
      var id, cfg := nextId, built.value;
      MadeFromRequest(spec, cfg);
      containers := containers[id := Container(spec.name, cfg.image, "created", cfg.labels)];
      requests := requests[id := cfg];
      nextId := id + 1;
      return if fails then Err("create") else Ok(id);
    }

    /** Puts a container in a state; a failure leaves that container in any state. */
    method SetState(id: nat, state: string) returns (ok: bool)
      requires Valid()
      modifies this`containers, this`touched
      ensures Valid() && touched == old(touched) + {id}
      ensures ok ==> id in old(containers) && containers == old(containers)[id := old(containers)[id].(state := state)]
      ensures MayRestate(old(containers), containers, id)
    {
      touched := touched + {id};
      if id !in containers {
        return false;
      }
      var fails: bool := *;
      var s: string := *;
      containers := containers[id := containers[id].(state := if fails then s else state)];
      return !fails;
    }

    method StartContainer(id: nat) returns (ok: bool)
      requires Valid()
      modifies this`containers, this`touched
      ensures Valid() && touched == old(touched) + {id}
      ensures ok ==>
        id in old(containers) && containers == old(containers)[id := old(containers)[id].(state := RUNNING)]
      ensures MayRestate(old(containers), containers, id)
    {
      ok := SetState(id, RUNNING);
    }

    method StopContainer(id: nat) returns (ok: bool)
      requires Valid()
      modifies this`containers, this`touched
      ensures Valid() && touched == old(touched) + {id}
      ensures MayRestate(old(containers), containers, id)
    {
      ok := SetState(id, "exited");
    }

    /** A forced remove; a failure may still have removed it. */
    method RemoveContainer(id: nat) returns (ok: bool)
      requires Valid()
      modifies this`containers, this`touched
      ensures Valid() && touched == old(touched) + {id}
      ensures ok ==> id in old(containers) && containers == old(containers) - {id}
      ensures !ok ==> containers == old(containers) || containers == old(containers) - {id}
    {
      touched := touched + {id};
      if id !in containers {
        return false;
      }
      var fails: bool, applied: bool := *, *;
      if !fails || applied {
        containers := containers - {id};
      }
      return !fails;
    }

    method InspectContainer(id: nat) returns (r: Result<Info, string>)
      ensures r.Ok? ==> id in containers && r.value.container == containers[id]
    {
      var fails: bool := *;
      var health: string := *;
      if fails || id !in containers {
        return Err("inspect");
      }
      return Ok(Info(containers[id], health));
    }

    method ListContainers(stackName: string) returns (r: Result<seq<Summary>, string>)
      ensures r.Ok? ==> Lists(containers, stackName, r.value)
      ensures r.Ok? ==> forall id :: id in IdsOf(r.value) <==>
        id in containers && Label(containers[id].labels, "orbit.managed") == "true"
        && Label(containers[id].labels, "orbit.stack") == stackName
    {
      var fails: bool := *;
      if fails {
        return Err("list");
      }
      var items: seq<Summary> := [];
      var pending := containers.Keys;
      while pending != {}
        invariant pending <= containers.Keys
        invariant forall i, j :: 0 <= i < j < |items| ==> items[i].id != items[j].id
        invariant forall s :: s in items ==> s.id in containers && s.container == containers[s.id]
        invariant IdsOf(items) == ManagedIds(containers, stackName) - pending
        decreases pending
      {
        var id :| id in pending;
        assert forall s :: s in items ==> s.id in IdsOf(items);
        if IsManaged(containers[id], stackName) {
          IdsOfGrows(items, Summary(id, containers[id]));
          items := items + [Summary(id, containers[id])];
        }
        pending := pending - {id};
      }
      return Ok(items);
    }
  }

  datatype ServiceRecord = ServiceRecord(configHash: string, lifecycle: string, health: string)

  /** The state store; only service records matter to the reconciler's outcome. */
  class Repository {
    var services: map<(string, string), ServiceRecord>

    method UpsertService(stackName: string, service: Service, record: ServiceRecord) returns (ok: bool)
      modifies this
      ensures ok ==> services == old(services)[(stackName, service.name) := record]
      ensures !ok ==> services == old(services)
    {
      ok := *;
      if ok {
        services := services[(stackName, service.name) := record];
      }
    }

    /** Stack, metadata, job and trigger rows. */
    method Persist(row: string) returns (ok: bool) {
      ok := *;
    }
  }
}
