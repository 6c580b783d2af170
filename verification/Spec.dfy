/** Turning a container specification into the engine's create request. */
module Spec {
  import opened Wrappers
  import opened Text
  import opened Models
  import opened Labels
  import opened Validation

  datatype ContainerSpec = ContainerSpec(
    name: string, stackName: string, kind: string, workload: string, image: string,
    command: seq<string>, workingDir: string, env: map<string, string>, labels: LabelMap,
    ports: seq<PortMapping>, volumes: seq<VolumeMount>, restart: string, healthCheck: Option<HealthCheck>)

  datatype PortKey = PortKey(port: int, protocol: string)

  datatype Binding = Binding(hostIP: string, hostPort: int)

  datatype Mount = Mount(source: string, target: string, readOnly: bool)

  datatype Restart = Restart(mode: string, maximumRetryCount: int)

  /** Durations are nanoseconds. */
  datatype HealthConfig = HealthConfig(test: seq<string>, interval: int, timeout: int, retries: int, startPeriod: int)

  datatype CreateConfig = CreateConfig(
    image: string, command: Option<seq<string>>, workingDir: string, env: map<string, string>, labels: LabelMap,
    exposed: set<PortKey>, bindings: map<PortKey, seq<Binding>>, mounts: seq<Mount>, restart: Restart,
    health: Option<HealthConfig>)

  datatype SpecError = ImageRequired | NameRequired | BadVolume | BadPort | BadHealthCheck

  const SECOND: int := 1_000_000_000

  // ---- Ports ----

  function Protocol(p: PortMapping): string {
    if p.protocol == "" then "tcp" else Lower(p.protocol)
  }

  function Key(p: PortMapping): PortKey {
    PortKey(p.containerPort, Protocol(p))
  }

  function BindingOf(p: PortMapping): Binding {
    Binding(p.hostIP, p.hostPort)
  }

  /** More lenient than validation: any case of tcp or udp will do. */
  predicate PortBuildable(p: PortMapping, lib: Library) {
    && PortNumber(p.hostPort) && PortNumber(p.containerPort)
    && (p.hostIP == "" || lib.parsesIP(p.hostIP))
    && (Protocol(p) == "tcp" || Protocol(p) == "udp")
  }

  /** The bindings of the mappings with the key, in order. */
  function BindingsFor(ports: seq<PortMapping>, key: PortKey): seq<Binding> {
    if ports == [] then []
    else
      var last := ports[|ports| - 1];
      BindingsFor(ports[..|ports| - 1], key) + if Key(last) == key then [BindingOf(last)] else []
  }

  function Keys(ports: seq<PortMapping>): set<PortKey> {
    set p | p in ports :: Key(p)
  }

  lemma {:induction false} BoundExactly(ports: seq<PortMapping>, key: PortKey)
    ensures BindingsFor(ports, key) != [] <==> key in Keys(ports)
  {
    if ports == [] {
    } else {
      var front := ports[..|ports| - 1];
      BoundExactly(front, key);
      assert ports == front + [ports[|ports| - 1]];
    }
  }

  /** Checks one mapping and names its key. */
  method ReadPort(p: PortMapping, lib: Library) returns (r: Result<PortKey, SpecError>)
    ensures r == if PortBuildable(p, lib) then Ok(Key(p)) else Err(BadPort)
  {
    if !PortNumber(p.hostPort) || !PortNumber(p.containerPort) {
      return Err(BadPort);
    }
    if p.hostIP != "" && !lib.parsesIP(p.hostIP) {
      return Err(BadPort);
    }
    var protocol := Lower(p.protocol);
    if protocol == "" {
      protocol := "tcp";
    }
    assert protocol == Protocol(p);
    if protocol != "tcp" && protocol != "udp" {
      return Err(BadPort);
    }
    return Ok(PortKey(p.containerPort, protocol));
  }

  method BuildPortBindings(ports: seq<PortMapping>, lib: Library)
    returns (r: Result<(set<PortKey>, map<PortKey, seq<Binding>>), SpecError>)
    ensures r.Ok? <==> forall p :: p in ports ==> PortBuildable(p, lib)
    ensures r.Ok? ==> r.value.0 == r.value.1.Keys == Keys(ports)
    ensures r.Ok? ==> forall key :: key in r.value.1 ==> r.value.1[key] == BindingsFor(ports, key)
    ensures r.Err? ==> r.error == BadPort
  {
    hide Protocol, Lower, PortBuildable;
    var exposed: set<PortKey> := {};
    var bindings: map<PortKey, seq<Binding>> := map[];
    for i := 0 to |ports|
      invariant forall p :: p in ports[..i] ==> PortBuildable(p, lib)
      invariant exposed == bindings.Keys == Keys(ports[..i])
      invariant forall key :: key in bindings ==> bindings[key] == BindingsFor(ports[..i], key)
    {
      var p := ports[i];
      assert p in ports;
      var read := ReadPort(p, lib);
      if read.Err? {
        return Err(read.error);
      }
      assert ports[..i + 1] == ports[..i] + [p];
      BoundExactly(ports[..i], Key(p));
      var key := read.value;
      exposed := exposed + {key};
      bindings := bindings[key := (if key in bindings then bindings[key] else []) + [Binding(p.hostIP, p.hostPort)]];
    }
    assert ports[..|ports|] == ports;
    return Ok((exposed, bindings));
  }

  ghost function AnyKey(keys: set<PortKey>): (k: PortKey)
    requires keys != {}
    ensures k in keys
  {
    var k :| k in keys;
    k
  }

  /** Total number of bindings under a set of keys. */
  ghost function Total(keys: set<PortKey>, ports: seq<PortMapping>): nat {
    if keys == {} then 0
    else |BindingsFor(ports, AnyKey(keys))| + Total(keys - {AnyKey(keys)}, ports)
  }

  lemma {:induction false} TotalGrows(keys: set<PortKey>, ports: seq<PortMapping>, p: PortMapping)
    ensures Total(keys, ports + [p]) == Total(keys, ports) + (if Key(p) in keys then 1 else 0)
  {
    if keys == {} {
    } else {
      var k := AnyKey(keys);
      TotalGrows(keys - {k}, ports, p);
      assert (ports + [p])[..|ports|] == ports;
      assert |BindingsFor(ports + [p], k)| == |BindingsFor(ports, k)| + (if Key(p) == k then 1 else 0);
    }
  }

  lemma {:induction false} NoBindings(keys: set<PortKey>)
    ensures Total(keys, []) == 0
  {
    if keys == {} {
    } else {
      NoBindings(keys - {AnyKey(keys)});
    }
  }

  /** No mapping is lost or doubled: the bindings add up to the number of mappings. */
  lemma {:induction false} BindingsAddUp(ports: seq<PortMapping>, keys: set<PortKey>)
    requires Keys(ports) <= keys
    ensures Total(keys, ports) == |ports|
    decreases |ports|
  {
    if ports == [] {
      NoBindings(keys);
    } else {
      var front, last := ports[..|ports| - 1], ports[|ports| - 1];
      assert ports == front + [last];
      assert Key(last) in Keys(ports);
      BindingsAddUp(front, keys);
      TotalGrows(keys, front, last);
    }
  }

  /** A mapping is for the key: same container port, same protocol in lower case, tcp when not given. */
  predicate IsFor(p: PortMapping, key: PortKey) {
    && p.containerPort == key.port
    && (if p.protocol == "" then key.protocol == "tcp" else key.protocol == Lower(p.protocol))
  }

  /** The bindings are the host addresses and ports of the mappings at these places, in order. */
  predicate TakenFrom(ports: seq<PortMapping>, key: PortKey, at: seq<nat>, bound: seq<Binding>) {
    && |at| == |bound| && (forall i, j :: 0 <= i < j < |at| ==> at[i] < at[j])
    && forall j :: 0 <= j < |at| ==>
         && at[j] < |ports| && IsFor(ports[at[j]], key)
         && bound[j].hostIP == ports[at[j]].hostIP && bound[j].hostPort == ports[at[j]].hostPort
  }

  /** A key's bindings are those of all its mappings, in the order of the list. */
  lemma {:induction false} BindingsInOrder(ports: seq<PortMapping>, key: PortKey) returns (at: seq<nat>)
    ensures TakenFrom(ports, key, at, BindingsFor(ports, key))
    ensures forall i :: 0 <= i < |ports| && IsFor(ports[i], key) ==> i in at
  {
    if ports == [] {
      at := [];
    } else {
      var n := |ports| - 1;
      var front := BindingsInOrder(ports[..n], key);
      at := front + if IsFor(ports[n], key) then [n] else [];
      TakenOneMore(ports, key, front, BindingsFor(ports[..n], key));
      hide BindingsFor, TakenFrom, Lower;
      forall i | 0 <= i < |ports| && IsFor(ports[i], key)
        ensures i in at
      {
        assert i < n ==> ports[..n][i] == ports[i] && i in front;
        assert i == n ==> at[|at| - 1] == n;
      }
    }
  }

  lemma TakenOneMore(ports: seq<PortMapping>, key: PortKey, at: seq<nat>, bound: seq<Binding>)
    requires ports != [] && TakenFrom(ports[..|ports| - 1], key, at, bound)
    ensures var n := |ports| - 1;
      if IsFor(ports[n], key)
      then TakenFrom(ports, key, at + [n], bound + [Binding(ports[n].hostIP, ports[n].hostPort)])
      else TakenFrom(ports, key, at, bound)
  {
    hide IsFor;
    var n := |ports| - 1;
    forall j | 0 <= j < |at|
      ensures at[j] < n && ports[..n][at[j]] == ports[at[j]]
    {
    }
  }

  /** The exposed ports are those of the mappings. */
  lemma KeysExactly(ports: seq<PortMapping>, key: PortKey)
    ensures key in Keys(ports) <==> exists p :: p in ports && IsFor(p, key)
  {
    hide Lower;
    forall p
      ensures Key(p) == key <==> IsFor(p, key)
    {
    }
  }

  // ---- Mounts and health checks ----

  function MountOf(v: VolumeMount): Mount {
    Mount(v.hostPath, v.containerPath, v.readOnly)
  }

  method BuildMounts(volumes: seq<VolumeMount>) returns (r: Result<seq<Mount>, SpecError>)
    ensures r.Ok? <==> forall v :: v in volumes ==> VolumeFault(v) == None
    ensures r.Ok? ==> |r.value| == |volumes|
    ensures r.Ok? ==> forall i :: 0 <= i < |volumes| ==> r.value[i] == MountOf(volumes[i])
    ensures r.Err? ==> r.error == BadVolume
  {
    var out: seq<Mount> := [];
    for i := 0 to |volumes|
      invariant |out| == i
      invariant forall j :: 0 <= j < i ==> VolumeFault(volumes[j]) == None
      invariant forall j :: 0 <= j < i ==> out[j] == MountOf(volumes[j])
    {
      var v := volumes[i];
      assert v in volumes;
      if Blank(v.hostPath) || Blank(v.containerPath) || !("/" <= v.containerPath) {
        return Err(BadVolume);
      }
      out := out + [Mount(v.hostPath, v.containerPath, v.readOnly)];
    }
    return Ok(out);
  }

  /** `time.Duration(seconds) * time.Second` in 64 bits. */
  function Duration(seconds: int): int {
    Wrap64(seconds * SECOND)
  }

  function DurationOrDefault(seconds: int, fallback: int): int {
    if seconds <= 0 then fallback else Duration(seconds)
  }

  function BuildHealthCheck(h: HealthCheck): Result<HealthConfig, SpecError> {
    var config := (test: string) =>
      HealthConfig(["CMD-SHELL", test], DurationOrDefault(h.intervalSeconds, 30 * SECOND),
                   DurationOrDefault(h.timeoutSeconds, 5 * SECOND), h.retries, Duration(h.startPeriodSeconds));
    if h.kind == "http" then
      if !PortNumber(h.port) || Blank(h.path) then Err(BadHealthCheck)
      else Ok(config("wget -qO- http://127.0.0.1:" + Itoa(h.port) + h.path + " >/dev/null 2>&1 || exit 1"))
    else if h.kind == "tcp" then
      if !PortNumber(h.port) then Err(BadHealthCheck)
      else Ok(config("nc -z 127.0.0.1 " + Itoa(h.port) + " || exit 1"))
    else if h.kind == "cmd" then
      if Blank(h.command) then Err(BadHealthCheck) else Ok(config(h.command))
    else Err(BadHealthCheck)
  }

  function RestartPolicy(p: string): Restart {
    if p == "always" || p == "unless-stopped" then Restart(p, 0)
    else if p == "on-failure" then Restart(p, 3)
    else Restart("no", 0)
  }

  /** The restart modes the engine is given; only on-failure has a retry limit. */
  lemma RestartTable(p: string)
    ensures RestartPolicy(p).mode == (if p in {"always", "on-failure", "unless-stopped"} then p else "no")
    ensures RestartPolicy(p).maximumRetryCount == if p == "on-failure" then 3 else 0
  {
  }

  /** The probe the engine is given: its shell command by kind, and its times in nanoseconds, 30 and 5
      seconds when not positive. */
  lemma HealthCheckTable(h: HealthCheck)
    requires BuildHealthCheck(h).Ok?
    ensures var c := BuildHealthCheck(h).value;
      && |c.test| == 2 && c.test[0] == "CMD-SHELL" && c.retries == h.retries
      && (h.kind == "http" ==>
            1 <= h.port <= 65535 && !Blank(h.path)
            && c.test[1] == "wget -qO- http://127.0.0.1:" + Itoa(h.port) + h.path + " >/dev/null 2>&1 || exit 1")
      && (h.kind == "tcp" ==> 1 <= h.port <= 65535 && c.test[1] == "nc -z 127.0.0.1 " + Itoa(h.port) + " || exit 1")
      && (h.kind == "cmd" ==> c.test[1] == h.command && !Blank(h.command))
      && h.kind in {"http", "tcp", "cmd"}
    ensures var c := BuildHealthCheck(h).value;
      && (h.intervalSeconds <= 0 ==> c.interval == 30_000_000_000)
      && (0 < h.intervalSeconds <= 9_000_000_000 ==> c.interval == h.intervalSeconds * 1_000_000_000)
      && (h.timeoutSeconds <= 0 ==> c.timeout == 5_000_000_000)
      && (0 < h.timeoutSeconds <= 9_000_000_000 ==> c.timeout == h.timeoutSeconds * 1_000_000_000)
      && (0 <= h.startPeriodSeconds <= 9_000_000_000 ==> c.startPeriod == h.startPeriodSeconds * 1_000_000_000)
  {
    hide TrimSpace, Itoa;
  }

  /** Which probes can be built. */
  lemma HealthCheckBuilds(h: HealthCheck)
    ensures BuildHealthCheck(h).Ok? <==>
      || (h.kind == "http" && 1 <= h.port <= 65535 && TrimSpace(h.path) != "")
      || (h.kind == "tcp" && 1 <= h.port <= 65535)
      || (h.kind == "cmd" && TrimSpace(h.command) != "")
  {
    hide TrimSpace, Itoa;
  }

  // ---- The request ----

  ghost predicate Buildable(spec: ContainerSpec, lib: Library) {
    && !Blank(spec.image) && !Blank(spec.name)
    && (forall v :: v in spec.volumes ==> VolumeFault(v) == None)
    && (forall p :: p in spec.ports ==> PortBuildable(p, lib))
    && (spec.healthCheck.Some? ==> BuildHealthCheck(spec.healthCheck.value).Ok?)
  }

  /** The request holds everything the specification names. */
  ghost predicate Carries(spec: ContainerSpec, configHash: string, cfg: CreateConfig) {
    && cfg.image == spec.image && cfg.workingDir == spec.workingDir && cfg.env == spec.env
    && cfg.command == (if spec.command == [] then None else Some(spec.command))
    && cfg.labels == WorkloadLabels(spec.stackName, spec.kind, spec.workload, configHash, spec.labels)
    && cfg.exposed == cfg.bindings.Keys == Keys(spec.ports)
    && (forall key :: key in cfg.bindings ==> cfg.bindings[key] == BindingsFor(spec.ports, key))
    && |cfg.mounts| == |spec.volumes|
    && (forall i :: 0 <= i < |spec.volumes| ==> cfg.mounts[i] == MountOf(spec.volumes[i]))
    && cfg.restart == RestartPolicy(spec.restart)
    && (cfg.health.Some? <==> spec.healthCheck.Some?)
    && (spec.healthCheck.Some? ==> BuildHealthCheck(spec.healthCheck.value) == Ok(cfg.health.value))
  }

  method BuildCreateConfig(spec: ContainerSpec, configHash: string, lib: Library)
    returns (r: Result<CreateConfig, SpecError>)
    ensures r.Ok? <==> Buildable(spec, lib)
    ensures r.Ok? ==> Carries(spec, configHash, r.value)
  {
    hide VolumeFault, PortBuildable, BuildHealthCheck, TrimSpace;
    if Blank(spec.image) {
      return Err(ImageRequired);
    }
    if Blank(spec.name) {
      return Err(NameRequired);
    }
    var command: Option<seq<string>> := if spec.command == [] then None else Some(spec.command);
    var base := BaseLabels(spec.stackName, spec.kind, spec.workload, configHash);
    var labels := MergeLabels(base, spec.labels);
    var mounts: seq<Mount> := [];
    if |spec.volumes| > 0 {
      var built := BuildMounts(spec.volumes);
      if built.Err? {
        return Err(built.error);
      }
      mounts := built.value;
    }
    var ports := BuildPortBindings(spec.ports, lib);
    if ports.Err? {
      return Err(ports.error);
    }
    var health: Option<HealthConfig> := None;
    if spec.healthCheck.Some? {
      var built := BuildHealthCheck(spec.healthCheck.value);
      if built.Err? {
        return Err(built.error);
      }
      health := Some(built.value);
    }
    return Ok(CreateConfig(
      spec.image, command, spec.workingDir, spec.env, labels, ports.value.0, ports.value.1, mounts,
      RestartPolicy(spec.restart), health));
  }

  // ---- Validation implies construction ----

  /** The specification the reconciler builds for a service. */
  function ServiceSpec(stackName: string, s: Service): ContainerSpec {
    ContainerSpec(BuildContainerName(stackName, s.name), stackName, "service", s.name, s.image, s.command,
                  s.workingDir, s.env, s.labels, s.ports, s.volumes, s.restart, s.healthCheck)
  }

  /** The specification the job runner builds for one execution of a job. */
  function JobSpec(stackName: string, j: Job, configHash: string, shortId: string): ContainerSpec {
    ContainerSpec(BuildContainerName(stackName, j.name) + "-" + shortId, stackName, "job", j.name, j.image, j.command,
                  j.workingDir, j.env, WorkloadLabels(stackName, "job", j.name, configHash, j.labels),
                  [], j.volumes, "", None)
  }

  lemma NamesAreNotBlank(stackName: string, workload: string, suffix: string)
    ensures !Blank(BuildContainerName(stackName, workload) + suffix)
  {
    hide NormalizeContainerName, BuildContainerName;
    BuiltNameIsNormal(stackName, workload);
    var name := BuildContainerName(stackName, workload);
    assert name[0] in name;
    NotBlank(name + suffix);
  }

  lemma ValidPortBuilds(p: PortMapping, lib: Library)
    requires PortFault(p, lib) == None
    ensures PortBuildable(p, lib)
  {
    assert Lower("tcp") == "tcp" && Lower("udp") == "udp";
  }

  /** Every service of an accepted configuration can be built. */
  lemma AcceptedServiceBuilds(c: Config, s: Service, lib: Library)
    requires Accepted(c, lib) && s in c.services
    ensures Buildable(ServiceSpec(c.name, s), lib)
  {
    hide VolumeFault, PortBuildable, PortFault, TrimSpace, BuildContainerName, ImageFault, ServiceFault;
    AcceptedService(s, lib);
    forall p | p in s.ports
      ensures PortBuildable(p, lib)
    {
      ValidPortBuilds(p, lib);
    }
    NamesAreNotBlank(c.name, s.name, "");
    assert BuildContainerName(c.name, s.name) + "" == BuildContainerName(c.name, s.name);
  }

  /** So can every execution of its jobs. */
  lemma AcceptedJobBuilds(c: Config, j: Job, lib: Library, configHash: string, shortId: string)
    requires Accepted(c, lib) && j in c.jobs
    ensures Buildable(JobSpec(c.name, j, configHash, shortId), lib)
  {
    hide VolumeFault, TrimSpace, BuildContainerName, ImageFault, JobFault;
    AcceptedJob(j, lib);
    NamesAreNotBlank(c.name, j.name, "-" + shortId);
    assert BuildContainerName(c.name, j.name) + "-" + shortId == BuildContainerName(c.name, j.name) + ("-" + shortId);
  }

  // ---- What a workload's request holds ----

  predicate Reserved(key: string) {
    key in {"orbit.managed", "orbit.stack", "orbit.kind", "orbit.workload", "orbit.configHash"}
  }

  /** The user's labels beside the five that identify the workload. */
  ghost predicate Labelled(labels: LabelMap, user: LabelMap, stackName: string, kind: string, workload: string,
                           configHash: string)
  {
    && (forall k :: k in labels <==> k in user || Reserved(k))
    && (forall k :: k in user && !Reserved(k) ==> labels[k] == user[k])
    && labels["orbit.managed"] == "true" && labels["orbit.stack"] == stackName && labels["orbit.kind"] == kind
    && labels["orbit.workload"] == workload && labels["orbit.configHash"] == configHash
  }

  /** A service's request, field by field. */
  ghost predicate RequestsService(cfg: CreateConfig, stackName: string, s: Service) {
    && cfg.image == s.image && cfg.workingDir == s.workingDir && cfg.env == s.env
    && cfg.command == (if s.command == [] then None else Some(s.command))
    && Labelled(cfg.labels, s.labels, stackName, "service", s.name, Label(s.labels, HASH))
    && cfg.exposed == cfg.bindings.Keys == Keys(s.ports)
    && (forall key :: key in cfg.bindings ==> cfg.bindings[key] == BindingsFor(s.ports, key))
    && |cfg.mounts| == |s.volumes|
    && (forall i :: 0 <= i < |s.volumes| ==>
          cfg.mounts[i] == Mount(s.volumes[i].hostPath, s.volumes[i].containerPath, s.volumes[i].readOnly))
    && cfg.restart == RestartPolicy(s.restart)
    && (cfg.health.Some? <==> s.healthCheck.Some?)
    && (s.healthCheck.Some? ==> BuildHealthCheck(s.healthCheck.value) == Ok(cfg.health.value))
  }

  /** A job's request, field by field: no ports, no restart, no probe. */
  ghost predicate RequestsJob(cfg: CreateConfig, stackName: string, j: Job, configHash: string) {
    && cfg.image == j.image && cfg.workingDir == j.workingDir && cfg.env == j.env
    && cfg.command == (if j.command == [] then None else Some(j.command))
    && Labelled(cfg.labels, j.labels, stackName, "job", j.name, configHash)
    && cfg.exposed == {} && cfg.bindings == map[]
    && |cfg.mounts| == |j.volumes|
    && (forall i :: 0 <= i < |j.volumes| ==>
          cfg.mounts[i] == Mount(j.volumes[i].hostPath, j.volumes[i].containerPath, j.volumes[i].readOnly))
    && cfg.restart == Restart("no", 0) && cfg.health == None
  }

  lemma LabelsCarried(stackName: string, kind: string, workload: string, configHash: string, user: LabelMap)
    ensures Labelled(
      WorkloadLabels(stackName, kind, workload, configHash, user), user, stackName, kind, workload, configHash)
  {
    WorkloadLabelsIdentify(stackName, kind, workload, configHash, user);
  }

  /** The request made of a service's specification is the service's. */
  lemma ServiceRequest(stackName: string, s: Service, cfg: CreateConfig)
    requires Carries(ServiceSpec(stackName, s), Label(s.labels, HASH), cfg)
    ensures RequestsService(cfg, stackName, s)
  {
    hide BuildContainerName, BindingsFor, Keys, BuildHealthCheck, RestartPolicy, Labelled, WorkloadLabels;
    LabelsCarried(stackName, "service", s.name, Label(s.labels, HASH), s.labels);
  }

  /** The request made of a job's specification is the job's, stamped with the configuration hash. */
  lemma JobRequest(stackName: string, j: Job, configHash: string, shortId: string, cfg: CreateConfig)
    requires var spec := JobSpec(stackName, j, configHash, shortId); Carries(spec, Label(spec.labels, HASH), cfg)
    ensures RequestsJob(cfg, stackName, j, configHash)
  {
    hide BuildContainerName, BuildHealthCheck;
    WorkloadLabelsIdentify(stackName, "job", j.name, configHash, j.labels);
    var stamped := WorkloadLabels(stackName, "job", j.name, configHash, j.labels);
    LabelsCarried(stackName, "job", j.name, configHash, j.labels);
    LabelsCarried(stackName, "job", j.name, configHash, stamped);
    assert Keys([]) == {};
  }

  /** Every accepted service gets a request, and the request is its own. */
  method RequestAcceptedService(c: Config, s: Service, lib: Library) returns (cfg: CreateConfig)
    requires Accepted(c, lib) && s in c.services
    ensures RequestsService(cfg, c.name, s)
  {
    hide Accepted, Buildable, Carries, RequestsService, BuildContainerName;
    var spec := ServiceSpec(c.name, s);
    AcceptedServiceBuilds(c, s, lib);
    var r := BuildCreateConfig(spec, Label(s.labels, HASH), lib);
    ServiceRequest(c.name, s, r.value);
    return r.value;
  }

  /** So does every execution of an accepted job. */
  method RequestAcceptedJob(c: Config, j: Job, lib: Library, configHash: string, shortId: string)
    returns (cfg: CreateConfig)
    requires Accepted(c, lib) && j in c.jobs
    ensures RequestsJob(cfg, c.name, j, configHash)
  {
    hide Accepted, Buildable, Carries, RequestsJob, BuildContainerName, JobSpec, WorkloadLabels;
    var spec := JobSpec(c.name, j, configHash, shortId);
    AcceptedJobBuilds(c, j, lib, configHash, shortId);
    var r := BuildCreateConfig(spec, Label(spec.labels, HASH), lib);
    JobRequest(c.name, j, configHash, shortId, r.value);
    return r.value;
  }

  // ---- The stamped hash ----

  /** `CreateContainer` takes the hash to stamp from the specification's own labels. */
  function StampedLabels(spec: ContainerSpec): LabelMap {
    WorkloadLabels(spec.stackName, spec.kind, spec.workload, Label(spec.labels, HASH), spec.labels)
  }

  /** A job container carries the configuration hash; a service container carries whatever the
      user's own labels say, normally nothing. */
  lemma StampedHash(stackName: string, s: Service, j: Job, configHash: string, shortId: string)
    ensures Label(StampedLabels(JobSpec(stackName, j, configHash, shortId)), HASH) == configHash
    ensures Label(StampedLabels(ServiceSpec(stackName, s)), HASH) == Label(s.labels, HASH)
  {
    hide BuildContainerName;
    WorkloadLabelsIdentify(stackName, "job", j.name, configHash, j.labels);
    var spec := JobSpec(stackName, j, configHash, shortId);
    WorkloadLabelsIdentify(stackName, "job", j.name, Label(spec.labels, HASH), spec.labels);
    WorkloadLabelsIdentify(stackName, "service", s.name, Label(s.labels, HASH), s.labels);
  }
}
