/** Validation of declared workloads and of the whole configuration. A check yields the first
    fault it meets, or None. */
module Validation {
  import opened Wrappers
  import opened Text
  import opened Models

  type Fault = Option<string>

  /** Library behaviour the checks rely on: `net.ParseIP`, `time.ParseDuration` and the image-name
      regular expression. */
  datatype Library = Library(parsesIP: string -> bool, parsesDuration: string -> bool, imagePattern: string -> bool)

  function FirstFault<T>(items: seq<T>, check: T -> Fault): Fault {
    if items == [] then None
    else if check(items[0]).Some? then check(items[0])
    else FirstFault(items[1..], check)
  }

  lemma {:induction false} NoFault<T>(items: seq<T>, check: T -> Fault)
    ensures FirstFault(items, check) == None <==> forall x :: x in items ==> check(x) == None
  {
    if items == [] {
    } else {
      NoFault(items[1..], check);
      assert items == [items[0]] + items[1..];
    }
  }

  predicate PortNumber(p: int) {
    1 <= p <= 65535
  }

  function PortFault(p: PortMapping, lib: Library): Fault {
    if !PortNumber(p.hostPort) then Some("hostPort")
    else if !PortNumber(p.containerPort) then Some("containerPort")
    else if p.hostIP != "" && !lib.parsesIP(p.hostIP) then Some("hostIP")
    else if p.protocol == "" || p.protocol == "tcp" || p.protocol == "udp" then None
    else Some("protocol")
  }

  function VolumeFault(v: VolumeMount): Fault {
    if Blank(v.hostPath) then Some("hostPath")
    else if Blank(v.containerPath) then Some("containerPath")
    else if !("/" <= v.containerPath) then Some("containerPath")
    else None
  }

  function HealthFault(h: HealthCheck): Fault {
    var kindFault :=
      if h.kind == "http" then
        if Blank(h.path) then Some("path") else if !PortNumber(h.port) then Some("port") else None
      else if h.kind == "tcp" then if !PortNumber(h.port) then Some("port") else None
      else if h.kind == "cmd" then if Blank(h.command) then Some("command") else None
      else Some("kind");
    if kindFault.Some? then kindFault
    else if h.intervalSeconds < 0 || h.timeoutSeconds < 0 || h.retries < 0 || h.startPeriodSeconds < 0
    then Some("timing")
    else None
  }

  /** `^[a-zA-Z0-9][a-zA-Z0-9_.-]{0,127}$`. */
  predicate NamePattern(name: string) {
    && 1 <= |name| <= 128 && Alphanumeric(name[0])
    && forall c :: c in name ==> Alphanumeric(c) || c == '_' || c == '.' || c == '-'
  }

  predicate RestartPolicyValid(p: string) {
    p == "no" || p == "always" || p == "on-failure" || p == "unless-stopped"
  }

  function ServiceFault(s: Service, lib: Library): Fault {
    if Blank(s.name) then Some("name")
    else if !NamePattern(s.name) then Some("name")
    else if Blank(s.image) then Some("image")
    else if s.restart != "" && !RestartPolicyValid(s.restart) then Some("restart")
    else
      var ports := FirstFault(s.ports, p => PortFault(p, lib));
      var volumes := FirstFault(s.volumes, VolumeFault);
      if ports.Some? then ports
      else if volumes.Some? then volumes
      else if s.healthCheck.Some? && HealthFault(s.healthCheck.value).Some? then HealthFault(s.healthCheck.value)
      else FirstFault(s.dependsOn, d => if Blank(d) then Some("dependsOn") else None)
  }

  function ScheduleFault(cron: string): Fault {
    if Blank(cron) then Some("cron")
    else if |Fields(cron)| != 5 && |Fields(cron)| != 6 then Some("cron")
    else None
  }

  function JobFault(j: Job, lib: Library): Fault {
    if Blank(j.name) then Some("name")
    else if !NamePattern(j.name) then Some("name")
    else if Blank(j.image) then Some("image")
    else if j.schedule.Some? && ScheduleFault(j.schedule.value.cron).Some? then ScheduleFault(j.schedule.value.cron)
    else if j.timeout != "" && !lib.parsesDuration(j.timeout) then Some("timeout")
    else if j.retryCount < 0 then Some("retryCount")
    else FirstFault(j.volumes, VolumeFault)
  }

  function HttpFault(m: HttpMatch): Fault {
    if Blank(m.path) || !("/" <= m.path) then Some("path")
    else if Upper(m.verb) in {"", "GET", "POST", "PUT", "PATCH", "DELETE", "HEAD", "OPTIONS"} then None
    else Some("method")
  }

  function FileFault(m: FileMatch): Fault {
    if Blank(m.path) || !("/" <= m.path) then Some("path")
    else if m.eventType in {"", "create", "write", "remove", "rename"} then None
    else Some("eventType")
  }

  function MatchFault(t: Trigger): Fault {
    if t.http.Some? && HttpFault(t.http.value).Some? then HttpFault(t.http.value)
    else if t.mqtt.Some? && Blank(t.mqtt.value.topic) then Some("topic")
    else if t.file.Some? && FileFault(t.file.value).Some? then FileFault(t.file.value)
    else if Rules(t) == 0 then Some("no match")
    else if Rules(t) > 1 then Some("many matches")
    else None
  }

  /** How many match rules a trigger has. */
  function Rules(t: Trigger): nat {
    (if t.http.Some? then 1 else 0) + (if t.mqtt.Some? then 1 else 0) + (if t.file.Some? then 1 else 0)
  }

  function TriggerFault(t: Trigger): Fault {
    if Blank(t.name) then Some("name")
    else if t.kind !in {"http", "mqtt", "file", "event"} then Some("type")
    else if MatchFault(t).Some? then MatchFault(t)
    else if t.targetKind !in {"service", "job", "trigger", "stack"} then Some("target kind")
    else if Blank(t.targetName) then Some("target name")
    else if t.kind == "http" && t.http.None? then Some("http")
    else if t.kind == "mqtt" && t.mqtt.None? then Some("mqtt")
    else if t.kind == "file" && t.file.None? then Some("file")
    else None
  }

  predicate Contains(s: string, part: string) {
    part <= s || (s != "" && Contains(s[1..], part))
  }

  function ImageFault(image: string, lib: Library): Fault {
    var t := TrimSpace(image);
    if t == "" then Some("image")
    else if ' ' in t || '\t' in t || '\r' in t || '\n' in t then Some("image")
    else if t[0] == '/' || t[|t| - 1] == '/' then Some("image")
    else if Contains(t, "//") then Some("image")
    else if !lib.imagePattern(t) then Some("image")
    else None
  }

  // ---- The configuration ----

  datatype Config = Config(
    apiVersion: string, kind: string, name: string, services: seq<Service>, jobs: seq<Job>, triggers: seq<Trigger>)

  const API_VERSION: string := "orbit.dev/v1alpha1"
  const KIND: string := "Stack"

  ghost predicate Distinct(names: seq<string>) {
    forall i, j :: 0 <= i < j < |names| ==> names[i] != names[j]
  }

  function ServiceNames(services: seq<Service>): seq<string> {
    seq(|services|, i requires 0 <= i < |services| => services[i].name)
  }

  function JobNames(jobs: seq<Job>): seq<string> {
    seq(|jobs|, i requires 0 <= i < |jobs| => jobs[i].name)
  }

  ghost predicate ServicesAccepted(services: seq<Service>, lib: Library) {
    && (forall s :: s in services ==> ServiceFault(s, lib) == None && ImageFault(s.image, lib) == None)
    && Distinct(ServiceNames(services))
  }

  ghost predicate JobsAccepted(jobs: seq<Job>, lib: Library) {
    && (forall j :: j in jobs ==> JobFault(j, lib) == None && ImageFault(j.image, lib) == None)
    && Distinct(JobNames(jobs))
  }

  function TriggerNames(triggers: seq<Trigger>): seq<string> {
    seq(|triggers|, i requires 0 <= i < |triggers| => triggers[i].name)
  }

  ghost predicate TriggersAccepted(triggers: seq<Trigger>) {
    (forall t :: t in triggers ==> TriggerFault(t) == None) && Distinct(TriggerNames(triggers))
  }

  ghost predicate Accepted(c: Config, lib: Library) {
    && c.apiVersion == API_VERSION && c.kind == KIND && !Blank(c.name)
    && ServicesAccepted(c.services, lib) && JobsAccepted(c.jobs, lib) && TriggersAccepted(c.triggers)
  }

  // ---- What is accepted, rule by rule ----

  predicate Shown(s: string) {
    exists c :: c in s && !IsSpace(c)
  }

  lemma ShownExactly(s: string)
    ensures Shown(s) <==> !Blank(s)
  {
    BlankExactly(s);
  }

  predicate PortAllowed(p: PortMapping, lib: Library) {
    && 1 <= p.hostPort <= 65535 && 1 <= p.containerPort <= 65535
    && (p.hostIP == "" || lib.parsesIP(p.hostIP))
    && p.protocol in {"", "tcp", "udp"}
  }

  predicate VolumeAllowed(v: VolumeMount) {
    Shown(v.hostPath) && v.containerPath != "" && v.containerPath[0] == '/'
  }

  predicate HealthAllowed(h: HealthCheck) {
    && h.kind in {"http", "tcp", "cmd"}
    && (h.kind == "http" ==> Shown(h.path))
    && (h.kind != "cmd" ==> 1 <= h.port <= 65535)
    && (h.kind == "cmd" ==> Shown(h.command))
    && 0 <= h.intervalSeconds && 0 <= h.timeoutSeconds && 0 <= h.retries && 0 <= h.startPeriodSeconds
  }

  predicate NameAllowed(name: string) {
    && 1 <= |name| <= 128
    && ('a' <= name[0] <= 'z' || 'A' <= name[0] <= 'Z' || '0' <= name[0] <= '9')
    && forall i :: 0 <= i < |name| ==>
         || 'a' <= name[i] <= 'z' || 'A' <= name[i] <= 'Z' || '0' <= name[i] <= '9'
         || name[i] == '_' || name[i] == '.' || name[i] == '-'
  }

  predicate ImageAllowed(image: string, lib: Library) {
    var t := TrimSpace(image);
    && t != "" && t[0] != '/' && t[|t| - 1] != '/'
    && (forall c :: c in t ==> c !in " \t\r\n")
    && !(exists i :: 0 < i < |t| && t[i - 1] == '/' && t[i] == '/')
    && lib.imagePattern(t)
  }

  predicate ServiceAllowed(s: Service, lib: Library) {
    && NameAllowed(s.name) && Shown(s.image)
    && s.restart in {"", "no", "always", "on-failure", "unless-stopped"}
    && (forall p :: p in s.ports ==> PortAllowed(p, lib))
    && (forall v :: v in s.volumes ==> VolumeAllowed(v))
    && (s.healthCheck.Some? ==> HealthAllowed(s.healthCheck.value))
    && (forall d :: d in s.dependsOn ==> Shown(d))
  }

  predicate JobAllowed(j: Job, lib: Library) {
    && NameAllowed(j.name) && Shown(j.image)
    && (j.schedule.Some? ==> 5 <= |Fields(j.schedule.value.cron)| <= 6)
    && (j.timeout == "" || lib.parsesDuration(j.timeout)) && 0 <= j.retryCount
    && (forall v :: v in j.volumes ==> VolumeAllowed(v))
  }

  /** The one match rule of a trigger is of its own type, or of any type on an event trigger. */
  predicate TriggerAllowed(t: Trigger) {
    && Shown(t.name) && t.kind in {"http", "mqtt", "file", "event"}
    && Shown(t.targetName) && t.targetKind in {"service", "job", "trigger", "stack"}
    && (t.kind == "http" ==> t.http.Some?) && (t.kind == "mqtt" ==> t.mqtt.Some?)
    && (t.kind == "file" ==> t.file.Some?)
    && match (t.http, t.mqtt, t.file) {
         case (Some(m), None, None) =>
           && m.path != "" && m.path[0] == '/'
           && Upper(m.verb) in {"", "GET", "POST", "PUT", "PATCH", "DELETE", "HEAD", "OPTIONS"}
         case (None, Some(m), None) => Shown(m.topic)
         case (None, None, Some(m)) =>
           m.path != "" && m.path[0] == '/' && m.eventType in {"", "create", "write", "remove", "rename"}
         case _ => false
       }
  }

  lemma PortExactly(p: PortMapping, lib: Library)
    ensures PortFault(p, lib) == None <==> PortAllowed(p, lib)
  {
  }

  lemma AbsolutePath(path: string)
    ensures path != "" && path[0] == '/' <==> !Blank(path) && "/" <= path
  {
    if path != "" && path[0] == '/' {
      NotBlank(path);
    }
  }

  lemma VolumeExactly(v: VolumeMount)
    ensures VolumeFault(v) == None <==> VolumeAllowed(v)
  {
    ShownExactly(v.hostPath);
    AbsolutePath(v.containerPath);
    hide TrimSpace;
  }

  lemma HealthExactly(h: HealthCheck)
    ensures HealthFault(h) == None <==> HealthAllowed(h)
  {
    ShownExactly(h.path);
    ShownExactly(h.command);
    hide TrimSpace, Shown;
  }

  lemma NameExactly(name: string)
    ensures !Blank(name) && NamePattern(name) <==> NameAllowed(name)
  {
    hide TrimSpace, Blank;
    if NameAllowed(name) {
      NotBlank(name);
    }
    if NamePattern(name) {
      forall i | 0 <= i < |name|
        ensures Alphanumeric(name[i]) || name[i] == '_' || name[i] == '.' || name[i] == '-'
      {
        assert name[i] in name;
      }
    }
  }

  ghost predicate Doubled(t: string) {
    exists i :: 0 < i < |t| && t[i - 1] == '/' && t[i] == '/'
  }

  lemma {:induction false} DoubledSlash(t: string)
    ensures Contains(t, "//") <==> Doubled(t)
  {
    if |t| > 1 {
      DoubledSlash(t[1..]);
      assert t[0] == '/' && t[1] == '/' ==> t[..2] == "//";
      if Doubled(t) && !("//" <= t) {
        var i :| 0 < i < |t| && t[i - 1] == '/' && t[i] == '/';
        assert t[1..][i - 2] == '/' && t[1..][i - 1] == '/';
      }
    }
  }

  lemma ImageExactly(image: string, lib: Library)
    ensures ImageFault(image, lib) == None <==> ImageAllowed(image, lib)
  {
    DoubledSlash(TrimSpace(image));
    hide Contains, TrimSpace;
  }

  lemma PortsExactly(ports: seq<PortMapping>, lib: Library)
    ensures FirstFault(ports, p => PortFault(p, lib)) == None <==> forall p :: p in ports ==> PortAllowed(p, lib)
  {
    hide FirstFault, PortFault, PortAllowed;
    NoFault(ports, p => PortFault(p, lib));
    forall p
      ensures PortFault(p, lib) == None <==> PortAllowed(p, lib)
    {
      PortExactly(p, lib);
    }
  }

  lemma VolumesExactly(volumes: seq<VolumeMount>)
    ensures FirstFault(volumes, VolumeFault) == None <==> forall v :: v in volumes ==> VolumeAllowed(v)
  {
    hide FirstFault, VolumeFault, VolumeAllowed;
    NoFault(volumes, VolumeFault);
    forall v
      ensures VolumeFault(v) == None <==> VolumeAllowed(v)
    {
      VolumeExactly(v);
    }
  }

  lemma DependenciesExactly(names: seq<string>)
    ensures FirstFault(names, d => if Blank(d) then Some("dependsOn") else None) == None
      <==> forall d :: d in names ==> Shown(d)
  {
    hide FirstFault, Blank, Shown;
    NoFault(names, d => if Blank(d) then Some("dependsOn") else None);
    forall d
      ensures Shown(d) <==> !Blank(d)
    {
      ShownExactly(d);
    }
  }

  lemma ServiceExactly(s: Service, lib: Library)
    ensures ServiceFault(s, lib) == None <==> ServiceAllowed(s, lib)
  {
    hide FirstFault, Blank, Shown, NamePattern, NameAllowed, PortFault, VolumeFault, HealthFault, PortAllowed,
         VolumeAllowed, HealthAllowed;
    NameExactly(s.name);
    ShownExactly(s.image);
    PortsExactly(s.ports, lib);
    VolumesExactly(s.volumes);
    DependenciesExactly(s.dependsOn);
    if s.healthCheck.Some? {
      HealthExactly(s.healthCheck.value);
    }
  }

  lemma JobExactly(j: Job, lib: Library)
    ensures JobFault(j, lib) == None <==> JobAllowed(j, lib)
  {
    hide FirstFault, TrimSpace, Shown, NamePattern, NameAllowed, VolumeFault, VolumeAllowed;
    NameExactly(j.name);
    ShownExactly(j.image);
    VolumesExactly(j.volumes);
    if j.schedule.Some? {
      FieldsOfTrim(j.schedule.value.cron);
    }
  }

  lemma TriggerExactly(t: Trigger)
    ensures TriggerFault(t) == None <==> TriggerAllowed(t)
  {
    hide Blank, Shown;
    ShownExactly(t.name);
    ShownExactly(t.targetName);
    if t.http.Some? {
      AbsolutePath(t.http.value.path);
    }
    if t.mqtt.Some? {
      ShownExactly(t.mqtt.value.topic);
    }
    if t.file.Some? {
      AbsolutePath(t.file.value.path);
    }
  }

  ghost predicate Allowed(c: Config, lib: Library) {
    && c.apiVersion == "orbit.dev/v1alpha1" && c.kind == "Stack" && Shown(c.name)
    && (forall s :: s in c.services ==> ServiceAllowed(s, lib) && ImageAllowed(s.image, lib))
    && (forall j :: j in c.jobs ==> JobAllowed(j, lib) && ImageAllowed(j.image, lib))
    && (forall t :: t in c.triggers ==> TriggerAllowed(t))
    && (forall i, j :: 0 <= i < j < |c.services| ==> c.services[i].name != c.services[j].name)
    && (forall i, j :: 0 <= i < j < |c.jobs| ==> c.jobs[i].name != c.jobs[j].name)
    && (forall i, j :: 0 <= i < j < |c.triggers| ==> c.triggers[i].name != c.triggers[j].name)
  }

  lemma AcceptedExactly(c: Config, lib: Library)
    ensures Accepted(c, lib) <==> Allowed(c, lib)
  {
    hide Blank, Shown, ServiceFault, ServiceAllowed, JobFault, JobAllowed, TriggerFault, TriggerAllowed, ImageFault,
         ImageAllowed;
    ShownExactly(c.name);
    forall s
      ensures ServiceFault(s, lib) == None <==> ServiceAllowed(s, lib)
    {
      ServiceExactly(s, lib);
    }
    forall j
      ensures JobFault(j, lib) == None <==> JobAllowed(j, lib)
    {
      JobExactly(j, lib);
    }
    forall t
      ensures TriggerFault(t) == None <==> TriggerAllowed(t)
    {
      TriggerExactly(t);
    }
    forall image
      ensures ImageFault(image, lib) == None <==> ImageAllowed(image, lib)
    {
      ImageExactly(image, lib);
    }
    DistinctNames(c);
  }

  lemma DistinctNames(c: Config)
    ensures Distinct(ServiceNames(c.services))
      <==> forall i, j :: 0 <= i < j < |c.services| ==> c.services[i].name != c.services[j].name
    ensures Distinct(JobNames(c.jobs)) <==> forall i, j :: 0 <= i < j < |c.jobs| ==> c.jobs[i].name != c.jobs[j].name
    ensures Distinct(TriggerNames(c.triggers))
      <==> forall i, j :: 0 <= i < j < |c.triggers| ==> c.triggers[i].name != c.triggers[j].name
  {
    assert forall i :: 0 <= i < |c.services| ==> ServiceNames(c.services)[i] == c.services[i].name;
    assert forall i :: 0 <= i < |c.jobs| ==> JobNames(c.jobs)[i] == c.jobs[i].name;
    assert forall i :: 0 <= i < |c.triggers| ==> TriggerNames(c.triggers)[i] == c.triggers[i].name;
  }

  method ValidateServices(services: seq<Service>, lib: Library) returns (fault: Fault)
    ensures fault == None <==> ServicesAccepted(services, lib)
  {
    hide ServiceFault, ImageFault;
    var seen: set<string> := {};
    for i := 0 to |services|
      invariant seen == set k | 0 <= k < i :: services[k].name
      invariant forall k :: 0 <= k < i ==>
        ServiceFault(services[k], lib) == None && ImageFault(services[k].image, lib) == None
      invariant forall j, k :: 0 <= j < k < i ==> services[j].name != services[k].name
    {
      var s := services[i];
      assert s in services;
      fault := ServiceFault(s, lib);
      if fault.Some? {
        return;
      }
      fault := ImageFault(s.image, lib);
      if fault.Some? {
        return;
      }
      if s.name in seen {
        var k :| 0 <= k < i && services[k].name == s.name;
        assert ServiceNames(services)[k] == ServiceNames(services)[i];
        return Some("duplicate");
      }
      seen := seen + {s.name};
    }
    return None;
  }

  /** The second schedule check of the configuration repeats the job's own. */
  lemma AcceptedSchedule(j: Job, lib: Library)
    ensures JobFault(j, lib) == None && j.schedule.Some? ==> ScheduleFault(j.schedule.value.cron) == None
  {
    hide ScheduleFault, TrimSpace;
  }

  method ValidateJobs(jobs: seq<Job>, lib: Library) returns (fault: Fault)
    ensures fault == None <==> JobsAccepted(jobs, lib)
  {
    hide ImageFault, JobFault, ScheduleFault;
    var seen: set<string> := {};
    for i := 0 to |jobs|
      invariant seen == set k | 0 <= k < i :: jobs[k].name
      invariant forall k :: 0 <= k < i ==> JobFault(jobs[k], lib) == None && ImageFault(jobs[k].image, lib) == None
      invariant forall j, k :: 0 <= j < k < i ==> jobs[j].name != jobs[k].name
    {
      var j := jobs[i];
      assert j in jobs;
      fault := JobFault(j, lib);
      if fault.Some? {
        return;
      }
      fault := ImageFault(j.image, lib);
      if fault.Some? {
        return;
      }
      AcceptedSchedule(j, lib);
      if j.schedule.Some? {
        fault := ScheduleFault(j.schedule.value.cron);
        if fault.Some? {
          return;
        }
      }
      if j.name in seen {
        var k :| 0 <= k < i && jobs[k].name == j.name;
        assert JobNames(jobs)[k] == JobNames(jobs)[i];
        return Some("duplicate");
      }
      seen := seen + {j.name};
    }
    return None;
  }

  method ValidateTriggers(triggers: seq<Trigger>) returns (fault: Fault)
    ensures fault == None <==> TriggersAccepted(triggers)
  {
    hide TriggerFault;
    var seen: set<string> := {};
    for i := 0 to |triggers|
      invariant seen == set k | 0 <= k < i :: triggers[k].name
      invariant forall k :: 0 <= k < i ==> TriggerFault(triggers[k]) == None
      invariant forall j, k :: 0 <= j < k < i ==> triggers[j].name != triggers[k].name
    {
      var t := triggers[i];
      assert t in triggers;
      fault := TriggerFault(t);
      if fault.Some? {
        return;
      }
      if t.name in seen {
        var k :| 0 <= k < i && triggers[k].name == t.name;
        assert TriggerNames(triggers)[k] == TriggerNames(triggers)[i];
        return Some("duplicate");
      }
      seen := seen + {t.name};
    }
    return None;
  }

  /** An accepted trigger has exactly one match rule, of its own type unless it is an event trigger,
      and a target. */
  lemma AcceptedTrigger(t: Trigger)
    requires TriggerFault(t) == None
    ensures Rules(t) == 1 && !Blank(t.name) && !Blank(t.targetName)
    ensures t.kind != "event" ==>
      (t.http.Some? <==> t.kind == "http") && (t.mqtt.Some? <==> t.kind == "mqtt")
      && (t.file.Some? <==> t.kind == "file")
  {
    hide TrimSpace, HttpFault, FileFault;
  }

  /** Accepts exactly the configurations whose every workload and trigger checks out and whose
      services, jobs and triggers have distinct names among themselves. */
  method Validate(c: Config, lib: Library) returns (fault: Fault)
    ensures fault == None <==> Accepted(c, lib)
    ensures fault == None <==> Allowed(c, lib)
  {
    hide ServicesAccepted, JobsAccepted, TriggersAccepted, Allowed;
    AcceptedExactly(c, lib);
    if Blank(c.apiVersion) || c.apiVersion != API_VERSION {
      return Some("apiVersion");
    }
    if Blank(c.kind) || c.kind != KIND {
      return Some("kind");
    }
    if Blank(c.name) {
      return Some("metadata.name");
    }
    fault := ValidateServices(c.services, lib);
    if fault.None? {
      fault := ValidateJobs(c.jobs, lib);
    }
    if fault.None? {
      fault := ValidateTriggers(c.triggers);
    }
  }

  /** What later stages rely on. */
  lemma AcceptedService(s: Service, lib: Library)
    requires ServiceFault(s, lib) == None
    ensures !Blank(s.image) && NamePattern(s.name)
    ensures forall p :: p in s.ports ==> PortFault(p, lib) == None
    ensures forall v :: v in s.volumes ==> VolumeFault(v) == None
    ensures s.healthCheck.Some? ==> HealthFault(s.healthCheck.value) == None
  {
    NoFault(s.ports, p => PortFault(p, lib));
    NoFault(s.volumes, VolumeFault);
  }

  lemma AcceptedJob(j: Job, lib: Library)
    requires JobFault(j, lib) == None
    ensures !Blank(j.image) && NamePattern(j.name) && ':' !in j.name
    ensures forall v :: v in j.volumes ==> VolumeFault(v) == None
  {
    NoFault(j.volumes, VolumeFault);
  }
}
