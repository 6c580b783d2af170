/** The declared workloads and triggers. */
module Models {
  import opened Wrappers
  import opened Cron

  datatype VolumeMount = VolumeMount(hostPath: string, containerPath: string, readOnly: bool)

  datatype PortMapping = PortMapping(hostIP: string, hostPort: int, containerPort: int, protocol: string)

  datatype HealthCheck = HealthCheck(
    kind: string, path: string, port: int, command: string,
    intervalSeconds: int, timeoutSeconds: int, retries: int, startPeriodSeconds: int)

  datatype Service = Service(
    name: string, image: string, command: seq<string>, workingDir: string, env: map<string, string>,
    ports: seq<PortMapping>, volumes: seq<VolumeMount>, labels: map<string, string>,
    dependsOn: seq<string>, restart: string, healthCheck: Option<HealthCheck>)

  datatype Job = Job(
    name: string, image: string, schedule: Option<ScheduleSpec>, command: seq<string>,
    workingDir: string, env: map<string, string>, volumes: seq<VolumeMount>,
    labels: map<string, string>, timeout: string, retryCount: int)

  datatype HttpMatch = HttpMatch(path: string, verb: string, headers: map<string, string>)

  datatype MqttMatch = MqttMatch(topic: string, payload: string)

  datatype FileMatch = FileMatch(path: string, eventType: string)

  datatype Trigger = Trigger(
    name: string, kind: string, http: Option<HttpMatch>, mqtt: Option<MqttMatch>, file: Option<FileMatch>,
    targetKind: string, targetName: string)
}
