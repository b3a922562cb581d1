/** `monitor_service`: assembling one service's status record from its
    configuration and the outcomes of its probes. */
module Monitor {
  import opened Wrappers
  import opened Probes
  import opened Aggregator
  import opened Text

  /** One configured service. Every key but `name` may be missing from the
      configuration entry. */
  datatype ServiceSpec = ServiceSpec(
    name: string,
    processName: Option<string>,
    port: Option<int>,
    endpoint: Option<string>,
    required: Option<bool>)

  /** What the outside world answers when one service is probed: the process
      table as iterated, whether the matched process had already exited when
      its metrics were read, the TCP connect return code, and the HTTP
      outcome. Each is consulted only when the matching check is configured. */
  datatype ProbeOutcomes = ProbeOutcomes(
    processTable: seq<ProcEntry>,
    vanished: bool,
    connectResult: int,
    http: HttpOutcome)

  /** The `process` entry: the probe's answer, with the pid cleared when no
      process matched and `running` forced off when the matched process
      vanished before its metrics could be read. */
  function ProcessEntry(table: seq<ProcEntry>, needle: string, vanished: bool): ProcessCheck {
    var hit := CheckProcess(table, needle);
    var pid := if hit.running then hit.pid else None;
    if hit.running && vanished then ProcessCheck(false, pid)
    else ProcessCheck(hit.running, pid)
  }

  /** A process whose name matches `needle` appears in `table`. */
  ghost predicate Found(table: seq<ProcEntry>, needle: string) {
    exists j :: 0 <= j < |table| && NameMatches(table[j].name, needle)
  }

  /** `monitor_service`. */
  function MonitorService(spec: ServiceSpec, env: ProbeOutcomes): (s: ServiceStatus)
    ensures s.name == spec.name
    ensures s.required == spec.required.ValueOr(false)
    ensures s.process.Some? <==> spec.processName.Some?
    ensures s.port.Some? <==> spec.port.Some?
    ensures s.endpoint.Some? <==> spec.endpoint.Some?
    ensures s.process.Some? ==>
      (s.process.value.running <==> Found(env.processTable, spec.processName.value) && !env.vanished)
    ensures s.process.Some? && !Found(env.processTable, spec.processName.value) ==> s.process.value.pid == None
    ensures s.process.Some? && Found(env.processTable, spec.processName.value) ==>
      exists k :: FirstMatchFrom(env.processTable, spec.processName.value, 0, k)
                  && s.process.value.pid == Some(env.processTable[k].pid)
    ensures s.port.Some? ==>
      s.port.value.number == spec.port.value && (s.port.value.open <==> env.connectResult == 0)
    ensures s.endpoint.Some? ==>
      && s.endpoint.value.url == spec.endpoint.value
      && (s.endpoint.value.healthy <==> env.http.Response? && env.http.statusCode == 200)
      && (env.http.Response? ==>
            s.endpoint.value.code == Code(env.http.statusCode) && s.endpoint.value.latency == Some(env.http.elapsed))
      && (env.http.TransportFailure? ==>
            s.endpoint.value.code == ErrorText(env.http.description) && s.endpoint.value.latency == None)
    ensures s.overall == DetermineOverall(s)
  {
    var process :=
      if spec.processName.Some? then Some(ProcessEntry(env.processTable, spec.processName.value, env.vanished))
      else None;
    var port :=
      if spec.port.Some? then Some(PortCheck(CheckPort(env.connectResult), spec.port.value))
      else None;
    var endpoint :=
      if spec.endpoint.Some? then
        var probe := CheckEndpoint(env.http);
        Some(EndpointCheck(probe.healthy, probe.code, probe.latency, spec.endpoint.value))
      else None;
    var status := ServiceStatus(spec.name, spec.required.ValueOr(false), process, port, endpoint, Unknown);
    status.(overall := DetermineOverall(status))
  }

  /** The process-vanished race: the status reads "not running" although the
      pid found by the scan is kept in the record. */
  lemma VanishedProcessKeepsPid(spec: ServiceSpec, env: ProbeOutcomes)
    requires spec.processName.Some?
    requires env.vanished
    requires Found(env.processTable, spec.processName.value)
    ensures var s := MonitorService(spec, env);
      && s.process.Some?
      && !s.process.value.running
      && s.process.value.pid.Some?
  {
  }

  /** Two services with the same checks configured and the same probe
      outcomes get the same verdict, whether or not they are required. */
  lemma RequiredDoesNotAffectVerdict(spec: ServiceSpec, env: ProbeOutcomes, b: bool)
    ensures MonitorService(spec.(required := Some(b)), env).overall == MonitorService(spec, env).overall
  {
  }

  /** The three-service scenario: a process-only service whose process is
      absent is down; a port-only service whose port answers is up; a
      service whose process runs and whose port answers is up. */
  lemma ThreeServiceScenario()
    ensures MonitorService(ServiceSpec("A", Some("nginx"), None, None, None),
                           ProbeOutcomes([ProcEntry("sshd", 7)], false, 111, TransportFailure("unused"))).overall == Down
    ensures MonitorService(ServiceSpec("B", None, Some(8080), None, None),
                           ProbeOutcomes([], false, 0, TransportFailure("unused"))).overall == Up
    ensures MonitorService(ServiceSpec("C", Some("redis"), Some(6379), None, Some(true)),
                           ProbeOutcomes([ProcEntry("Redis-Server", 42)], false, 0, TransportFailure("unused"))).overall == Up
  {
    var a := ServiceSpec("A", Some("nginx"), None, None, None);
    var ea := ProbeOutcomes([ProcEntry("sshd", 7)], false, 111, TransportFailure("unused"));
    assert !NameMatches("sshd", "nginx") by {
      ContainsIffOccurs(Lower("sshd"), Lower("nginx"));
    }
    assert !Found(ea.processTable, "nginx");
    var c := ServiceSpec("C", Some("redis"), Some(6379), None, Some(true));
    var ec := ProbeOutcomes([ProcEntry("Redis-Server", 42)], false, 0, TransportFailure("unused"));
    assert NameMatches("Redis-Server", "redis") by {
      assert Lower("redis") <= Lower("Redis-Server");
    }
    assert ec.processTable[0].name == "Redis-Server";
    assert Found(ec.processTable, "redis");
  }
}
