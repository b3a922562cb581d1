/** The per-service status record and the verdict aggregation over it. */
module Aggregator {
  import opened Wrappers
  import opened Probes

  /** The overall verdict of one service in one cycle. */
  datatype Verdict = Up | Warning | Down | Unknown

  /** The `process` entry of a status: whether the process runs, and its pid. */
  datatype ProcessCheck = ProcessCheck(running: bool, pid: Option<int>)

  /** The `port` entry of a status: whether the port answered, and its number. */
  datatype PortCheck = PortCheck(open: bool, number: int)

  /** The `endpoint` entry of a status: the endpoint probe's triple and the URL probed. */
  datatype EndpointCheck = EndpointCheck(healthy: bool, code: CodeOrError, latency: Option<real>, url: string)

  /** One service's status for one cycle. Each check is present only when the
      service configures it. */
  datatype ServiceStatus = ServiceStatus(
    name: string,
    required: bool,
    process: Option<ProcessCheck>,
    port: Option<PortCheck>,
    endpoint: Option<EndpointCheck>,
    overall: Verdict)

  /** At least one check is present. */
  predicate AnyCheck(s: ServiceStatus) {
    s.process.Some? || s.port.Some? || s.endpoint.Some?
  }

  /** Some present check passed. */
  predicate SomePassed(s: ServiceStatus) {
    || (s.process.Some? && s.process.value.running)
    || (s.port.Some? && s.port.value.open)
    || (s.endpoint.Some? && s.endpoint.value.healthy)
  }

  /** Some present check failed. */
  predicate SomeFailed(s: ServiceStatus) {
    || (s.process.Some? && !s.process.value.running)
    || (s.port.Some? && !s.port.value.open)
    || (s.endpoint.Some? && !s.endpoint.value.healthy)
  }

  /** Python's `all(checks)`: true of the empty list. */
  function AllTrue(checks: seq<bool>): (r: bool)
    ensures r <==> forall i :: 0 <= i < |checks| ==> checks[i]
  {
    if |checks| == 0 then true else checks[0] && AllTrue(checks[1..])
  }

  /** Python's `any(checks)`: false of the empty list. */
  function AnyTrue(checks: seq<bool>): (r: bool)
    ensures r <==> exists i :: 0 <= i < |checks| && checks[i]
  {
    if |checks| == 0 then false else checks[0] || AnyTrue(checks[1..])
  }

  /** The list of booleans the aggregation looks at: the process, port and
      endpoint results, in that order, for whichever of them are present. */
  function CheckResults(s: ServiceStatus): (checks: seq<bool>)
    ensures |checks| == (if s.process.Some? then 1 else 0) + (if s.port.Some? then 1 else 0)
                        + (if s.endpoint.Some? then 1 else 0)
    ensures |checks| > 0 <==> AnyCheck(s)
    ensures true in checks <==> SomePassed(s)
    ensures false in checks <==> SomeFailed(s)
  {
    (if s.process.Some? then [s.process.value.running] else [])
    + (if s.port.Some? then [s.port.value.open] else [])
    + (if s.endpoint.Some? then [s.endpoint.value.healthy] else [])
  }

  /** The verdict of a list of check results: `unknown` when empty, `up` when
      all hold, `warning` when some but not all hold, `down` when none holds. */
  function Aggregate(checks: seq<bool>): (v: Verdict)
    ensures v == Unknown <==> |checks| == 0
    ensures v == Up <==> |checks| > 0 && false !in checks
    ensures v == Warning <==> true in checks && false in checks
    ensures v == Down <==> |checks| > 0 && true !in checks
  {
    if |checks| == 0 then Unknown
    else if AllTrue(checks) then Up
    else if AnyTrue(checks) then Warning
    else Down
  }

  /** `determine_overall_status`. Absent checks count neither for nor against
      the verdict; the status's own `overall` field is not consulted. */
  function DetermineOverall(s: ServiceStatus): (v: Verdict)
    ensures v == Unknown <==> !AnyCheck(s)
    ensures v == Up <==> AnyCheck(s) && !SomeFailed(s)
    ensures v == Warning <==> SomePassed(s) && SomeFailed(s)
    ensures v == Down <==> AnyCheck(s) && !SomePassed(s)
  {
    Aggregate(CheckResults(s))
  }

  /** The verdict depends only on which results are present, not on the
      order in which they are listed. */
  lemma AggregateIgnoresOrder(a: seq<bool>, b: seq<bool>)
    requires multiset(a) == multiset(b)
    ensures Aggregate(a) == Aggregate(b)
  {
    assert true in a <==> true in multiset(a);
    assert false in a <==> false in multiset(a);
    assert true in b <==> true in multiset(b);
    assert false in b <==> false in multiset(b);
    assert |a| == |multiset(a)|;
    assert |b| == |multiset(b)|;
  }

  /** Two statuses whose present checks agree get the same verdict, whatever
      their names, pids, codes, URLs and recorded `overall` fields. */
  lemma OverallDependsOnlyOnResults(s: ServiceStatus, t: ServiceStatus)
    requires s.process.Some? <==> t.process.Some?
    requires s.port.Some? <==> t.port.Some?
    requires s.endpoint.Some? <==> t.endpoint.Some?
    requires s.process.Some? ==> s.process.value.running == t.process.value.running
    requires s.port.Some? ==> s.port.value.open == t.port.value.open
    requires s.endpoint.Some? ==> s.endpoint.value.healthy == t.endpoint.value.healthy
    ensures DetermineOverall(s) == DetermineOverall(t)
  {
  }
}
