/** The three probe primitives of the service monitor, with the operating
    system and the network replaced by the data they would have returned:
    a snapshot of the process table, the return code of a TCP connect, and
    the outcome of one HTTP GET. */
module Probes {
  import opened Wrappers
  import opened Text

  /** One row of the process table as the process iterator reports it. */
  datatype ProcEntry = ProcEntry(name: string, pid: int)

  /** The result of the process probe: whether a process matched, and its pid. */
  datatype ProcessHit = ProcessHit(running: bool, pid: Option<int>)

  /** The process-name test: case-insensitive substring match. */
  predicate NameMatches(procName: string, needle: string) {
    Contains(Lower(procName), Lower(needle))
  }

  /** Entry `k` is the first entry of `table` (scanning from `from`) whose
      name matches `needle`. */
  ghost predicate FirstMatchFrom(table: seq<ProcEntry>, needle: string, from: int, k: int) {
    && 0 <= from <= k < |table|
    && NameMatches(table[k].name, needle)
    && forall j :: from <= j < k ==> !NameMatches(table[j].name, needle)
  }

  /** The scan of `table` starting at index `from`, one entry at a time. */
  function ScanFrom(table: seq<ProcEntry>, needle: string, from: nat): (r: ProcessHit)
    requires from <= |table|
    ensures r.running <==> exists j :: from <= j < |table| && NameMatches(table[j].name, needle)
    ensures !r.running ==> r.pid == None
    ensures r.running ==> exists k :: FirstMatchFrom(table, needle, from, k) && r.pid == Some(table[k].pid)
    decreases |table| - from
  {
    if from == |table| then ProcessHit(false, None)
    else if NameMatches(table[from].name, needle) then ProcessHit(true, Some(table[from].pid))
    else
      var rest := ScanFrom(table, needle, from + 1);
      assert rest.running ==> exists k :: FirstMatchFrom(table, needle, from, k) && rest.pid == Some(table[k].pid) by {
        if rest.running {
          var k :| FirstMatchFrom(table, needle, from + 1, k) && rest.pid == Some(table[k].pid);
          assert FirstMatchFrom(table, needle, from, k);
        }
      }
      rest
  }

  /** `check_process`: the first entry in scan order whose lower-cased name
      contains the lower-cased needle wins. */
  function CheckProcess(table: seq<ProcEntry>, needle: string): (r: ProcessHit)
    ensures r.running <==> exists j :: 0 <= j < |table| && NameMatches(table[j].name, needle)
    ensures !r.running ==> r.pid == None
    ensures r.running ==> exists k :: FirstMatchFrom(table, needle, 0, k) && r.pid == Some(table[k].pid)
  {
    ScanFrom(table, needle, 0)
  }

  /** `check_port`: the port counts as open only when the connect attempt
      returns code 0; a refusal, a timeout or any other error code reads as
      closed. */
  function CheckPort(connectResult: int): (open: bool)
    ensures open <==> connectResult == 0
  {
    connectResult == 0
  }

  /** What one HTTP GET did: answered with a status code after some elapsed
      time, or failed in transport (timeout, name resolution, refusal)
      with an error description. */
  datatype HttpOutcome = Response(statusCode: int, elapsed: real) | TransportFailure(description: string)

  /** The second field of the endpoint probe: a status code, or the error text. */
  datatype CodeOrError = Code(code: int) | ErrorText(text: string)

  /** The endpoint probe's `(healthy, code, latency)` triple. */
  datatype EndpointProbe = EndpointProbe(healthy: bool, code: CodeOrError, latency: Option<real>)

  /** The shape every endpoint probe result has: a latency exactly when a code
      was received, and healthy exactly when that code is 200. */
  predicate WellShaped(p: EndpointProbe) {
    && (p.code.Code? <==> p.latency.Some?)
    && (p.healthy <==> p.code == Code(200))
  }

  /** `check_endpoint`: a response is healthy only with status 200 and passes
      its code and elapsed time through; a transport failure is unhealthy,
      carries its error text and has no latency. */
  function CheckEndpoint(outcome: HttpOutcome): (r: EndpointProbe)
    ensures WellShaped(r)
    ensures r.healthy <==> outcome.Response? && outcome.statusCode == 200
    ensures outcome.Response? ==> r.code == Code(outcome.statusCode) && r.latency == Some(outcome.elapsed)
    ensures outcome.TransportFailure? ==> r.code == ErrorText(outcome.description) && r.latency == None
  {
    match outcome
    case Response(status, elapsed) => EndpointProbe(status == 200, Code(status), Some(elapsed))
    case TransportFailure(description) => EndpointProbe(false, ErrorText(description), None)
  }

  /** Reads the HTTP outcome back from a probe result, if it has the shape of one. */
  function RecoverOutcome(p: EndpointProbe): Option<HttpOutcome> {
    match (p.code, p.latency)
    case (Code(c), Some(t)) => Some(Response(c, t))
    case (ErrorText(e), None) => Some(TransportFailure(e))
    case _ => None
  }

  /** The endpoint mapping loses nothing: the outcome can be read back from
      the probe result, and every well-shaped result is the image of the
      outcome read back from it. */
  lemma EndpointProbeRoundTrip(outcome: HttpOutcome, p: EndpointProbe)
    ensures RecoverOutcome(CheckEndpoint(outcome)) == Some(outcome)
    ensures WellShaped(p) ==> RecoverOutcome(p).Some? && CheckEndpoint(RecoverOutcome(p).value) == p
  {
  }
}
