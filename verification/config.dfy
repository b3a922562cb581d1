/** Loading the service list and constructing the monitor's initial state. */
module Config {
  import opened Wrappers
  import opened Monitor
  import opened Cycle

  /** What reading and parsing the configuration file produced: a parsed
      service list, a missing file, malformed JSON, or some other read error
      (which the loader does not catch). */
  datatype ConfigRead =
    | Parsed(services: seq<ServiceSpec>)
    | FileNotFound
    | JsonDecodeError
    | OtherReadError(reason: string)

  /** The built-in service list used when the configuration cannot be read. */
  function DefaultServices(): seq<ServiceSpec> {
    [ ServiceSpec("Web Service", Some("python"), Some(5000), Some("http://localhost:5000/health"), Some(true)),
      ServiceSpec("Database", Some("postgres"), Some(5432), None, Some(true)),
      ServiceSpec("Cache", Some("redis-server"), Some(6379), None, Some(false)) ]
  }

  /** `load_config`: the parsed list as it stands; the built-in list when the
      file is missing or is not valid JSON; any other read error escapes. */
  function LoadConfig(read: ConfigRead): (r: Result<seq<ServiceSpec>, string>)
    ensures r.Failure? <==> read.OtherReadError?
    ensures read.Parsed? ==> r == Success(read.services)
    ensures read.FileNotFound? || read.JsonDecodeError? ==> r == Success(DefaultServices())
  {
    match read
    case Parsed(services) => Success(services)
    case FileNotFound => Success(DefaultServices())
    case JsonDecodeError => Success(DefaultServices())
    case OtherReadError(reason) => Failure(reason)
  }

  /** The monitor's state right after construction. */
  datatype MonitorState = MonitorState(services: seq<ServiceSpec>, history: Histories)

  /** The constructor: load the services, then give every name an empty ring. */
  function NewMonitor(read: ConfigRead): (r: Result<MonitorState, string>)
    ensures r.Success? <==> !read.OtherReadError?
    ensures r.Success? ==>
      && r.value.services == LoadConfig(read).value
      && Ready(r.value.history, r.value.services)
      && Bounded(r.value.history)
      && r.value.history.Keys == Names(r.value.services)
      && (forall n :: n in r.value.history ==> r.value.history[n] == [])
  {
    match LoadConfig(read)
    case Success(services) => Success(MonitorState(services, InitHistory(services)))
    case Failure(e) => Failure(e)
  }

  /** The built-in services have distinct names, so each has a ring of its own. */
  lemma DefaultNamesDistinct()
    ensures forall j, k :: 0 <= j < k < |DefaultServices()| ==> DefaultServices()[j].name != DefaultServices()[k].name
  {
  }

  /** Every built-in service configures a process and a port check, so its
      verdict is never `unknown`, whatever its probes answer. */
  lemma DefaultVerdictKnown(i: int, env: ProbeOutcomes)
    requires 0 <= i < |DefaultServices()|
    ensures MonitorService(DefaultServices()[i], env).overall != Aggregator.Unknown
  {
  }
}
