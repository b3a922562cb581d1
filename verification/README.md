# Service monitor: the per-service health pipeline

This project models the core of a small service monitor (`ServiceMonitor` in
`service_monitor.py`). For each configured service, the monitor checks up to
three things: whether a process with a matching name runs, whether a local TCP
port accepts a connection, and whether an HTTP health endpoint answers 200. It
combines the results into one verdict (`up`, `warning`, `down` or `unknown`).
On every poll cycle it appends each service's status to a bounded history ring
kept under the service's name.

The operating system and the network are replaced by the data they would
return. These are inputs to the model:

- the process table as the iterator lists it, as a sequence of `(name, pid)` rows;
- whether the matched process had exited by the time its metrics were read;
- the return code of the TCP connect;
- the outcome of the HTTP GET: a status code and elapsed time, or a transport
  failure with its description.

Everything else is pure functions over immutable datatypes. The one exception
is the cycle, a method whose loop follows the monitor's own loop.

Modules:

- `Wrappers`: `Option` and `Result`.
- `Text`: ASCII lower-casing and the substring test.
- `Probes`: the process, port and endpoint probes.
- `Aggregator`: the status record and the verdict.
- `Monitor`: assembly of one service's status.
- `History`: the bounded ring.
- `Cycle`: the initial history, one poll cycle, and the report's fresh probe pass.
- `Config`: the configuration fallback and construction.

Two behaviours of the code deserve a note:

- The pid found by the scan survives the `NoSuchProcess` race
  (service_monitor.py:103-104). When the matched process exits before its
  metrics are read, `running` becomes false but the record keeps the pid.
  `Monitor.MonitorService` clears the pid only when no process matched, and
  `Monitor.VanishedProcessKeepsPid` states the vanished case.
- Service names are not required to be unique. The history is a dictionary
  keyed by name, so services sharing a name share one ring
  (`Cycle.RecordAll`, `Cycle.StatusesFor`). `Cycle.CycleWithUniqueNames`
  gives the simpler statement that holds when the names are unique.

## Model

| member | source | states |
|---|---|---|
| `Text.LowerChar` | service_monitor.py:57 | the result is never an upper-case ASCII letter; an upper-case ASCII letter maps to its lower-case letter, and every other character is left unchanged |
| `Text.Lower` | service_monitor.py:57 | lower-casing keeps the length, maps each character on its own, and leaves no upper-case ASCII letter |
| `Text.ContainsIffOccurs` | service_monitor.py:57 | the left-to-right scan behind `needle in name` succeeds exactly when the needle occurs at some position of the name; the empty needle occurs everywhere |
| `Probes.ScanFrom` | service_monitor.py:56-59 | scanning from a position finds a process exactly when some row from there on matches; when it finds one, the pid is that of the first matching row; when it finds none, there is no pid |
| `Probes.CheckProcess` | service_monitor.py:54-59 | `(true, pid)` of the first row in scan order whose lower-cased name contains the lower-cased needle; `(false, None)` exactly when no row matches |
| `Probes.CheckEndpoint` | service_monitor.py:67-73 | on a response, healthy holds exactly when the status is 200, and the code and elapsed time are passed through; on a transport failure, the result is unhealthy, carries the error text and has no latency; every result is well-shaped (a latency exactly when there is a code, healthy exactly when the code is 200) |
| `Probes.EndpointProbeRoundTrip` | service_monitor.py:67-73 | the endpoint mapping loses nothing: the HTTP outcome can be read back from the probe triple, and every well-shaped triple is the image of exactly that outcome |
| `Aggregator.AllTrue` | service_monitor.py:144 | Python's `all`: true exactly when every element holds (so true of the empty list) |
| `Aggregator.AnyTrue` | service_monitor.py:146 | Python's `any`: true exactly when some element holds (so false of the empty list) |
| `Aggregator.CheckResults` | service_monitor.py:130-139 | the list has one entry per present check and is empty exactly when no check is present; it contains `true` exactly when some present check passed, and `false` exactly when some present check failed |
| `Aggregator.Aggregate` | service_monitor.py:141-149 | `unknown` exactly for the empty list; `up` exactly when it is non-empty and has no `false`; `warning` exactly when it has both `true` and `false`; `down` exactly when it is non-empty and has no `true` |
| `Aggregator.DetermineOverall` | service_monitor.py:128-149 | the four-way split over the present checks only: `unknown` when none is present; `up` when some are present and none failed; `warning` when one passed and one failed; `down` when some are present and none passed |
| `Aggregator.AggregateIgnoresOrder` | service_monitor.py:130-149 | two result lists with the same elements, in any order, get the same verdict |
| `Aggregator.OverallDependsOnlyOnResults` | service_monitor.py:128-149 | statuses with the same checks present and the same pass/fail results get the same verdict, whatever their names, pids, codes, URLs or stored verdicts |
| `Monitor.MonitorService` | service_monitor.py:85-126 | name copied; `required` defaults to false; the process, port and endpoint entries are each present exactly when the spec has that key; `running` holds exactly when a row matched and the process did not vanish; no pid when nothing matched, and otherwise the pid of the first match; port number and URL copied from the spec; port open exactly when the connect returned 0; endpoint healthy exactly on a 200 response; on a response the endpoint carries the status code and the elapsed time, and on a transport failure the error text and no latency; `overall` is the verdict of the assembled record |
| `Monitor.VanishedProcessKeepsPid` | service_monitor.py:92-104 | when the matched process vanishes before its metrics are read, the status says not running but still carries a pid |
| `Monitor.RequiredDoesNotAffectVerdict` | service_monitor.py:87-125 | the `required` flag plays no part in the verdict |
| `Monitor.ThreeServiceScenario` | service_monitor.py:85-149 | a process-only service with no matching process is `down`; a port-only service whose port answers is `up`; a service whose process runs and whose port answers is `up` |
| `History.Newest` | service_monitor.py:15 | the newest `n` elements are a suffix of the input, of length `n` or the whole input when it is shorter |
| `History.Push` | service_monitor.py:196 | the ring never exceeds 100 entries; the new status is the last entry; below capacity it is a plain append; at capacity exactly the oldest entry is dropped; in both cases the result is the newest 100 of the old ring plus the new status |
| `History.PushAll` | service_monitor.py:196 | a ring that starts within capacity stays within capacity through any number of pushes |
| `History.PushAllKeepsNewest` | service_monitor.py:15 | after any sequence of pushes onto a ring within capacity, the ring holds the newest 100 of everything it has seen, oldest first |
| `History.OverflowDropsOldest` | service_monitor.py:15 | after more than 100 pushes onto an empty ring, the ring holds exactly the last 100 pushed, in push order, and the oldest is gone |
| `Cycle.InitHistory` | service_monitor.py:15 | the initial history has exactly one empty ring per configured name |
| `Cycle.ProbeFirst` | service_monitor.py:193-195 | probing the first `k` services yields exactly `k` statuses |
| `Cycle.ProbeFirstElements` | service_monitor.py:193-195 | position `i` of the probe pass holds the assembled status of service `i` |
| `Cycle.ReportServices` | service_monitor.py:209 | the report lists one status per configured service, in configuration order, each assembled from that service's own probe outcomes |
| `Cycle.RecordAll` | service_monitor.py:196 | recording statuses adds no ring and removes none |
| `Cycle.RecordAllRings` | service_monitor.py:193-196 | after recording, each name's ring is its old ring with that name's statuses pushed in configuration order |
| `Cycle.RunCycle` | service_monitor.py:189-196 | one cycle yields one status per configured service, in configuration order, and the history it leaves is exactly the old history with those statuses recorded |
| `Cycle.CycleHistory` | service_monitor.py:193-196 | after a cycle, no ring is added or lost; each ring stays within 100 entries; each ring receives that name's statuses in order; rings of names no service carries are unchanged |
| `Cycle.CycleWithUniqueNames` | service_monitor.py:193-196 | when the names are unique, a cycle pushes each service's status onto its own ring exactly once |
| `Config.LoadConfig` | service_monitor.py:23-52 | a parsed list is used as it stands; a missing file or invalid JSON falls back to the built-in list; any other read error escapes, and only then does loading fail |
| `Config.NewMonitor` | service_monitor.py:13-15 | for a decoded list of service entries, construction fails exactly when loading does; otherwise the monitor holds the loaded services and one empty ring per configured name |
| `Config.DefaultNamesDistinct` | service_monitor.py:25-45 | the three built-in services have distinct names |
| `Config.DefaultVerdictKnown` | service_monitor.py:25-45 | every built-in service configures a process and a port, so its verdict is never `unknown`, whatever its probes answer |

## Left out

- Process metrics (CPU percentage, resident memory in MB, thread count; service_monitor.py:97-102) are numeric values read from the operating system. The model keeps only their effect on `running`: whether the process vanished before the read.
- `get_system_stats` (service_monitor.py:75-83) reads wall-clock time and operating-system load figures. Nothing in the core depends on them.
- `display_status` (service_monitor.py:151-184) clears the console and prints. The status symbols only matter to that printing.
- `save_report` (service_monitor.py:204-215): the timestamp and the file writing are I/O. Only its fresh probe pass over the services is modelled (`Cycle.ReportServices`).
- The thread, the `running` flag, the five-second sleep and the `KeyboardInterrupt` handling (service_monitor.py:186-202, 217-230) are timing and concurrency. One cycle is modelled.
- The one-second connect timeout and the three-second HTTP timeout (service_monitor.py:64, 70) bound wall time. Their outcomes are inputs to the model.
- File reading and JSON decoding in `load_config` are I/O. The model starts from what they produced, as far as it is a list of well-formed service entries (see the next two lines).
- Configuration entries of the wrong shape are not modelled: a missing `name`, a `process_name`, `port` or `endpoint` of the wrong type (a non-string `process_name` raises `AttributeError` at service_monitor.py:57), or a non-boolean `required`. In the source these raise errors or are passed on unchecked.
- `Text.Lower` lower-cases ASCII letters only. Python's `str.lower` also maps non-ASCII letters.
- A process whose name the process iterator cannot read (reported as `None`) is not modelled. Every row carries a string name.
- `Probes.CheckProcess` takes the process table in the order given. psutil lists processes in ascending pid order. The model accepts a table in any order, so its statements hold for that order too.
- Monitor.MonitorService: a `psutil.AccessDenied` raised while the metrics of the matched process are read (service_monitor.py:97-102) is not modelled. Only `NoSuchProcess` is caught there, so in the source this exception escapes `monitor_service` and then `run`, which ends the loop part-way through a cycle. The model's probe outcome only says whether the process vanished, so every modelled cycle runs to completion.
- Monitor.MonitorService: a configured port outside 0-65535 is not modelled. In the source `connect_ex` (service_monitor.py:65) raises `OverflowError` for such a port, and the exception escapes `monitor_service`. The model treats the port number as data and reads the connect outcome from its input, so it returns a status for any port.
- Config.LoadConfig: the message printed when the built-in list is used (service_monitor.py:51) is output only and is not modelled.
- Config.NewMonitor: a decoded document that is not a list of service objects (for example a JSON object such as `{"services": [...]}`) is not modelled. `json.load` accepts it at service_monitor.py:49, so loading succeeds, but the dictionary comprehension at service_monitor.py:15 then raises while indexing `['name']`. The model's parsed configuration is always a list of service entries, so its construction fails only when loading fails.
