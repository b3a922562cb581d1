/** One poll cycle of the monitor: every configured service is probed in
    configuration order and its status is appended to the history ring kept
    under its name. */
module Cycle {
  import opened Aggregator
  import opened Monitor
  import opened History

  /** The history: one ring per service name. Services that share a name
      share a ring. */
  type Histories = map<string, seq<ServiceStatus>>

  /** The names of the configured services. */
  function Names(services: seq<ServiceSpec>): set<string> {
    set i | 0 <= i < |services| :: services[i].name
  }

  /** Every configured name has a ring (the history is a dictionary indexed
      by name, so a missing name would be a lookup error). */
  ghost predicate Ready(h: Histories, services: seq<ServiceSpec>) {
    forall i :: 0 <= i < |services| ==> services[i].name in h
  }

  /** No ring exceeds the capacity. */
  ghost predicate Bounded(h: Histories) {
    forall n :: n in h ==> |h[n]| <= Capacity
  }

  /** The history the monitor starts with: an empty ring per configured name. */
  function InitHistory(services: seq<ServiceSpec>): (h: Histories)
    ensures h.Keys == Names(services)
    ensures forall n :: n in h ==> h[n] == []
    ensures Ready(h, services) && Bounded(h)
  {
    map n | n in Names(services) :: []
  }

  /** The statuses of the first `k` services, probed in configuration order. */
  function ProbeFirst(services: seq<ServiceSpec>, outcomes: seq<ProbeOutcomes>, k: nat): (r: seq<ServiceStatus>)
    requires |outcomes| == |services|
    requires k <= |services|
    ensures |r| == k
  {
    if k == 0 then [] else ProbeFirst(services, outcomes, k - 1) + [MonitorService(services[k - 1], outcomes[k - 1])]
  }

  /** Position `i` of the probe pass holds the status of service `i`. */
  lemma {:induction false} ProbeFirstElements(services: seq<ServiceSpec>, outcomes: seq<ProbeOutcomes>, k: nat)
    requires |outcomes| == |services|
    requires k <= |services|
    ensures forall i :: 0 <= i < k ==> ProbeFirst(services, outcomes, k)[i] == MonitorService(services[i], outcomes[i])
  {
    if k > 0 {
      var before := ProbeFirst(services, outcomes, k - 1);
      var last := MonitorService(services[k - 1], outcomes[k - 1]);
      assert ProbeFirst(services, outcomes, k) == before + [last];
      ProbeFirstElements(services, outcomes, k - 1);
      forall i | 0 <= i < k
        ensures ProbeFirst(services, outcomes, k)[i] == MonitorService(services[i], outcomes[i])
      {
        if i < k - 1 {
          assert (before + [last])[i] == before[i];
        }
      }
    }
  }

  /** The service list of `save_report`: a fresh probe pass over every
      configured service, in configuration order, leaving the history alone. */
  function ReportServices(services: seq<ServiceSpec>, outcomes: seq<ProbeOutcomes>): (r: seq<ServiceStatus>)
    requires |outcomes| == |services|
    ensures |r| == |services|
    ensures forall i :: 0 <= i < |r| ==> r[i] == MonitorService(services[i], outcomes[i])
  {
    ProbeFirstElements(services, outcomes, |services|);
    ProbeFirst(services, outcomes, |services|)
  }

  /** The history after the statuses of the first `|statuses|` services were
      appended, one after the other, each to the ring of its service's name. */
  function RecordAll(history: Histories, services: seq<ServiceSpec>, statuses: seq<ServiceStatus>): (r: Histories)
    requires |statuses| <= |services|
    requires Ready(history, services)
    ensures r.Keys == history.Keys
  {
    if |statuses| == 0 then history
    else
      var last := |statuses| - 1;
      var before := RecordAll(history, services, statuses[..last]);
      var n := services[last].name;
      before[n := Push(before[n], statuses[last])]
  }

  /** The statuses in `statuses` that belong to services named `n`, in
      configuration order; `statuses[j]` is the status of `services[j]`. */
  function StatusesFor(services: seq<ServiceSpec>, statuses: seq<ServiceStatus>, n: string): seq<ServiceStatus>
    requires |statuses| <= |services|
  {
    if |statuses| == 0 then []
    else
      var last := |statuses| - 1;
      StatusesFor(services, statuses[..last], n)
      + (if services[last].name == n then [statuses[last]] else [])
  }

  /** Each ring of the recorded history holds the newest statuses of its
      name, pushed in configuration order onto what it held before. */
  lemma {:induction false} RecordAllRings(history: Histories, services: seq<ServiceSpec>, statuses: seq<ServiceStatus>, m: string)
    requires |statuses| <= |services|
    requires Ready(history, services)
    requires m in history
    ensures RecordAll(history, services, statuses)[m] == PushAll(history[m], StatusesFor(services, statuses, m))
  {
    if |statuses| > 0 {
      var last := |statuses| - 1;
      var prefix := statuses[..last];
      RecordAllRings(history, services, prefix, m);
      if services[last].name == m {
        RingStepSame(history, services, statuses, m);
      } else {
        RingStepOther(history, services, statuses, m);
      }
    }
  }

  /** The inductive step of `RecordAllRings` when the last status belongs to
      `m`: it is pushed onto `m`'s ring. */
  lemma RingStepSame(history: Histories, services: seq<ServiceSpec>, statuses: seq<ServiceStatus>, m: string)
    requires 0 < |statuses| <= |services|
    requires Ready(history, services)
    requires m in history
    requires services[|statuses| - 1].name == m
    requires RecordAll(history, services, statuses[..|statuses| - 1])[m]
             == PushAll(history[m], StatusesFor(services, statuses[..|statuses| - 1], m))
    ensures RecordAll(history, services, statuses)[m] == PushAll(history[m], StatusesFor(services, statuses, m))
  {
    var last := |statuses| - 1;
    var before := RecordAll(history, services, statuses[..last]);
    var mine := StatusesFor(services, statuses[..last], m);
    assert RecordAll(history, services, statuses)[m] == Push(before[m], statuses[last]);
    assert StatusesFor(services, statuses, m) == mine + [statuses[last]];
    PushAllThenPush(history[m], mine, statuses[last]);
  }

  /** The inductive step of `RecordAllRings` when the last status belongs to
      another name: `m`'s ring is left alone. */
  lemma RingStepOther(history: Histories, services: seq<ServiceSpec>, statuses: seq<ServiceStatus>, m: string)
    requires 0 < |statuses| <= |services|
    requires Ready(history, services)
    requires m in history
    requires services[|statuses| - 1].name != m
    requires RecordAll(history, services, statuses[..|statuses| - 1])[m]
             == PushAll(history[m], StatusesFor(services, statuses[..|statuses| - 1], m))
    ensures RecordAll(history, services, statuses)[m] == PushAll(history[m], StatusesFor(services, statuses, m))
  {
    var last := |statuses| - 1;
    var before := RecordAll(history, services, statuses[..last]);
    var mine := StatusesFor(services, statuses[..last], m);
    assert RecordAll(history, services, statuses)[m] == before[m];
    assert StatusesFor(services, statuses, m) == mine + [];
    assert mine + [] == mine;
  }

  /** A name that none of the services with a status carries gets no statuses. */
  lemma {:induction false} StatusesForAbsentName(services: seq<ServiceSpec>, statuses: seq<ServiceStatus>, n: string)
    requires |statuses| <= |services|
    requires forall j :: 0 <= j < |statuses| ==> services[j].name != n
    ensures StatusesFor(services, statuses, n) == []
  {
    if |statuses| > 0 {
      StatusesForAbsentName(services, statuses[..|statuses| - 1], n);
    }
  }

  /** When names are unique, the statuses of the service at position `i` are
      exactly its own status. */
  lemma {:induction false} StatusesForUniqueName(services: seq<ServiceSpec>, statuses: seq<ServiceStatus>, i: int)
    requires |statuses| <= |services|
    requires 0 <= i < |statuses|
    requires forall j, k :: 0 <= j < k < |services| ==> services[j].name != services[k].name
    ensures StatusesFor(services, statuses, services[i].name) == [statuses[i]]
  {
    var last := |statuses| - 1;
    var n := services[i].name;
    if i == last {
      StatusesForAbsentName(services, statuses[..last], n);
    } else {
      assert services[last].name != n;
      StatusesForUniqueName(services, statuses[..last], i);
    }
  }

  /** One step of the cycle: probing service `i` extends the probe pass by
      its status, and recording that status pushes it onto its name's ring. */
  lemma CycleStep(services: seq<ServiceSpec>, outcomes: seq<ProbeOutcomes>, history: Histories,
                  statuses: seq<ServiceStatus>, i: nat)
    requires |outcomes| == |services|
    requires Ready(history, services)
    requires i < |services|
    requires statuses == ProbeFirst(services, outcomes, i)
    ensures var status := MonitorService(services[i], outcomes[i]);
      var before := RecordAll(history, services, statuses);
      && ProbeFirst(services, outcomes, i + 1) == statuses + [status]
      && RecordAll(history, services, statuses + [status])
         == before[services[i].name := Push(before[services[i].name], status)]
  {
    var status := MonitorService(services[i], outcomes[i]);
    var extended := statuses + [status];
    assert |extended| == i + 1 && extended[i] == status;
    assert extended[..i] == statuses;
    var before := RecordAll(history, services, statuses);
    assert RecordAll(history, services, extended)
           == before[services[i].name := Push(before[services[i].name], extended[i])];
  }

  /** The loop body of `run`: probe each service in configuration order,
      collect its status, and append the status to the ring of its name. */
  method RunCycle(services: seq<ServiceSpec>, outcomes: seq<ProbeOutcomes>, history: Histories)
    returns (statuses: seq<ServiceStatus>, history': Histories)
    requires |outcomes| == |services|
    requires Ready(history, services)
    ensures statuses == ReportServices(services, outcomes)
    ensures history' == RecordAll(history, services, statuses)
  {
    statuses := [];
    history' := history;
    var i := 0;
    while i < |services|
      invariant 0 <= i <= |services|
      invariant statuses == ProbeFirst(services, outcomes, i)
      invariant history' == RecordAll(history, services, statuses)
    {
      var status := MonitorService(services[i], outcomes[i]);
      var n := services[i].name;
      CycleStep(services, outcomes, history, statuses, i);
      history' := history'[n := Push(history'[n], status)];
      statuses := statuses + [status];
      i := i + 1;
    }
  }

  /** What recording a cycle's statuses does to the history: every ring
      receives, in configuration order, the statuses of the services carrying
      its name; rings of names no service carries are unchanged; no ring
      exceeds the capacity. */
  lemma CycleHistory(services: seq<ServiceSpec>, statuses: seq<ServiceStatus>, history: Histories, n: string)
    requires |statuses| == |services|
    requires Ready(history, services)
    requires Bounded(history)
    requires n in history
    ensures var after := RecordAll(history, services, statuses);
      && after.Keys == history.Keys
      && |after[n]| <= Capacity
      && after[n] == PushAll(history[n], StatusesFor(services, statuses, n))
      && (n !in Names(services) ==> after[n] == history[n])
  {
    RecordAllRings(history, services, statuses, n);
    if n !in Names(services) {
      forall j | 0 <= j < |statuses|
        ensures services[j].name != n
      {
        assert services[j].name in Names(services);
      }
      StatusesForAbsentName(services, statuses, n);
      assert PushAll(history[n], []) == history[n];
    }
  }

  /** With unique service names, recording a cycle appends each service's
      status to its own ring: the status becomes the ring's newest entry, and
      the oldest entry is dropped only when the ring was full. */
  lemma CycleWithUniqueNames(services: seq<ServiceSpec>, statuses: seq<ServiceStatus>, history: Histories, i: int)
    requires |statuses| == |services|
    requires Ready(history, services)
    requires forall j, k :: 0 <= j < k < |services| ==> services[j].name != services[k].name
    requires 0 <= i < |services|
    ensures var n := services[i].name;
      RecordAll(history, services, statuses)[n] == Push(history[n], statuses[i])
  {
    var n := services[i].name;
    RecordAllRings(history, services, statuses, n);
    StatusesForUniqueName(services, statuses, i);
    var h := history[n];
    assert PushAll(h, [statuses[i]]) == PushAll(Push(h, statuses[i]), []);
  }
}
