// The agent's workload manager over its state store (agent/app/core/state.py,
// agent/app/services/workload_manager.py), proved against the table functions of module Workloads.

module WorkloadManagement {
  import opened Models
  import opened NodeTable
  import opened Ordering
  import opened Ports
  import opened Workloads
  import opened HealthEvidence

  datatype ExecuteStatus = IsRunning | IsStopped | IsAlreadyRunning

  datatype ExecuteResponse = ExecuteResponse(serviceId: ServiceId, containerId: string, status: ExecuteStatus)

  datatype AgentHealthReport = AgentHealthReport(serviceId: ServiceId, healthy: bool, consecutiveFailures: nat)

  class AgentStateStore {
    var workloads: Table

    /** Every workload is stored under its own service id. */
    ghost predicate Valid()
      reads this
    {
      forall s :: s in workloads ==> workloads[s].service.serviceId == s
    }

    constructor ()
      ensures Valid() && workloads == map[]
    {
      workloads := map[];
    }

    method UpsertWorkload(w: Workload)
      requires Valid()
      modifies this
      ensures Valid() && workloads == old(workloads)[w.service.serviceId := w]
    {
      workloads := workloads[w.service.serviceId := w];
    }

    method GetWorkload(s: ServiceId) returns (r: Option<Workload>)
      ensures r == Lookup(workloads, s)
    {
      r := Lookup(workloads, s);
    }

    method ListWorkloads() returns (r: seq<Workload>)
      ensures r == Listed(workloads)
    {
      r := ListTable(workloads);
    }
  }

  /** The checks of one pass, in the order of the service ids. */
  ghost function Pass(ids: seq<ServiceId>, inspect: ServiceId -> Option<Container>,
                      answers: ServiceId -> Responses): (r: seq<TableEvent>)
    ensures |r| == |ids|
  {
    seq(|ids|, i requires 0 <= i < |ids| => HealthChecked(ids[i], inspect(ids[i]), answers(ids[i])))
  }

  /** The reports of one pass over the table as it was when the pass began. */
  ghost function PassReports(cfg: AgentSettings, table: Table, events: seq<TableEvent>): seq<AgentHealthReport>
  {
    if events == [] then []
    else
      var e := events[|events| - 1];
      var earlier := PassReports(cfg, table, events[..|events| - 1]);
      if !e.HealthChecked? || e.serviceId !in table then earlier
      else
        match ReportFor(cfg, table[e.serviceId], e.inspected, e.responses)
        case None => earlier
        case Some(report) => earlier + [AgentHealthReport(e.serviceId, report.0, report.1)]
  }

  /** The report is the one that the check of the workload recorded under the id sends. */
  ghost predicate Reported(cfg: AgentSettings, table: Table, s: ServiceId, inspect: ServiceId -> Option<Container>,
                           answers: ServiceId -> Responses, report: AgentHealthReport)
  {
    && s in table && report.serviceId == s
    && ReportFor(cfg, table[s], inspect(s), answers(s)) == Some((report.healthy, report.consecutiveFailures))
  }

  /** The container recorded as running is the one the runtime knows. */
  predicate RunsAs(table: Table, s: ServiceId, existing: Option<Container>)
  {
    && s in table && table[s].status == WorkloadRunning
    && existing.Some? && table[s].containerId == Some(existing.value.containerId)
  }

  class AgentWorkloadManager {
    const cfg: AgentSettings
    const hash: Hash
    const store: AgentStateStore

    constructor (cfg: AgentSettings, hash: Hash, store: AgentStateStore)
      ensures this.cfg == cfg && this.hash == hash && this.store == store
    {
      this.cfg, this.hash, this.store := cfg, hash, store;
    }

    /** None where the source raises ValueError. */
    method EnsurePublishedPort(service: ServiceSpec) returns (r: Option<ServiceSpec>)
      requires store.Valid()
      ensures var port := EnsuredPort(cfg, hash, store.workloads, service);
              r == if port.None? then None else Some(service.(publishedPort := port))
    {
      hide Listed, Sorted;
      if service.publishedPort.Some? {
        return Some(service);
      }
      var current := store.ListWorkloads();
      ListedMembers(store.workloads);
      var used := set w | w in current && w.publishedPort.Some?
          && w.service.serviceId != service.serviceId :: w.publishedPort.value;
      assert used == UsedByOthers(store.workloads, service.serviceId) by {
        UsedPorts(current, service.serviceId);
      }
      var base := cfg.portBase;
      var span := cfg.portMax - base + 1;
      if span <= 0 {
        return None;
      }
      var start := base + hash(service.serviceId) % span;
      for offset := 0 to span
        invariant FirstFree(hash(service.serviceId), base, span, used, 0)
               == FirstFree(hash(service.serviceId), base, span, used, offset)
      {
        var candidate := base + (start - base + offset) % span;
        if candidate !in used {
          return Some(service.(publishedPort := Some(candidate)));
        }
      }
      return None;
    }

    lemma UsedPorts(current: seq<Workload>, s: ServiceId)
      requires store.Valid()
      requires forall k :: k in store.workloads ==> store.workloads[k] in current
      requires forall w :: w in current ==> exists k :: k in store.workloads && store.workloads[k] == w
      ensures (set w | w in current && w.publishedPort.Some? && w.service.serviceId != s :: w.publishedPort.value)
           == UsedByOthers(store.workloads, s)
    {
      var used := set w | w in current && w.publishedPort.Some? && w.service.serviceId != s :: w.publishedPort.value;
      forall p | p in used ensures p in UsedByOthers(store.workloads, s) {
        var w :| w in current && w.publishedPort.Some? && w.service.serviceId != s && w.publishedPort.value == p;
        var k :| k in store.workloads && store.workloads[k] == w;
      }
      forall p | p in UsedByOthers(store.workloads, s) ensures p in used {
        var k :| k in store.workloads && k != s && store.workloads[k].publishedPort == Some(p);
        assert store.workloads[k] in current;
      }
    }

    /** None where the source raises: no port left, or the runtime fails. */
    method Deploy(service: ServiceSpec, existing: Option<Container>, created: Option<Container>)
        returns (r: Option<ExecuteResponse>)
      requires store.Valid()
      modifies store
      ensures store.Valid()
      ensures store.workloads == DeployTable(cfg, hash, old(store.workloads), service, existing, created)
      ensures r.Some? ==>
        && service.serviceId in store.workloads && store.workloads[service.serviceId].status == WorkloadRunning
        && store.workloads[service.serviceId].containerId == Some(r.value.containerId)
        && r.value.serviceId == service.serviceId
      ensures r.None? ==> store.workloads == old(store.workloads)
      ensures r.None? <==>
        || EnsuredPort(cfg, hash, old(store.workloads), service).None?
        || (!RunsAs(old(store.workloads), service.serviceId, existing) && created.None?)
      ensures r.Some? ==>
        (r.value.status == IsAlreadyRunning <==> RunsAs(old(store.workloads), service.serviceId, existing))
      ensures r.Some? && r.value.status == IsAlreadyRunning ==> store.workloads == old(store.workloads)
      ensures r.Some? && r.value.status != IsAlreadyRunning ==>
        var port := EnsuredPort(cfg, hash, old(store.workloads), service);
        && r.value.status == IsRunning && created.Some? && r.value.containerId == created.value.containerId
        && store.workloads == old(store.workloads)[service.serviceId :=
             Workload(service.(publishedPort := port), Some(created.value.containerId), created.value.publishedPort,
                      created.value.containerIp, WorkloadRunning, 0)]
    {
      hide FirstFree;
      var withPort := EnsurePublishedPort(service);
      if withPort.None? {
        return None;
      }
      var current := store.GetWorkload(service.serviceId);
      if AlreadyRunning(current, existing) {
        return Some(ExecuteResponse(service.serviceId, current.value.containerId.value, IsAlreadyRunning));
      }
      if created.None? {
        return None;
      }
      var c := created.value;
      store.UpsertWorkload(Workload(withPort.value, Some(c.containerId), c.publishedPort, c.containerIp,
                                    WorkloadRunning, 0));
      return Some(ExecuteResponse(service.serviceId, c.containerId, IsRunning));
    }

    /** Stopping an unknown service succeeds; none where the runtime fails. */
    method Stop(s: ServiceId, ok: bool) returns (r: Option<ExecuteResponse>)
      requires store.Valid()
      modifies store
      ensures store.Valid() && store.workloads == StopTable(old(store.workloads), s, ok)
      ensures r.None? <==> s in old(store.workloads) && !ok
      ensures r.Some? ==> r.value.status == IsStopped && r.value.serviceId == s
      ensures r.Some? && s in old(store.workloads) ==>
        var w := old(store.workloads)[s];
        && store.workloads == old(store.workloads)[s := w.(status := WorkloadStopped, healthFailures := 0)]
        && r.value.containerId == w.containerId.GetOr("")
      ensures r.None? || s !in old(store.workloads) ==> store.workloads == old(store.workloads)
    {
      var current := store.GetWorkload(s);
      if current.None? {
        return Some(ExecuteResponse(s, "", IsStopped));
      }
      if !ok {
        return None;
      }
      store.UpsertWorkload(current.value.(status := WorkloadStopped, healthFailures := 0));
      return Some(ExecuteResponse(s, current.value.containerId.GetOr(""), IsStopped));
    }

    /** None where the source raises: an unknown service, or the runtime fails. */
    method Restart(s: ServiceId, ok: bool) returns (r: Option<ExecuteResponse>)
      requires store.Valid()
      modifies store
      ensures store.Valid() && store.workloads == RestartTable(old(store.workloads), s, ok)
      ensures r.None? <==> s !in old(store.workloads) || !ok
      ensures r.Some? ==> r.value.status == IsRunning && r.value.serviceId == s
      ensures r.Some? ==>
        var w := old(store.workloads)[s];
        && store.workloads == old(store.workloads)[s := w.(status := WorkloadRunning, healthFailures := 0)]
        && r.value.containerId == w.containerId.GetOr("")
      ensures r.None? ==> store.workloads == old(store.workloads)
    {
      var current := store.GetWorkload(s);
      if current.None? || !ok {
        return None;
      }
      store.UpsertWorkload(current.value.(status := WorkloadRunning, healthFailures := 0));
      return Some(ExecuteResponse(s, current.value.containerId.GetOr(""), IsRunning));
    }

    /** `_check_workload_health`: asks until the first success, and says which answers it got. */
    method CheckWorkloadHealth(responses: Responses) returns (healthy: bool, ghost asked: seq<Mark>)
      ensures healthy == Answers(responses, cfg.healthCheckRetries)
      ensures asked == ProbeOutcomes(responses, 0, cfg.healthCheckRetries)
    {
      asked := [];
      for i := 0 to cfg.healthCheckRetries
        invariant forall j: nat :: j < i ==> !responses(j)
        invariant asked + ProbeOutcomes(responses, i, cfg.healthCheckRetries)
               == ProbeOutcomes(responses, 0, cfg.healthCheckRetries)
      {
        if responses(i) {
          return true, asked + [Asked(true)];
        }
        assert asked + ([Asked(false)] + ProbeOutcomes(responses, i + 1, cfg.healthCheckRetries))
            == (asked + [Asked(false)]) + ProbeOutcomes(responses, i + 1, cfg.healthCheckRetries);
        asked := asked + [Asked(false)];
      }
      return false, asked;
    }

    /** `_resolve_internal_health_url`: a container address learnt from the runtime is stored. */
    method ResolveContainerIp(w: Workload, inspected: Option<Container>) returns (ip: Option<string>)
      requires store.Valid()
      modifies store
      ensures store.Valid() && ip == ResolvedIp(w, inspected)
      ensures store.workloads ==
        if w.containerIp.None? && ip.Some? then old(store.workloads)[w.service.serviceId := w.(containerIp := ip)]
        else old(store.workloads)
    {
      ip := w.containerIp;
      if ip.None? && inspected.Some? {
        ip := inspected.value.containerIp;
        if ip.Some? {
          store.UpsertWorkload(w.(containerIp := ip));
        }
      }
    }

    /** One turn of the loop of `health_check_all`. */
    method CheckOne(w: Workload, inspected: Option<Container>, responses: Responses)
        returns (report: Option<AgentHealthReport>)
      requires store.Valid() && w.service.serviceId in store.workloads && store.workloads[w.service.serviceId] == w
      modifies store
      ensures store.Valid()
      ensures store.workloads == old(store.workloads)[w.service.serviceId := Checked(cfg, w, inspected, responses)]
      ensures var r := ReportFor(cfg, w, inspected, responses);
              report == if r.None? then None else Some(AgentHealthReport(w.service.serviceId, r.value.0, r.value.1))
    {
      hide Answers;
      if w.status != WorkloadRunning && w.status != WorkloadUnhealthy {
        return None;
      }
      var ip := ResolveContainerIp(w, inspected);
      if ip.None? {
        return None;
      }
      var resolved := w.(containerIp := ip);
      var healthy, _ := CheckWorkloadHealth(responses);
      var updated :=
        if healthy then resolved.(status := WorkloadRunning, healthFailures := 0)
        else resolved.(status := WorkloadUnhealthy, healthFailures := resolved.healthFailures + 1);
      store.UpsertWorkload(updated);
      return Some(AgentHealthReport(w.service.serviceId, healthy, updated.healthFailures));
    }

    /** The pass is one health check per workload, in the order of the ids, each on the record listed at the start. */
    method HealthCheckAll(inspect: ServiceId -> Option<Container>, answers: ServiceId -> Responses)
      returns (reports: seq<AgentHealthReport>)
      requires store.Valid()
      modifies store
      ensures store.Valid()
      ensures var pass := Pass(Sorted(old(store.workloads).Keys), inspect, answers);
              && store.workloads == TableRun(cfg, hash, old(store.workloads), pass)
              && reports == PassReports(cfg, old(store.workloads), pass)
      ensures store.workloads.Keys == old(store.workloads).Keys
      ensures forall s :: s in store.workloads ==>
        store.workloads[s] == Checked(cfg, old(store.workloads)[s], inspect(s), answers(s))
      ensures forall report :: report in reports <==>
        Reported(cfg, old(store.workloads), report.serviceId, inspect, answers, report)
    {
      hide Sorted, Listed, Checked, ReportFor, TableRun, PassReports;
      ghost var before := store.workloads;
      ghost var ids := Sorted(before.Keys);
      ghost var pass := Pass(ids, inspect, answers);
      ListedAt(before);
      EmptyPass(cfg, hash, before);
      var workloads := store.ListWorkloads();
      reports := [];
      for i := 0 to |workloads|
        invariant store.Valid()
        invariant forall j :: i <= j < |ids| ==> ids[j] in store.workloads && store.workloads[ids[j]] == before[ids[j]]
        invariant store.workloads == TableRun(cfg, hash, before, pass[..i])
        invariant reports == PassReports(cfg, before, pass[..i])
      {
        var s := workloads[i].service.serviceId;
        assert s == ids[i];
        PassStep(cfg, hash, before, pass, i);
        LaterIdsDiffer(before.Keys, i);
        var report := CheckOne(workloads[i], inspect(s), answers(s));
        if report.Some? {
          reports := reports + [report.value];
        }
      }
      assert pass[..|workloads|] == pass;
      PassMeaning(cfg, hash, before, inspect, answers);
    }
  }

  lemma LaterIdsDiffer(keys: set<ServiceId>, i: nat)
    requires i < |Sorted(keys)|
    ensures forall j :: i < j < |Sorted(keys)| ==> Sorted(keys)[j] != Sorted(keys)[i]
  {
    forall j | i < j < |Sorted(keys)| ensures Sorted(keys)[j] != Sorted(keys)[i] { SortedDistinct(keys, i, j); }
  }

  /** A pass leaves each workload as its one check leaves it, and sends exactly the reports of those checks. */
  lemma PassMeaning(cfg: AgentSettings, hash: Hash, table: Table, inspect: ServiceId -> Option<Container>,
                    answers: ServiceId -> Responses)
    ensures var pass := Pass(Sorted(table.Keys), inspect, answers);
            var end := TableRun(cfg, hash, table, pass);
            && end.Keys == table.Keys
            && (forall s :: s in end ==> end[s] == Checked(cfg, table[s], inspect(s), answers(s)))
            && forall report :: report in PassReports(cfg, table, pass) <==>
                 Reported(cfg, table, report.serviceId, inspect, answers, report)
  {
    hide Sorted, Checked, TableRun, PassReports, ReportFor;
    var ids := Sorted(table.Keys);
    var pass := Pass(ids, inspect, answers);
    TableSoFar(cfg, hash, table, inspect, answers, |ids|);
    ReportsSoFar(cfg, hash, table, inspect, answers, |ids|);
    assert pass[..|ids|] == pass && ids[..|ids|] == ids;
    forall s | s in table ensures exists j :: 0 <= j < |ids| && ids[j] == s { assert s in ids; }
  }

  /** The table with one check of each handled workload. */
  ghost function AllChecked(cfg: AgentSettings, table: Table, inspect: ServiceId -> Option<Container>,
                            answers: ServiceId -> Responses, handled: seq<ServiceId>): Table
  {
    map s | s in table :: if s in handled then Checked(cfg, table[s], inspect(s), answers(s)) else table[s]
  }

  lemma OneMoreChecked(cfg: AgentSettings, table: Table, inspect: ServiceId -> Option<Container>,
                       answers: ServiceId -> Responses, handled: seq<ServiceId>, s: ServiceId)
    requires s in table && s !in handled
    ensures var before := AllChecked(cfg, table, inspect, answers, handled);
            && before[s] == table[s]
            && AllChecked(cfg, table, inspect, answers, handled + [s]) ==
                 before[s := Checked(cfg, table[s], inspect(s), answers(s))]
  {
    hide Checked;
  }

  lemma {:induction false} TableSoFar(cfg: AgentSettings, hash: Hash, table: Table,
                                      inspect: ServiceId -> Option<Container>, answers: ServiceId -> Responses, i: nat)
    requires i <= |Sorted(table.Keys)|
    ensures var ids := Sorted(table.Keys);
            TableRun(cfg, hash, table, Pass(ids, inspect, answers)[..i]) ==
            AllChecked(cfg, table, inspect, answers, ids[..i])
    decreases i
  {
    hide Sorted, Checked, TableRun, PassReports, ReportFor;
    var ids := Sorted(table.Keys);
    if i == 0 {
      EmptyPass(cfg, hash, table);
    } else {
      var k := i - 1;
      assert ids[k] in ids && ids[..i] == ids[..k] + [ids[k]];
      TableSoFar(cfg, hash, table, inspect, answers, k);
      PassStep(cfg, hash, table, Pass(ids, inspect, answers), k);
      SortedFresh(table.Keys, k);
      OneMoreChecked(cfg, table, inspect, answers, ids[..k], ids[k]);
    }
  }

  lemma {:induction false} ReportsSoFar(cfg: AgentSettings, hash: Hash, table: Table,
                                        inspect: ServiceId -> Option<Container>, answers: ServiceId -> Responses,
                                        i: nat)
    requires i <= |Sorted(table.Keys)|
    ensures var ids := Sorted(table.Keys);
            forall report :: report in PassReports(cfg, table, Pass(ids, inspect, answers)[..i]) <==>
              exists j :: 0 <= j < i && Reported(cfg, table, ids[j], inspect, answers, report)
    decreases i
  {
    hide Sorted, Checked, TableRun, PassReports, ReportFor;
    var ids := Sorted(table.Keys);
    if i == 0 {
      EmptyPass(cfg, hash, table);
    } else {
      assert ids[i - 1] in ids;
      ReportsSoFar(cfg, hash, table, inspect, answers, i - 1);
      PassStep(cfg, hash, table, Pass(ids, inspect, answers), i - 1);
    }
  }

  lemma EmptyPass(cfg: AgentSettings, hash: Hash, table: Table)
    ensures TableRun(cfg, hash, table, []) == table && PassReports(cfg, table, []) == []
  {
  }

  lemma PassStep(cfg: AgentSettings, hash: Hash, table: Table, pass: seq<TableEvent>, i: nat)
    requires i < |pass| && pass[i].HealthChecked? && pass[i].serviceId in table
    ensures TableRun(cfg, hash, table, pass[..i + 1])
         == TableStep(cfg, hash, TableRun(cfg, hash, table, pass[..i]), pass[i])
    ensures var report := ReportFor(cfg, table[pass[i].serviceId], pass[i].inspected, pass[i].responses);
            PassReports(cfg, table, pass[..i + 1]) == PassReports(cfg, table, pass[..i]) +
              (if report.None? then [] else [AgentHealthReport(pass[i].serviceId, report.value.0, report.value.1)])
  {
    assert pass[..i + 1][..i] == pass[..i];
  }
}
