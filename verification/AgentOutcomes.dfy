// What the agent's health checks lead to: which workloads are checked, what is reported about them, and from which
// report on the controller acts.

module AgentOutcomes {
  import opened Models
  import opened Workloads
  import Lifecycle
  import StepFacts
  import HandlerOutcomes

  predicate HasAddress(inspected: Option<Container>) { inspected.Some? && inspected.value.containerIp.Some? }

  /** A health check happens exactly for a running or unhealthy workload whose address is recorded or can be learnt.  It
      is always reported; it never takes a workload out of the set of checked ones, nor into it; and it counts one
      failure exactly if no probe within the retries succeeds. */
  lemma CheckOutcome(cfg: AgentSettings, w: Workload, inspected: Option<Container>, responses: Responses)
    ensures var out, report := Checked(cfg, w, inspected, responses), ReportFor(cfg, w, inspected, responses);
            && (IsChecked(out) <==> w.status == WorkloadRunning || w.status == WorkloadUnhealthy)
            && (report.None? <==> !(w.status == WorkloadRunning || w.status == WorkloadUnhealthy)
                                  || (w.containerIp.None? && !HasAddress(inspected)))
            && (report.None? ==> out == w)
            && (report.Some? ==>
                  && out.containerIp == (if w.containerIp.Some? then w.containerIp else inspected.value.containerIp)
                  && out.service == w.service && out.containerId == w.containerId
                  && out.publishedPort == w.publishedPort
                  && if exists i: nat :: i < cfg.healthCheckRetries && responses(i)
                     then report == Some((true, 0)) && out.status == WorkloadRunning && out.healthFailures == 0
                     else && report == Some((false, w.healthFailures + 1)) && out.status == WorkloadUnhealthy
                          && out.healthFailures == w.healthFailures + 1)
  {
  }

  // Which workloads are checked.

  /** What the deployments, stops and restarts of a history left the service as: started, stopped, or never recorded. */
  ghost function LastCommand(cfg: AgentSettings, hash: Hash, es: seq<TableEvent>, s: ServiceId): Option<bool>
  {
    if es == [] then None
    else
      var before := LastCommand(cfg, hash, es[..|es| - 1], s);
      match es[|es| - 1]
      case Deployed(service, existing, _, _) =>
        var table := TableRun(cfg, hash, map[], es[..|es| - 1]);
        if service.serviceId == s && EnsuredPort(cfg, hash, table, service).Some? then Some(true) else before
      case StoppedService(c, ok) => if c == s && ok && before.Some? then Some(false) else before
      case RestartedService(c, ok) => if c == s && ok && before.Some? then Some(true) else before
      case _ => before
  }

  /** In every history a workload is checked exactly if it was last started and not stopped; no check, however it ends,
      makes a difference. */
  lemma {:induction false} CheckedExactlyWhileStarted(cfg: AgentSettings, hash: Hash, es: seq<TableEvent>, s: ServiceId)
    ensures var table := TableRun(cfg, hash, map[], es);
            && (s in table <==> LastCommand(cfg, hash, es, s).Some?)
            && (s in table ==> (IsChecked(table[s]) <==> LastCommand(cfg, hash, es, s) == Some(true)))
  {
    hide EnsuredPort, Checked;
    if es != [] {
      var table := TableRun(cfg, hash, map[], es[..|es| - 1]);
      CheckedExactlyWhileStarted(cfg, hash, es[..|es| - 1], s);
      var e := es[|es| - 1];
      if e.HealthChecked? && e.serviceId in table {
        CheckOutcome(cfg, table[e.serviceId], e.inspected, e.responses);
      }
    }
  }

  // Failing checks in a row.

  predicate About(e: TableEvent, s: ServiceId)
  {
    match e
    case Deployed(service, _, _, _) => service.serviceId == s
    case DeployRaised(service) => service.serviceId == s
    case StoppedService(c, _) => c == s
    case RestartedService(c, _) => c == s
    case HealthChecked(c, _, _) => c == s
  }

  /** Everything that happens to the service is a check without a single answer. */
  ghost predicate OnlyFailingChecks(cfg: AgentSettings, w: Workload, es: seq<TableEvent>, s: ServiceId)
  {
    forall e :: e in es && About(e, s) ==>
      && e.HealthChecked? && (w.containerIp.Some? || HasAddress(e.inspected))
      && forall i: nat :: i < cfg.healthCheckRetries ==> !e.responses(i)
  }

  function ChecksOf(es: seq<TableEvent>, s: ServiceId): nat
  {
    if es == [] then 0 else ChecksOf(es[..|es| - 1], s) + if About(es[|es| - 1], s) then 1 else 0
  }

  /** The reports the checks of the history send about the service, as (healthy, consecutive failures). */
  ghost function ReportsAbout(cfg: AgentSettings, hash: Hash, table: Table, es: seq<TableEvent>,
                              s: ServiceId): seq<(bool, nat)>
  {
    if es == [] then []
    else
      var e, now := es[|es| - 1], TableRun(cfg, hash, table, es[..|es| - 1]);
      var earlier := ReportsAbout(cfg, hash, table, es[..|es| - 1], s);
      if e.HealthChecked? && e.serviceId == s && s in now && ReportFor(cfg, now[s], e.inspected, e.responses).Some?
      then earlier + [ReportFor(cfg, now[s], e.inspected, e.responses).value] else earlier
  }

  /** As long as nothing but failing checks happens to a started workload with an address, whatever happens to others,
      each check is reported and the reports count up by one. */
  lemma {:induction false} FailingChecksCountUp(cfg: AgentSettings, hash: Hash, table: Table, es: seq<TableEvent>,
                                                s: ServiceId)
    requires s in table && IsChecked(table[s]) && OnlyFailingChecks(cfg, table[s], es, s)
    ensures var end, reports := TableRun(cfg, hash, table, es), ReportsAbout(cfg, hash, table, es, s);
            && s in end && IsChecked(end[s]) && end[s].healthFailures == table[s].healthFailures + ChecksOf(es, s)
            && (table[s].containerIp.Some? ==> end[s].containerIp.Some?)
            && |reports| == ChecksOf(es, s)
            && forall j :: 0 <= j < |reports| ==> reports[j] == (false, table[s].healthFailures + j + 1)
  {
    hide EnsuredPort, Checked, ReportFor;
    if es != [] {
      var e, front := es[|es| - 1], es[..|es| - 1];
      FailingChecksCountUp(cfg, hash, table, front, s);
      var now := TableRun(cfg, hash, table, front);
      assert e in es;
      if About(e, s) {
        CheckOutcome(cfg, now[s], e.inspected, e.responses);
      } else {
        OthersDoNotMatter(cfg, hash, now, e, s);
      }
    }
  }

  lemma OthersDoNotMatter(cfg: AgentSettings, hash: Hash, table: Table, e: TableEvent, s: ServiceId)
    requires s in table && !About(e, s)
    ensures s in TableStep(cfg, hash, table, e) && TableStep(cfg, hash, table, e)[s] == table[s]
  {
    hide EnsuredPort, Checked;
  }

  /** Then the controller acts on exactly those reports that have reached its threshold, provided that the service is
      where the report says, settled, cooled and not in recovery: below the threshold on none, from it on on each. */
  lemma FailingChecksReachTheThreshold(agent: AgentSettings, hash: Hash, table: Table, es: seq<TableEvent>,
                                       s: ServiceId, j: nat, cfg: Lifecycle.Settings, pick: Lifecycle.Pick,
                                       st: Lifecycle.Service, nodeId: NodeId, at: Time, tag: Option<int>,
                                       env: Lifecycle.Environment)
    requires s in table && IsChecked(table[s]) && OnlyFailingChecks(agent, table[s], es, s)
    requires j < ChecksOf(es, s)
    ensures j < |ReportsAbout(agent, hash, table, es, s)|
    ensures var (healthy, failures) := ReportsAbout(agent, hash, table, es, s)[j];
            var report := HealthReport(nodeId, healthy, failures, at, tag);
            StepFacts.Attempts(cfg, pick, st, Lifecycle.HealthStep(report, env)) <==>
              && table[s].healthFailures + j + 1 >= cfg.healthCheckRetries
              && HandlerOutcomes.Concerns(st, nodeId, tag) && HandlerOutcomes.Settled(st, at)
              && HandlerOutcomes.Cooled(st, at) && st.activeRecovery != Some(st.generation)
  {
    hide StepFacts.Attempts, HandlerOutcomes.Concerns;
    FailingChecksCountUp(agent, hash, table, es, s);
    var (healthy, failures) := ReportsAbout(agent, hash, table, es, s)[j];
    HandlerOutcomes.HealthActsExactly(cfg, pick, st, HealthReport(nodeId, healthy, failures, at, tag), env);
  }
}
