// The evidence behind a health-triggered recovery: the agent's failure count, the probes it stands for, and the
// threshold the controller applies to it.

module HealthEvidence {
  import opened Models
  import opened NodeTable
  import opened Workloads
  import Lifecycle
  import StepFacts

  /** What can be observed of a service from outside the agent: a fresh start (deploy, restart or stop), or
      one probe. */
  datatype Mark = FreshStart | Asked(ok: bool)

  /** The outcomes of the probes one check makes: it stops at the first success. */
  ghost function ProbeOutcomes(responses: Responses, from: nat, retries: nat): (r: seq<Mark>)
    requires from <= retries
    decreases retries - from
  {
    if from == retries then []
    else if responses(from) then [Asked(true)]
    else [Asked(false)] + ProbeOutcomes(responses, from + 1, retries)
  }

  /** The length of the run of failed probes that ends the log. */
  function TrailingFailures(log: seq<Mark>): nat
  {
    if log == [] || log[|log| - 1] != Asked(false) then 0 else 1 + TrailingFailures(log[..|log| - 1])
  }

  /** What one event adds to the log of service s. */
  ghost function Marks(cfg: AgentSettings, hash: Hash, table: Table, e: TableEvent, s: ServiceId): seq<Mark>
  {
    match e
    case HealthChecked(c, inspected, responses) =>
      if c == s && s in table && ReportFor(cfg, table[s], inspected, responses).Some?
      then ProbeOutcomes(responses, 0, cfg.healthCheckRetries) else []
    case Deployed(service, existing, _, _) =>
      if service.serviceId == s && !AlreadyRunning(Lookup(table, s), existing)
         && EnsuredPort(cfg, hash, table, service).Some? then [FreshStart] else []
    case DeployRaised(_) => []
    case StoppedService(c, ok) => if c == s && s in table && ok then [FreshStart] else []
    case RestartedService(c, ok) => if c == s && s in table && ok then [FreshStart] else []
  }

  ghost function Log(cfg: AgentSettings, hash: Hash, es: seq<TableEvent>, s: ServiceId): seq<Mark>
  {
    if es == [] then []
    else
      var earlier := es[..|es| - 1];
      Log(cfg, hash, earlier, s) + Marks(cfg, hash, TableRun(cfg, hash, map[], earlier), es[|es| - 1], s)
  }

  lemma TrailingSnoc(log: seq<Mark>, m: Mark)
    ensures TrailingFailures(log + [m]) == if m == Asked(false) then 1 + TrailingFailures(log) else 0
  {
    assert (log + [m])[..|log|] == log;
  }

  ghost predicate AnswersFrom(responses: Responses, from: nat, retries: nat)
  {
    exists i: nat :: from <= i < retries && responses(i)
  }

  lemma {:induction false} AppendedFailures(log: seq<Mark>, responses: Responses, from: nat, retries: nat)
    requires from <= retries
    ensures TrailingFailures(log + ProbeOutcomes(responses, from, retries)) ==
            if AnswersFrom(responses, from, retries) then 0 else TrailingFailures(log) + (retries - from)
    decreases retries - from
  {
    hide TrailingFailures;
    if from == retries {
      assert log + [] == log;
    } else if responses(from) {
      TrailingSnoc(log, Asked(true));
    } else {
      var next := log + [Asked(false)];
      TrailingSnoc(log, Asked(false));
      AppendedFailures(next, responses, from + 1, retries);
      assert next + ProbeOutcomes(responses, from + 1, retries) == log + ProbeOutcomes(responses, from, retries);
      assert AnswersFrom(responses, from + 1, retries) <==> AnswersFrom(responses, from, retries);
    }
  }

  ghost predicate Backed(cfg: AgentSettings, table: Table, log: seq<Mark>, s: ServiceId)
  {
    TrailingFailures(log) == if s in table then table[s].healthFailures * cfg.healthCheckRetries else 0
  }

  lemma StepKeepsBacked(cfg: AgentSettings, hash: Hash, table: Table, log: seq<Mark>, e: TableEvent, s: ServiceId)
    requires Backed(cfg, table, log, s)
    ensures Backed(cfg, TableStep(cfg, hash, table, e), log + Marks(cfg, hash, table, e, s), s)
  {
    hide EnsuredPort, TrailingFailures, ProbeOutcomes;
    var marks := Marks(cfg, hash, table, e, s);
    if e.HealthChecked? && s in table && e.serviceId == s && ReportFor(cfg, table[s], e.inspected, e.responses).Some? {
      AppendedFailures(log, e.responses, 0, cfg.healthCheckRetries);
      var w := table[s];
      assert Answers(e.responses, cfg.healthCheckRetries) <==> AnswersFrom(e.responses, 0, cfg.healthCheckRetries);
      var retries := cfg.healthCheckRetries;
      assert (w.healthFailures + 1) * retries == w.healthFailures * retries + retries;
    } else if marks == [] {
      assert log + marks == log;
    } else {
      TrailingSnoc(log, FreshStart);
    }
  }

  /** In every history, the failure count times the retries of a check is the length of the run of failed probes since
      the last success, deploy, restart or stop. */
  lemma {:induction false} FailureCountIsEvidence(cfg: AgentSettings, hash: Hash, es: seq<TableEvent>, s: ServiceId)
    ensures Backed(cfg, TableRun(cfg, hash, map[], es), Log(cfg, hash, es, s), s)
  {
    assert TrailingFailures([]) == 0;
    if es != [] {
      FailureCountIsEvidence(cfg, hash, es[..|es| - 1], s);
      StepKeepsBacked(cfg, hash, TableRun(cfg, hash, map[], es[..|es| - 1]), Log(cfg, hash, es[..|es| - 1], s),
                      es[|es| - 1], s);
    }
  }

  /** An unhealthy report below the threshold, or a healthy one, never makes the controller ask an agent for
      anything. */
  lemma ThresholdIsRespected(cfg: Lifecycle.Settings, pick: Lifecycle.Pick, st: Lifecycle.Service,
                             r: HealthReport, env: Lifecycle.Environment)
    ensures StepFacts.StartsWork(Lifecycle.Apply(cfg, pick, st, Lifecycle.HealthStep(r, env)).effects) ==>
              !r.healthy && r.consecutiveFailures >= cfg.healthCheckRetries
  {
    hide Lifecycle.GuardedHealthRecovery, Lifecycle.HealthRecovery;
  }

  /** The report was sent by the check that ends the agent's history. */
  ghost predicate SentBy(agent: AgentSettings, hash: Hash, es: seq<TableEvent>, s: ServiceId, r: HealthReport)
  {
    && es != [] && es[|es| - 1].HealthChecked? && es[|es| - 1].serviceId == s
    && var table := TableRun(agent, hash, map[], es[..|es| - 1]);
       && s in table
       && ReportFor(agent, table[s], es[|es| - 1].inspected,
                    es[|es| - 1].responses) == Some((r.healthy, r.consecutiveFailures))
  }

  /** However late or often a report arrives, if it makes the controller restart or move the service, then the check
      that sent it ended a run of at least (controller threshold) * (agent retries) failed probes with no success among
      them. */
  lemma RecoveryIsBackedByProbes(agent: AgentSettings, hash: Hash, es: seq<TableEvent>, s: ServiceId,
                                 cfg: Lifecycle.Settings, pick: Lifecycle.Pick, st: Lifecycle.Service,
                                 r: HealthReport, env: Lifecycle.Environment)
    requires SentBy(agent, hash, es, s, r)
    requires StepFacts.StartsWork(Lifecycle.Apply(cfg, pick, st, Lifecycle.HealthStep(r, env)).effects)
    ensures TrailingFailures(Log(agent, hash, es, s)) >= cfg.healthCheckRetries * agent.healthCheckRetries
  {
    hide StepFacts.StartsWork, TrailingFailures, Log;
    ThresholdIsRespected(cfg, pick, st, r, env);
    FailureCountIsEvidence(agent, hash, es, s);
    var table := TableRun(agent, hash, map[], es);
    assert s in table && table[s].healthFailures == r.consecutiveFailures;
    AtLeast(r.consecutiveFailures, cfg.healthCheckRetries, agent.healthCheckRetries);
  }

  lemma AtLeast(n: int, m: int, k: nat)
    requires n >= m
    ensures n * k >= m * k
  {
  }
}
