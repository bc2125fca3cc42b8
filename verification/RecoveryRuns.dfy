// Properties of whole runs of one service: generations, startup grace and cooldown, the restart
// budget, and escalation.  A run is any sequence of steps, so reports may be duplicated, reordered or
// lost, agents may answer anything, and node tables may differ from one read to the next.

module RecoveryRuns {
  import opened Models
  import opened Lifecycle
  import opened StepFacts
  import Scheduler

  /** The service's record before step `k` of the run. */
  function StateAt(cfg: Settings, pick: Pick, st: Service, steps: seq<Step>, k: nat): Service
    requires k <= |steps|
  {
    Run(cfg, pick, st, steps[..k])
  }

  function EffectsAt(cfg: Settings, pick: Pick, st: Service, steps: seq<Step>, k: nat): seq<Effect>
    requires k < |steps|
  {
    Apply(cfg, pick, StateAt(cfg, pick, st, steps, k), steps[k]).effects
  }

  lemma NextState(cfg: Settings, pick: Pick, st: Service, steps: seq<Step>, k: nat)
    requires k < |steps|
    ensures StateAt(cfg, pick, st, steps, k + 1) == Apply(cfg, pick, StateAt(cfg, pick, st, steps, k), steps[k])
  {
    hide Apply;
    assert steps[..k + 1] == steps[..k] + [steps[k]];
    RunAppend(cfg, pick, st, steps[..k], [steps[k]]);
    var mid := Run(cfg, pick, st, steps[..k]);
    assert Run(cfg, pick, mid, [steps[k]]) == Run(cfg, pick, Apply(cfg, pick, mid, steps[k]), []);
  }

  ghost predicate RecoversAt(cfg: Settings, pick: Pick, st: Service, steps: seq<Step>, k: nat)
    requires k < |steps|
  {
    Recovers(EffectsAt(cfg, pick, st, steps, k))
  }

  // Generations.

  lemma {:induction false} GenerationMonotone(cfg: Settings, pick: Pick, st: Service, steps: seq<Step>, i: nat, j: nat)
    requires i <= j <= |steps|
    ensures StateAt(cfg, pick, st, steps, i).generation <= StateAt(cfg, pick, st, steps, j).generation
    decreases j
  {
    hide Apply, StateAt;
    if i < j {
      GenerationMonotone(cfg, pick, st, steps, i, j - 1);
      NextState(cfg, pick, st, steps, j - 1);
      StepFactsHold(cfg, pick, StateAt(cfg, pick, st, steps, j - 1), steps[j - 1]);
    }
  }

  /** Two recoveries of one run never leave the same generation. */
  lemma AtMostOneRecoveryPerGeneration(cfg: Settings, pick: Pick, st: Service, steps: seq<Step>, i: nat, j: nat)
    requires i < j < |steps| && RecoversAt(cfg, pick, st, steps, i) && RecoversAt(cfg, pick, st, steps, j)
    ensures StateAt(cfg, pick, st, steps, i).generation < StateAt(cfg, pick, st, steps, j).generation
  {
    hide Apply, StateAt;
    NextState(cfg, pick, st, steps, i);
    StepFactsHold(cfg, pick, StateAt(cfg, pick, st, steps, i), steps[i]);
    GenerationMonotone(cfg, pick, st, steps, i + 1, j);
  }

  function Tag(step: Step): Option<int>
  {
    match step
    case CrashStep(r, _) => r.generation
    case HealthStep(r, _) => r.generation
    case _ => None
  }

  /** Once a recovery has left generation g, every report tagged g changes nothing, at any later point of any run. */
  lemma TaggedReportsAreSpent(cfg: Settings, pick: Pick, st: Service, steps: seq<Step>, i: nat, k: nat, report: Step)
    requires i < k <= |steps| && RecoversAt(cfg, pick, st, steps, i)
    requires Tag(report) == Some(StateAt(cfg, pick, st, steps, i).generation as int)
    ensures Apply(cfg, pick, StateAt(cfg, pick, st, steps, k), report)
         == StateAt(cfg, pick, st, steps, k).(effects := [])
  {
    hide Apply, StateAt;
    var g := StateAt(cfg, pick, st, steps, i).generation;
    var late := StateAt(cfg, pick, st, steps, k);
    NextState(cfg, pick, st, steps, i);
    StepFactsHold(cfg, pick, StateAt(cfg, pick, st, steps, i), steps[i]);
    GenerationMonotone(cfg, pick, st, steps, i + 1, k);
    OutdatedReportIgnored(cfg, pick, late, report);
  }

  lemma OutdatedReportIgnored(cfg: Settings, pick: Pick, st: Service, report: Step)
    requires Tag(report).Some? && Tag(report).value != st.generation
    ensures Apply(cfg, pick, st, report) == st.(effects := [])
  {
  }

  ghost function RecoveryCount(cfg: Settings, pick: Pick, st: Service, steps: seq<Step>, k: nat): nat
    requires k <= |steps|
  {
    if k == 0 then 0
    else RecoveryCount(cfg, pick, st, steps, k - 1) + (if RecoversAt(cfg, pick, st, steps, k - 1) then 1 else 0)
  }

  /** The generation counts the successful recoveries of the run. */
  lemma {:induction false} GenerationCountsRecoveries(cfg: Settings, pick: Pick, st: Service, steps: seq<Step>, k: nat)
    requires k <= |steps|
    ensures StateAt(cfg, pick, st, steps, k).generation == st.generation + RecoveryCount(cfg, pick, st, steps, k)
  {
    if k > 0 {
      hide Apply, StateAt;
      GenerationCountsRecoveries(cfg, pick, st, steps, k - 1);
      NextState(cfg, pick, st, steps, k - 1);
      StepFactsHold(cfg, pick, StateAt(cfg, pick, st, steps, k - 1), steps[k - 1]);
    }
  }

  // Bounded churn.

  ghost predicate Chronological(steps: seq<Step>)
  {
    forall i, j :: 0 <= i <= j < |steps| ==> steps[i].Time() <= steps[j].Time()
  }

  /** After a report-triggered recovery at step i, the startup grace lasts at least until its time plus the period. */
  lemma {:induction false} GraceLasts(cfg: Settings, pick: Pick, st: Service, steps: seq<Step>, i: nat, k: nat)
    requires i < k <= |steps| && Chronological(steps)
    requires TroubleReport(steps[i]) && RecoversAt(cfg, pick, st, steps, i)
    requires forall j :: i < j < k ==> KeepsGrace(steps[j])
    ensures var now := StateAt(cfg, pick, st, steps, k);
            && now.observed.Some? && Grace(now).Some?
            && Grace(now).value >= steps[i].Time() + cfg.startupGrace
    decreases k
  {
    hide Apply, StateAt;
    NextState(cfg, pick, st, steps, k - 1);
    StepFactsHold(cfg, pick, StateAt(cfg, pick, st, steps, k - 1), steps[k - 1]);
    if i < k - 1 {
      GraceLasts(cfg, pick, st, steps, i, k - 1);
    }
  }

  /** Successful report-triggered recoveries are at least the startup grace apart, even when node-unreachable
      steps and API restarts come between them. */
  lemma RecoveriesKeepTheirDistance(cfg: Settings, pick: Pick, st: Service, steps: seq<Step>, i: nat, j: nat)
    requires i < j < |steps| && Chronological(steps)
    requires TroubleReport(steps[i]) && RecoversAt(cfg, pick, st, steps, i)
    requires TroubleReport(steps[j]) && RecoversAt(cfg, pick, st, steps, j)
    requires forall k :: i < k < j ==> KeepsGrace(steps[k])
    ensures steps[j].Time() >= steps[i].Time() + cfg.startupGrace
  {
    hide Apply, StateAt;
    GraceLasts(cfg, pick, st, steps, i, j);
    TroubleFacts(cfg, pick, StateAt(cfg, pick, st, steps, j), steps[j]);
  }

  lemma {:induction false} CooldownLasts(cfg: Settings, pick: Pick, st: Service, steps: seq<Step>, i: nat, k: nat)
    requires i < k <= |steps| && Chronological(steps)
    requires Attempts(cfg, pick, StateAt(cfg, pick, st, steps, i), steps[i])
    requires forall j :: i < j < k ==> !HealthyReport(steps[j])
    ensures var now := StateAt(cfg, pick, st, steps, k);
            now.cooldownUntil.Some? && now.cooldownUntil.value >= steps[i].Time() + CooldownLength(cfg)
    decreases k
  {
    hide Apply, StateAt;
    var previous := StateAt(cfg, pick, st, steps, k - 1);
    NextState(cfg, pick, st, steps, k - 1);
    StepFactsHold(cfg, pick, previous, steps[k - 1]);
    if TroubleReport(steps[k - 1]) {
      TroubleFacts(cfg, pick, previous, steps[k - 1]);
    }
    if i < k - 1 {
      CooldownLasts(cfg, pick, st, steps, i, k - 1);
    }
  }

  /** A health-triggered attempt comes no sooner than the cooldown after any earlier report-triggered attempt,
      successful or not, unless a healthy report came between. */
  lemma HealthAttemptsCoolDown(cfg: Settings, pick: Pick, st: Service, steps: seq<Step>, i: nat, j: nat)
    requires i < j < |steps| && Chronological(steps)
    requires Attempts(cfg, pick, StateAt(cfg, pick, st, steps, i), steps[i])
    requires steps[j].HealthStep? && Attempts(cfg, pick, StateAt(cfg, pick, st, steps, j), steps[j])
    requires forall k :: i < k < j ==> !HealthyReport(steps[k])
    ensures steps[j].Time() >= steps[i].Time() + CooldownLength(cfg)
  {
    hide Apply, StateAt;
    CooldownLasts(cfg, pick, st, steps, i, j);
    TroubleFacts(cfg, pick, StateAt(cfg, pick, st, steps, j), steps[j]);
  }

  /** How many of the first k steps are successful report-triggered recoveries. */
  ghost function ReportRecoveries(cfg: Settings, pick: Pick, st: Service, steps: seq<Step>, k: nat): nat
    requires k <= |steps|
  {
    if k == 0 then 0
    else ReportRecoveries(cfg, pick, st, steps, k - 1)
         + (if TroubleReport(steps[k - 1]) && RecoversAt(cfg, pick, st, steps, k - 1) then 1 else 0)
  }

  lemma {:induction false} ChurnAccumulates(cfg: Settings, pick: Pick, st: Service, steps: seq<Step>, k: nat)
    requires 0 < k <= |steps| && Chronological(steps)
    requires forall j :: 0 <= j < k ==> KeepsGrace(steps[j])
    requires ReportRecoveries(cfg, pick, st, steps, k) > 0
    ensures var n := ReportRecoveries(cfg, pick, st, steps, k);
            var now := StateAt(cfg, pick, st, steps, k);
            && now.observed.Some? && Grace(now).Some?
            && Grace(now).value >= steps[0].Time() + n * cfg.startupGrace
            && steps[k - 1].Time() >= steps[0].Time() + (n - 1) * cfg.startupGrace
  {
    hide Apply, StateAt;
    var n := ReportRecoveries(cfg, pick, st, steps, k - 1);
    var previous := StateAt(cfg, pick, st, steps, k - 1);
    NextState(cfg, pick, st, steps, k - 1);
    StepFactsHold(cfg, pick, previous, steps[k - 1]);
    if n > 0 {
      ChurnAccumulates(cfg, pick, st, steps, k - 1);
    }
    if TroubleReport(steps[k - 1]) {
      TroubleFacts(cfg, pick, previous, steps[k - 1]);
    }
    assert (n + 1) * cfg.startupGrace == n * cfg.startupGrace + cfg.startupGrace;
  }

  /** At most 1 + T / G successful report-triggered recoveries in T seconds. */
  lemma BoundedChurn(cfg: Settings, pick: Pick, st: Service, steps: seq<Step>, T: nat)
    requires cfg.startupGrace > 0 && steps != [] && Chronological(steps)
    requires forall j :: 0 <= j < |steps| ==> KeepsGrace(steps[j])
    requires steps[|steps| - 1].Time() - steps[0].Time() <= T
    ensures ReportRecoveries(cfg, pick, st, steps, |steps|) <= 1 + T / cfg.startupGrace
  {
    hide StateAt, ReportRecoveries, KeepsGrace, Chronological;
    var n := ReportRecoveries(cfg, pick, st, steps, |steps|);
    if n > 0 {
      ChurnAccumulates(cfg, pick, st, steps, |steps|);
      assert (n - 1) * cfg.startupGrace <= T;
      Quotient(n - 1, cfg.startupGrace, T);
    }
  }

  lemma Quotient(n: nat, g: nat, t: nat)
    requires g > 0 && n * g <= t
    ensures n <= t / g
  {
    var q := t / g;
    if n >= q + 1 {
      ProductMonotone(q + 1, n, g);
    }
  }

  lemma ProductMonotone(a: nat, b: nat, g: nat)
    requires a <= b
    ensures a * g <= b * g
  {
  }

  // The churn bound is attained.

  /** A crash report of the placed instance i startup graces after the first, answered by a successful restart. */
  function CrashAt(cfg: Settings, node: NodeState, i: nat): Step
  {
    CrashStep(CrashReport(node.nodeId, i * cfg.startupGrace, None),
              Environment([node], [node], Refused(""), true, true))
  }

  /** The service runs on the node, is out of startup grace when the i-th report arrives, and has budget left. */
  predicate ReadyFor(cfg: Settings, st: Service, node: NodeState, i: nat)
  {
    && st.observed.Some? && st.WantsToRun() && OnNode(st, node.nodeId) && st.activeRecovery.None?
    && st.restarts <= i && !InStartupGrace(st.observed.value, i * cfg.startupGrace)
  }

  lemma CrashRestarts(cfg: Settings, pick: Pick, st: Service, node: NodeState, i: nat)
    requires ReadyFor(cfg, st, node, i) && i < cfg.maxRestartAttempts
    ensures var out := Apply(cfg, pick, st, CrashAt(cfg, node, i));
            Recovers(out.effects) && ReadyFor(cfg, out, node, i + 1)
  {
    var step := CrashAt(cfg, node, i);
    var out := Apply(cfg, pick, st, step);
    assert (i + 1) * cfg.startupGrace == i * cfg.startupGrace + cfg.startupGrace;
    assert FindNode([node], node.nodeId) == Some(node);
    assert out.effects == [AgentRestart(node.nodeId, true, true),
                           Recovered(RecoveryRecord(st.id, RestartedInPlace, node.nodeId, node.nodeId,
                                                    i * cfg.startupGrace))];
    assert out.effects[1].Recovered?;
  }

  function CrashSeries(cfg: Settings, node: NodeState, k: nat): (r: seq<Step>)
    ensures |r| == k && forall i :: 0 <= i < k ==> r[i] == CrashAt(cfg, node, i)
  {
    if k == 0 then [] else CrashSeries(cfg, node, k - 1) + [CrashAt(cfg, node, k - 1)]
  }

  /** Crash reports exactly one startup grace apart are all answered by a restart, while the budget lasts: the k-th
      comes (k - 1) graces after the first, so `BoundedChurn` cannot be improved. */
  lemma ChurnBoundIsTight(cfg: Settings, pick: Pick, st: Service, node: NodeState, k: nat)
    requires ReadyFor(cfg, st, node, 0) && k <= cfg.maxRestartAttempts
    ensures var steps := CrashSeries(cfg, node, k);
            && Chronological(steps) && (forall i :: 0 <= i < k ==> KeepsGrace(steps[i]))
            && (forall i :: 0 <= i < k ==> steps[i].Time() == i * cfg.startupGrace)
            && ReportRecoveries(cfg, pick, st, steps, k) == k
  {
    var steps := CrashSeries(cfg, node, k);
    forall i, j | 0 <= i <= j < k
      ensures steps[i].Time() <= steps[j].Time() { ProductMonotone(i, j, cfg.startupGrace); }
    hide ReportRecoveries;
    AllCrashesRestart(cfg, pick, st, node, k);
  }

  lemma {:induction false} AllCrashesRestart(cfg: Settings, pick: Pick, st: Service, node: NodeState, k: nat)
    requires ReadyFor(cfg, st, node, 0) && k <= cfg.maxRestartAttempts
    ensures var steps := CrashSeries(cfg, node, k);
            ReportRecoveries(cfg, pick, st, steps, k) == k && ReadyFor(cfg, Run(cfg, pick, st, steps), node, k)
  {
    hide Apply, ReadyFor;
    if k > 0 {
      var earlier, steps := CrashSeries(cfg, node, k - 1), CrashSeries(cfg, node, k);
      AllCrashesRestart(cfg, pick, st, node, k - 1);
      assert steps[..k - 1] == earlier && steps[..k] == steps;
      SameCount(cfg, pick, st, earlier, steps, k - 1);
      NextState(cfg, pick, st, steps, k - 1);
      CrashRestarts(cfg, pick, Run(cfg, pick, st, earlier), node, k - 1);
    }
  }

  lemma {:induction false} SameCount(cfg: Settings, pick: Pick, st: Service, first: seq<Step>, all: seq<Step>, k: nat)
    requires k <= |first| <= |all| && all[..|first|] == first
    ensures ReportRecoveries(cfg, pick, st, all, k) == ReportRecoveries(cfg, pick, st, first, k)
  {
    hide Apply, Run;
    if k > 0 {
      SameCount(cfg, pick, st, first, all, k - 1);
      assert all[..k - 1] == first[..k - 1] && all[k - 1] == all[..|first|][k - 1];
    }
  }

  // The restart budget.

  ghost predicate NoResets(cfg: Settings, pick: Pick, st: Service, steps: seq<Step>, k: nat)
    requires k <= |steps|
  {
    forall j :: 0 <= j < k ==> !Resets(EffectsAt(cfg, pick, st, steps, j))
  }

  /** How many restarts self-healing asked for, or how many of these succeeded. */
  ghost function HealingRestarts(es: seq<Effect>, succeeded: bool): nat
  {
    if es == [] then 0
    else
      (if es[0].AgentRestart? && es[0].healing && (succeeded ==> es[0].ok) then 1 else 0)
      + HealingRestarts(es[1..], succeeded)
  }

  ghost function RestartsAsked(cfg: Settings, pick: Pick, st: Service, steps: seq<Step>, k: nat): nat
    requires k <= |steps|
  {
    if k == 0 then 0
    else RestartsAsked(cfg, pick, st, steps, k - 1) + HealingRestarts(EffectsAt(cfg, pick, st, steps, k - 1), false)
  }

  ghost function RestartsDone(cfg: Settings, pick: Pick, st: Service, steps: seq<Step>, k: nat): nat
    requires k <= |steps|
  {
    if k == 0 then 0
    else RestartsDone(cfg, pick, st, steps, k - 1) + HealingRestarts(EffectsAt(cfg, pick, st, steps, k - 1), true)
  }

  lemma {:induction false} NoneAsked(es: seq<Effect>, succeeded: bool)
    requires !AsksRestart(es)
    ensures HealingRestarts(es, succeeded) == 0
  {
    if es != [] {
      assert forall i :: 0 <= i < |es[1..]| ==> es[1..][i] == es[i + 1];
      NoneAsked(es[1..], succeeded);
    }
  }

  lemma FirstOfTwo(es: seq<Effect>, succeeded: bool)
    requires |es| == 2 && !es[1].AgentRestart?
    ensures HealingRestarts(es, succeeded) ==
            if es[0].AgentRestart? && es[0].healing && (succeeded ==> es[0].ok) then 1 else 0
  {
    assert es[1..] == [es[1]] && [es[1]][1..] == [];
    assert HealingRestarts([es[1]], succeeded) == 0;
  }

  /** A step asks for at most one restart. */
  lemma OneRestartPerStep(cfg: Settings, pick: Pick, st: Service, step: Step)
    ensures var es := Apply(cfg, pick, st, step).effects;
            && HealingRestarts(es, false) == (if AsksRestart(es) then 1 else 0)
            && HealingRestarts(es, true) == (if RestartSucceeded(es) then 1 else 0)
  {
    hide Apply;
    var es := Apply(cfg, pick, st, step).effects;
    StepFactsHold(cfg, pick, st, step);
    if AsksRestart(es) {
      TroubleFacts(cfg, pick, st, step);
      FirstOfTwo(es, false);
      FirstOfTwo(es, true);
    } else {
      NoneAsked(es, false);
      NoneAsked(es, true);
    }
  }

  lemma BudgetStep(cfg: Settings, pick: Pick, st: Service, step: Step)
    requires !Resets(Apply(cfg, pick, st, step).effects)
    ensures var out := Apply(cfg, pick, st, step);
            && out.placement == st.placement
            && out.generation == st.generation + HealingRestarts(out.effects, true)
            && (if HealingRestarts(out.effects, false) > 0
                then HealingRestarts(out.effects, false) == 1
                    && out.restarts == st.restarts + 1 <= cfg.maxRestartAttempts
                else out.restarts >= st.restarts)
  {
    hide Apply, HealingRestarts;
    OneRestartPerStep(cfg, pick, st, step);
    StepFactsHold(cfg, pick, st, step);
    if TroubleReport(step) {
      TroubleFacts(cfg, pick, st, step);
    }
  }

  lemma {:induction false} BudgetAccumulates(cfg: Settings, pick: Pick, st: Service, steps: seq<Step>, k: nat)
    requires k <= |steps| && NoResets(cfg, pick, st, steps, k)
    ensures var now := StateAt(cfg, pick, st, steps, k);
            && now.placement == st.placement
            && now.generation == st.generation + RestartsDone(cfg, pick, st, steps, k)
            && st.restarts + RestartsAsked(cfg, pick, st, steps, k) <= now.restarts
            && (RestartsAsked(cfg, pick, st, steps, k) > 0 ==>
                  st.restarts + RestartsAsked(cfg, pick, st, steps, k) <= cfg.maxRestartAttempts)
  {
    if k > 0 {
      BudgetAccumulates(cfg, pick, st, steps, k - 1);
      hide Apply, StateAt, HealingRestarts, Resets;
      assert !Resets(EffectsAt(cfg, pick, st, steps, k - 1));
      NextState(cfg, pick, st, steps, k - 1);
      BudgetStep(cfg, pick, StateAt(cfg, pick, st, steps, k - 1), steps[k - 1]);
    }
  }

  /** Between two resets of the counter, self-healing asks for at most `maxRestartAttempts` restarts, the
      placement stays, and the generation grows by exactly the restarts that succeeded. */
  lemma RestartBudget(cfg: Settings, pick: Pick, st: Service, steps: seq<Step>)
    requires NoResets(cfg, pick, st, steps, |steps|)
    ensures var end := Run(cfg, pick, st, steps);
            && end.placement == st.placement
            && end.generation == st.generation + RestartsDone(cfg, pick, st, steps, |steps|)
    ensures RestartsAsked(cfg, pick, st, steps, |steps|) <=
            if cfg.maxRestartAttempts > 0 then cfg.maxRestartAttempts else 0
  {
    hide Apply;
    assert steps[..|steps|] == steps;
    BudgetAccumulates(cfg, pick, st, steps, |steps|);
  }

  // Escalation.

  ghost function AttemptCount(cfg: Settings, pick: Pick, st: Service, steps: seq<Step>, k: nat): nat
    requires k <= |steps|
  {
    if k == 0 then 0
    else AttemptCount(cfg, pick, st, steps, k - 1)
         + (if CountedAttempt(cfg, pick, StateAt(cfg, pick, st, steps, k - 1), steps[k - 1]) then 1 else 0)
  }

  lemma CounterStep(cfg: Settings, pick: Pick, st: Service, step: Step)
    requires !Resets(Apply(cfg, pick, st, step).effects)
    ensures Apply(cfg, pick, st, step).restarts == st.restarts + (if CountedAttempt(cfg, pick, st, step) then 1 else 0)
  {
    hide Apply;
    StepFactsHold(cfg, pick, st, step);
    if Attempts(cfg, pick, st, step) {
      AttemptFacts(cfg, pick, st, step);
    } else if TroubleReport(step) {
      TroubleFacts(cfg, pick, st, step);
    }
  }

  lemma {:induction false} CounterCountsAttempts(cfg: Settings, pick: Pick, st: Service, steps: seq<Step>, k: nat)
    requires k <= |steps| && NoResets(cfg, pick, st, steps, k)
    ensures StateAt(cfg, pick, st, steps, k).restarts == st.restarts + AttemptCount(cfg, pick, st, steps, k)
  {
    if k > 0 {
      CounterCountsAttempts(cfg, pick, st, steps, k - 1);
      hide Apply, StateAt, CountedAttempt, Resets;
      assert !Resets(EffectsAt(cfg, pick, st, steps, k - 1));
      NextState(cfg, pick, st, steps, k - 1);
      CounterStep(cfg, pick, StateAt(cfg, pick, st, steps, k - 1), steps[k - 1]);
    }
  }

  /** Counting from a reset: a counted attempt restarts in place if it is among the first `maxRestartAttempts` and its
      node is known; every other one is a reschedule, which moves the service or raises the counter.  So the escalation
      measure max + 1 - counter runs out. */
  lemma EscalationOrder(cfg: Settings, pick: Pick, st: Service, steps: seq<Step>, k: nat)
    requires k < |steps| && st.restarts == 0 && NoResets(cfg, pick, st, steps, k)
    requires CountedAttempt(cfg, pick, StateAt(cfg, pick, st, steps, k), steps[k])
    ensures var previous, next := StateAt(cfg, pick, st, steps, k), StateAt(cfg, pick, st, steps, k + 1);
            var es := EffectsAt(cfg, pick, st, steps, k);
            && previous.placement.Some? && previous.desired.Some?
            && (AsksRestart(es) <==>
                  && AttemptCount(cfg, pick, st, steps, k) < cfg.maxRestartAttempts
                  && FindNode(steps[k].env.nodes, previous.placement.value.nodeId).Some?)
            && (!AsksRestart(es) ==>
                  (Resets(es) <==> RescheduleSucceeds(pick, previous, previous.placement.value.nodeId, steps[k].env)))
            && (Resets(es) || next.restarts == AttemptCount(cfg, pick, st, steps, k) + 1)
  {
    hide Apply, StateAt, RescheduleSucceeds, WithoutNode;
    CounterCountsAttempts(cfg, pick, st, steps, k);
    NextState(cfg, pick, st, steps, k);
    AttemptFacts(cfg, pick, StateAt(cfg, pick, st, steps, k), steps[k]);
  }

  /** An exhausted attempt moves the service exactly when another node is eligible and its agent accepts: then it
      runs on that healthy node with a fresh budget. */
  lemma EscalationMoves(cfg: Settings, st: Service, step: Step)
    requires CountedAttempt(cfg, LEAST_LOAD, st, step) && st.restarts >= cfg.maxRestartAttempts
    ensures st.placement.Some? && st.desired.Some?
    ensures var out := Apply(cfg, LEAST_LOAD, st, step);
            var current := st.placement.value.nodeId;
            && (Resets(out.effects) <==>
                  && step.env.deployReply.Accepted?
                  && exists n :: n in step.env.nodesAgain && n.nodeId != current
                                 && Scheduler.Eligible(st.desired.value.service, n))
            && (Resets(out.effects) ==>
                  && out.restarts == 0 && out.IsObserved(Running) && out.pending.None?
                  && out.placement.Some? && out.placement.value.nodeId != current
                  && exists n :: n in step.env.nodesAgain && n.nodeId == out.placement.value.nodeId
                                 && n.status == Healthy && Scheduler.Eligible(st.desired.value.service, n))
  {
    hide Apply;
    AttemptFacts(cfg, LEAST_LOAD, st, step);
    TroubleFacts(cfg, LEAST_LOAD, st, step);
    var others := WithoutNode(step.env.nodesAgain, st.placement.value.nodeId);
    var spec := st.desired.value.service;
    Scheduler.ChoiceIsLexicographicMinimum(spec, others);
    if Scheduler.Choose(spec, others).Some? {
      Scheduler.ChosenNodeIsPresent(spec, others);
    }
  }

  /** Escalation terminates: counting from a reset, the first counted attempt after `maxRestartAttempts` others that
      meets another eligible node and an accepting agent moves the service to a different healthy node with a fresh
      budget. */
  lemma EscalationTerminates(cfg: Settings, st: Service, steps: seq<Step>, k: nat)
    requires k < |steps| && st.restarts == 0 && NoResets(cfg, LEAST_LOAD, st, steps, k)
    requires CountedAttempt(cfg, LEAST_LOAD, StateAt(cfg, LEAST_LOAD, st, steps, k), steps[k])
    requires AttemptCount(cfg, LEAST_LOAD, st, steps, k) >= cfg.maxRestartAttempts
    requires steps[k].env.deployReply.Accepted?
    requires var previous := StateAt(cfg, LEAST_LOAD, st, steps, k);
             previous.placement.Some? && previous.desired.Some? &&
             exists n :: n in steps[k].env.nodesAgain && n.nodeId != previous.placement.value.nodeId
                         && Scheduler.Eligible(previous.desired.value.service, n)
    ensures var previous, next := StateAt(cfg, LEAST_LOAD, st, steps, k), StateAt(cfg, LEAST_LOAD, st, steps, k + 1);
            && next.restarts == 0 && next.IsObserved(Running) && next.pending.None? && next.placement.Some?
            && next.placement.value.nodeId != previous.placement.value.nodeId
            && exists n :: n in steps[k].env.nodesAgain && n.nodeId == next.placement.value.nodeId
                           && n.status == Healthy
  {
    hide Apply, StateAt, AttemptCount, NoResets, Resets, CountedAttempt, Scheduler.Eligible;
    CounterCountsAttempts(cfg, LEAST_LOAD, st, steps, k);
    NextState(cfg, LEAST_LOAD, st, steps, k);
    EscalationMoves(cfg, StateAt(cfg, LEAST_LOAD, st, steps, k), steps[k]);
  }
}
