// The controller's handlers in any interleaving: each service goes through a run of module Lifecycle, so every theorem
// about runs holds of the concurrent controller.

module ConcurrentRuns {
  import opened Models
  import opened Lifecycle
  import opened Coroutines
  import opened HandlerCode
  import opened Serialisability
  import opened SystemInvariant

  /** The job is a handler of the managers, dispatched to the service it names. */
  ghost predicate IsHandler(cfg: Settings, pick: Pick, job: Job)
  {
    exists request, o :: job.code == CodeOf(cfg, pick, request, o) && For(request, job.service)
  }

  predicate For(request: Request, s: ServiceId)
  {
    && (request.DeployRequest? ==> request.spec.serviceId == s)
    && (request.UnreachableRequest? ==> request.listed.serviceId == s)
  }

  ghost predicate HandlersOnly(cfg: Settings, pick: Pick, w: World)
  {
    && (forall i :: 0 <= i < |w.tasks| ==> IsHandler(cfg, pick, w.tasks[i].job))
    && (forall n :: 0 <= n < |w.visits| ==> IsHandler(cfg, pick, w.visits[n].job))
  }

  ghost predicate ArrivalsAreHandlers(cfg: Settings, pick: Pick, ms: seq<Move>)
  {
    forall i :: 0 <= i < |ms| && ms[i].Arrive? ==> IsHandler(cfg, pick, ms[i].job)
  }

  lemma MoveKeepsHandlers(cfg: Settings, pick: Pick, w: World, m: Move)
    requires HandlersOnly(cfg, pick, w) && Possible(w, m) && (m.Arrive? ==> IsHandler(cfg, pick, m.job))
    ensures HandlersOnly(cfg, pick, Moved(w, m))
  {
    hide IsHandler, Advance;
  }

  lemma {:induction false} OnlyHandlersRun(cfg: Settings, pick: Pick, w: World, ms: seq<Move>)
    requires HandlersOnly(cfg, pick, w) && Feasible(w, ms) && ArrivalsAreHandlers(cfg, pick, ms)
    ensures HandlersOnly(cfg, pick, After(w, ms))
    decreases |ms|
  {
    hide IsHandler, HandlersOnly, Moved, Possible;
    if ms != [] {
      assert ms[0].Arrive? ==> IsHandler(cfg, pick, ms[0].job);
      MoveKeepsHandlers(cfg, pick, w, ms[0]);
      assert forall i :: 0 <= i < |ms[1..]| ==> ms[1..][i] == ms[i + 1];
      OnlyHandlersRun(cfg, pick, Moved(w, ms[0]), ms[1..]);
    }
  }

  predicate LockIsFree(w: World, s: ServiceId)
  {
    forall i :: 0 <= i < |w.tasks| && w.tasks[i].phase.Inside? ==> w.tasks[i].job.service != s
  }

  /** The visits of one service, in their order. */
  function VisitsOf(visits: seq<Visit>, s: ServiceId): seq<Visit>
  {
    if visits == [] then []
    else
      var earlier := VisitsOf(visits[..|visits| - 1], s);
      var v := visits[|visits| - 1];
      if v.job.service == s then earlier + [v] else earlier
  }

  /** The step is what the visiting handler does to this record, with exactly the node tables it read during
      the visit. */
  ghost predicate StepOfVisit(cfg: Settings, pick: Pick, v: Visit, before: Service, step: Step)
  {
    exists request, o ::
      && v.job.code == CodeOf(cfg, pick, request, o) && For(request, v.job.service)
      && step == StepOf(request, EnvOf(Reads(Config(v.job.code, before), v.tables), o))
  }

  ghost predicate StepsOfVisits(cfg: Settings, pick: Pick, visits: seq<Visit>, st: Service, steps: seq<Step>)
  {
    && |steps| == |visits|
    && forall k :: 0 <= k < |steps| ==> StepOfVisit(cfg, pick, visits[k], Run(cfg, pick, st, steps[..k]), steps[k])
  }

  ghost predicate VisitsFinished(cfg: Settings, pick: Pick, visits: seq<Visit>, s: ServiceId)
  {
    forall n :: 0 <= n < |visits| && visits[n].job.service == s ==>
      Finished(visits, n) && IsHandler(cfg, pick, visits[n].job)
  }

  lemma VisitIsAStep(cfg: Settings, pick: Pick, v: Visit, before: Service, out: Service) returns (step: Step)
    requires IsHandler(cfg, pick, v.job) && Solo(Config(v.job.code, before), v.tables) == Config(Done, out)
    ensures out == Apply(cfg, pick, before, step) && StepOfVisit(cfg, pick, v, before, step)
  {
    hide CodeOf, Solo, Apply, Reads;
    var request, o :| v.job.code == CodeOf(cfg, pick, request, o) && For(request, v.job.service);
    var seen := Reads(Config(v.job.code, before), v.tables);
    assert Ends(v.job.code, before, seen, out);
    CodeMeans(cfg, pick, request, o, before, seen, out);
    step := StepOf(request, EnvOf(seen, o));
  }

  lemma {:induction false} FinishedVisitsAreARun(cfg: Settings, pick: Pick, visits: seq<Visit>, s: ServiceId)
    returns (steps: seq<Step>)
    requires VisitsFinished(cfg, pick, visits, s)
    ensures StepsOfVisits(cfg, pick, VisitsOf(visits, s), Fresh(s), steps)
    ensures Serial(visits, s) == Run(cfg, pick, Fresh(s), steps)
    decreases |visits|
  {
    hide Solo, IsHandler, StepOfVisit, Apply;
    if visits == [] {
      return [];
    }
    var last := |visits| - 1;
    var earlier := visits[..last];
    assert forall n :: 0 <= n < last ==> earlier[..n] == visits[..n];
    steps := FinishedVisitsAreARun(cfg, pick, earlier, s);
    var v := visits[last];
    if v.job.service == s {
      var before := Serial(earlier, s);
      assert Finished(visits, last);
      var step := VisitIsAStep(cfg, pick, v, before, Serial(visits, s));
      RunAppend(cfg, pick, Fresh(s), steps, [step]);
      RunOne(cfg, pick, before, step);
      OneMoreStep(cfg, pick, VisitsOf(earlier, s), Fresh(s), steps, v, step);
      steps := steps + [step];
    }
  }

  lemma OneMoreStep(cfg: Settings, pick: Pick, visits: seq<Visit>, st: Service, steps: seq<Step>, v: Visit, step: Step)
    requires StepsOfVisits(cfg, pick, visits, st, steps) && StepOfVisit(cfg, pick, v, Run(cfg, pick, st, steps), step)
    ensures StepsOfVisits(cfg, pick, visits + [v], st, steps + [step])
  {
    hide StepOfVisit, Run;
    var all := steps + [step];
    forall k | 0 <= k < |all| ensures StepOfVisit(cfg, pick, (visits + [v])[k], Run(cfg, pick, st, all[..k]), all[k]) {
      assert all[..k] == if k < |steps| then steps[..k] else steps;
    }
  }

  lemma RunOne(cfg: Settings, pick: Pick, st: Service, step: Step)
    ensures Run(cfg, pick, st, [step]) == Apply(cfg, pick, st, step)
  {
    hide Apply;
    assert [step][1..] == [];
  }

  lemma VisitorsFinishOrHoldTheLock(w: World, n: nat)
    requires Tracked(w) && n < |w.visits|
    ensures Finished(w.visits, n) || !LockIsFree(w, w.visits[n].job.service)
  {
    hide Finished, Reached;
    if StillInside(w.tasks, n) {
      var i :| 0 <= i < |w.tasks| && w.tasks[i].phase.Inside? && w.tasks[i].phase.visit == n;
      InsideMadeItsVisit(w, i);
    }
  }

  lemma InsideMadeItsVisit(w: World, i: nat)
    requires Tracked(w) && i < |w.tasks| && w.tasks[i].phase.Inside?
    ensures w.tasks[i].phase.visit < |w.visits| && w.visits[w.tasks[i].phase.visit].job == w.tasks[i].job
  {
    assert OnTrack(w.visits, w.tasks[i]);
  }

  /** Whenever the lock of a service is free, in any interleaving, the service has gone through a run whose steps are
      the handlers that took its lock, in that order, each with the node tables it read. */
  lemma ServiceWentThroughARun(cfg: Settings, pick: Pick, nodes: NodeList, ms: seq<Move>, s: ServiceId)
    returns (steps: seq<Step>)
    requires Feasible(Start(nodes), ms) && ArrivalsAreHandlers(cfg, pick, ms)
    requires LockIsFree(After(Start(nodes), ms), s)
    ensures var w := After(Start(nodes), ms);
            StepsOfVisits(cfg, pick, VisitsOf(w.visits, s), Fresh(s), steps)
                && RecordOf(w, s) == Run(cfg, pick, Fresh(s), steps)
  {
    hide IsHandler, StepsOfVisits, Finished, Serial, Run, Feasible, After, LockIsFree;
    StartIsSerial(nodes);
    EveryInterleavingIsSerial(Start(nodes), ms);
    OnlyHandlersRun(cfg, pick, Start(nodes), ms);
    var w := After(Start(nodes), ms);
    forall n | 0 <= n < |w.visits| && w.visits[n].job.service == s ensures Finished(w.visits, n) {
      VisitorsFinishOrHoldTheLock(w, n);
    }
    steps := FinishedVisitsAreARun(cfg, pick, w.visits, s);
  }

  /** No node-unreachable handler of the run met a stopped service. */
  ghost predicate NoneStoppedBehindTheList(cfg: Settings, pick: Pick, st: Service, steps: seq<Step>)
  {
    forall k :: 0 <= k < |steps| ==> !StoppedBehindTheList(Run(cfg, pick, st, steps[..k]), steps[k])
  }

  lemma {:induction false} ListsHoldAlong(cfg: Settings, pick: Pick, st: Service, steps: seq<Step>)
    requires Sound(st) && NoneStoppedBehindTheList(cfg, pick, st, steps)
    requires forall k :: 0 <= k < |steps| ==> Addressed(st, steps[k])
    ensures ListsHold(cfg, pick, st, steps)
    decreases |steps|
  {
    hide Apply, Sound, StoppedBehindTheList;
    if steps != [] {
      assert steps[..0] == [];
      var next := Apply(cfg, pick, st, steps[0]);
      StepKeepsInvariant(cfg, pick, st, steps[0]);
      forall k | 0 <= k < |steps[1..]|
        ensures !StoppedBehindTheList(Run(cfg, pick, next, steps[1..][..k]), steps[1..][k]) {
        assert steps[..k + 1][1..] == steps[1..][..k] && steps[..k + 1][0] == steps[0];
        assert !StoppedBehindTheList(Run(cfg, pick, st, steps[..k + 1]), steps[k + 1]);
      }
      ListsHoldAlong(cfg, pick, next, steps[1..]);
    }
  }

  /** The invariant of the sequential controller holds of the concurrent one: in any interleaving, whenever the lock of
      a service is free, the service is sound, unless a node-unreachable handler met it after it had been stopped. */
  lemma UnlockedServicesAreSound(cfg: Settings, pick: Pick, nodes: NodeList, ms: seq<Move>, s: ServiceId)
    returns (steps: seq<Step>)
    requires Feasible(Start(nodes), ms) && ArrivalsAreHandlers(cfg, pick, ms)
    requires LockIsFree(After(Start(nodes), ms), s)
    ensures StepsOfVisits(cfg, pick, VisitsOf(After(Start(nodes), ms).visits, s), Fresh(s), steps)
    ensures NoneStoppedBehindTheList(cfg, pick, Fresh(s), steps) ==> Sound(RecordOf(After(Start(nodes), ms), s))
  {
    hide Feasible, After, VisitsOf, StepOfVisit, Run, Sound, NoneStoppedBehindTheList;
    steps := ServiceWentThroughARun(cfg, pick, nodes, ms, s);
    if NoneStoppedBehindTheList(cfg, pick, Fresh(s), steps) {
      var w := After(Start(nodes), ms);
      forall k | 0 <= k < |steps| ensures Addressed(Fresh(s), steps[k]) {
        VisitsAreTheService(w.visits, s, k);
        StepIsAddressed(cfg, pick, VisitsOf(w.visits, s)[k], Run(cfg, pick, Fresh(s), steps[..k]), steps[k]);
      }
      FreshIsSound(s);
      ListsHoldAlong(cfg, pick, Fresh(s), steps);
      RunKeepsInvariant(cfg, pick, Fresh(s), steps);
    }
  }

  lemma FreshIsSound(s: ServiceId)
    ensures Sound(Fresh(s))
  {
  }

  lemma StepIsAddressed(cfg: Settings, pick: Pick, v: Visit, before: Service, step: Step)
    requires StepOfVisit(cfg, pick, v, before, step)
    ensures Addressed(Fresh(v.job.service), step)
  {
    hide CodeOf;
  }

  lemma {:induction false} VisitsAreTheService(visits: seq<Visit>, s: ServiceId, k: nat)
    requires k < |VisitsOf(visits, s)|
    ensures VisitsOf(visits, s)[k].job.service == s
  {
    if k < |VisitsOf(visits[..|visits| - 1], s)| {
      VisitsAreTheService(visits[..|visits| - 1], s, k);
    }
  }
}
