// The per-generation recovery guard inside the service lock: it is always free when it is tried, so it never refuses;
// and every handler that took a lock can give it back within a bounded number of its own steps.

module RecoveryGuard {
  import opened Models
  import opened Lifecycle
  import opened Coroutines
  import opened HandlerCode
  import opened HandlerDiscipline
  import opened Serialisability
  import opened ConcurrentRuns

  /** The handler is somewhere on an orderly run. */
  ghost predicate OnOrderlyRun(c: Config)
  {
    exists free: bool, synced: bool, n: nat :: n <= MAX_STEPS && Proper(c, free, synced, n)
  }

  lemma AdvanceStaysOrderly(c: Config, nodes: NodeList)
    requires OnOrderlyRun(c)
    ensures OnOrderlyRun(Advance(c, nodes))
  {
    hide Proper;
    if !c.code.Done? {
      var free: bool, synced: bool, n: nat :| n <= MAX_STEPS && Proper(c, free, synced, n);
      StepKeepsProper(c, nodes, free, synced, n);
    }
  }

  lemma {:induction false} SoloStaysOrderly(c: Config, tables: seq<NodeList>)
    requires OnOrderlyRun(c)
    ensures OnOrderlyRun(Solo(c, tables))
    decreases |tables|
  {
    hide OnOrderlyRun, Advance;
    if tables != [] {
      AdvanceStaysOrderly(c, tables[0]);
      SoloStaysOrderly(Advance(c, tables[0]), tables[1..]);
    }
  }

  lemma GuardIsFree(c: Config)
    requires OnOrderlyRun(c) && (c.code.Done? || c.code.TryAcquireRecovery?)
    ensures c.st.activeRecovery.None?
  {
  }

  /** The visits of s before the n-th are over. */
  ghost predicate EarlierFinished(visits: seq<Visit>, n: nat, s: ServiceId)
    requires n <= |visits|
  {
    forall k :: 0 <= k < n && visits[k].job.service == s ==> Finished(visits, k)
  }

  lemma VisitStaysOrderly(cfg: Settings, pick: Pick, visits: seq<Visit>, n: nat)
    requires n < |visits| && IsHandler(cfg, pick, visits[n].job)
    requires Serial(visits[..n], visits[n].job.service).activeRecovery.None?
    ensures OnOrderlyRun(Reached(visits, n))
  {
    hide CodeOf, Solo, Serial, Orderly;
    var v := visits[n];
    var request, o :| v.job.code == CodeOf(cfg, pick, request, o) && For(request, v.job.service);
    HandlersAreOrderly(cfg, pick, request, o);
    var c := Config(v.job.code, Serial(visits[..n], v.job.service));
    assert Proper(c, true, false, MAX_STEPS);
    SoloStaysOrderly(c, v.tables);
  }

  lemma {:induction false} GuardFreeBetweenVisits(cfg: Settings, pick: Pick, visits: seq<Visit>, n: nat, s: ServiceId)
    requires n <= |visits| && EarlierFinished(visits, n, s)
    requires forall k :: 0 <= k < n ==> IsHandler(cfg, pick, visits[k].job)
    ensures Serial(visits[..n], s).activeRecovery.None?
  {
    hide IsHandler, Solo, OnOrderlyRun;
    if n > 0 {
      GuardFreeBetweenVisits(cfg, pick, visits, n - 1, s);
      assert visits[..n][..n - 1] == visits[..n - 1];
      if visits[n - 1].job.service == s {
        assert Finished(visits, n - 1);
        VisitStaysOrderly(cfg, pick, visits, n - 1);
        GuardIsFree(Reached(visits, n - 1));
      }
    }
  }

  /** A handler inside the lock of a reachable world is on an orderly run on the service's own record. */
  lemma InsideIsOrderly(cfg: Settings, pick: Pick, nodes: NodeList, ms: seq<Move>, i: nat)
    requires Feasible(Start(nodes), ms) && ArrivalsAreHandlers(cfg, pick, ms)
    requires i < |After(Start(nodes), ms).tasks| && After(Start(nodes), ms).tasks[i].phase.Inside?
    ensures var w := After(Start(nodes), ms);
            OnOrderlyRun(Config(w.tasks[i].phase.rest, RecordOf(w, w.tasks[i].job.service)))
  {
    hide IsHandler, Finished, Serial, Feasible, After, Reached, OnOrderlyRun;
    StartIsSerial(nodes);
    EveryInterleavingIsSerial(Start(nodes), ms);
    OnlyHandlersRun(cfg, pick, Start(nodes), ms);
    var w := After(Start(nodes), ms);
    var k, s := w.tasks[i].phase.visit, w.tasks[i].job.service;
    assert OnTrack(w.visits, w.tasks[i]);
    EarlierVisitorsFinished(w, i);
    GuardFreeBetweenVisits(cfg, pick, w.visits, k, s);
    VisitStaysOrderly(cfg, pick, w.visits, k);
    LastVisitor(w.visits, k, nodes);
  }

  /** In any interleaving, whenever a handler is about to try the recovery guard, the guard is free: it
      never refuses. */
  lemma GuardNeverRefuses(cfg: Settings, pick: Pick, nodes: NodeList, ms: seq<Move>, i: nat)
    requires Feasible(Start(nodes), ms) && ArrivalsAreHandlers(cfg, pick, ms)
    requires var w := After(Start(nodes), ms);
             i < |w.tasks| && w.tasks[i].phase.Inside? && w.tasks[i].phase.rest.TryAcquireRecovery?
    ensures var w := After(Start(nodes), ms); RecordOf(w, w.tasks[i].job.service).activeRecovery.None?
  {
    hide IsHandler, Feasible, After, OnOrderlyRun;
    InsideIsOrderly(cfg, pick, nodes, ms, i);
    var w := After(Start(nodes), ms);
    GuardIsFree(Config(w.tasks[i].phase.rest, RecordOf(w, w.tasks[i].job.service)));
  }

  /** Left to itself, a handler on an orderly run gives its lock back after at most n steps of its own. */
  lemma {:induction false} LeavesAlone(w: World, i: nat, free: bool, synced: bool, n: nat) returns (ms: seq<Move>)
    requires i < |w.tasks| && w.tasks[i].phase.Inside?
    requires Proper(Config(w.tasks[i].phase.rest, RecordOf(w, w.tasks[i].job.service)), free, synced, n)
    ensures Feasible(w, ms) && |ms| <= n + 1 && (forall m :: m in ms ==> m == RunStep(i) || m == ReleaseLock(i))
    ensures |After(w, ms).tasks| == |w.tasks| && After(w, ms).tasks[i].phase.Left?
    decreases n
  {
    hide Proper, Advance;
    if w.tasks[i].phase.rest.Done? {
      ms := [ReleaseLock(i)];
      assert ms[1..] == [];
    } else {
      var c := Config(w.tasks[i].phase.rest, RecordOf(w, w.tasks[i].job.service));
      StepKeepsProper(c, w.nodes, free, synced, n);
      var next := Moved(w, RunStep(i));
      var rest := LeavesAlone(next, i, FreeAfter(c.code, free), SyncedAfter(c.code, synced), n - 1);
      ms := [RunStep(i)] + rest;
      assert ms[1..] == rest;
    }
  }

  /** Every handler that took a lock can give it back within 24 steps of its own. */
  lemma EveryLockCanBeReleased(cfg: Settings, pick: Pick, nodes: NodeList, ms: seq<Move>, i: nat)
      returns (more: seq<Move>)
    requires Feasible(Start(nodes), ms) && ArrivalsAreHandlers(cfg, pick, ms)
    requires i < |After(Start(nodes), ms).tasks| && After(Start(nodes), ms).tasks[i].phase.Inside?
    ensures var w := After(Start(nodes), ms);
            && Feasible(w, more) && |more| <= MAX_STEPS + 1
            && |After(w, more).tasks| == |w.tasks| && After(w, more).tasks[i].phase.Left?
  {
    hide IsHandler, Feasible, After, Proper;
    InsideIsOrderly(cfg, pick, nodes, ms, i);
    var w := After(Start(nodes), ms);
    var c := Config(w.tasks[i].phase.rest, RecordOf(w, w.tasks[i].job.service));
    var free: bool, synced: bool, n: nat :| n <= MAX_STEPS && Proper(c, free, synced, n);
    more := LeavesAlone(w, i, free, synced, n);
  }

  /** Everyone who entered before the handler inside has left. */
  lemma EarlierVisitorsFinished(w: World, i: nat)
    requires Serialised(w) && i < |w.tasks| && w.tasks[i].phase.Inside? && w.tasks[i].phase.visit < |w.visits|
    ensures EarlierFinished(w.visits, w.tasks[i].phase.visit, w.tasks[i].job.service)
  {
    hide Finished, Reached, Serial, OnTrack, OneInside;
    forall n | 0 <= n < w.tasks[i].phase.visit && w.visits[n].job.service == w.tasks[i].job.service
      ensures Finished(w.visits, n) {
      if StillInside(w.tasks, n) {
        var j :| 0 <= j < |w.tasks| && w.tasks[j].phase.Inside? && w.tasks[j].phase.visit == n;
        SoleVisitor(w, i, j);
      }
    }
  }

  lemma SoleVisitor(w: World, i: nat, j: nat)
    requires OneInside(w) && Tracked(w) && i < |w.tasks| && j < |w.tasks| && w.tasks[i].phase.Inside?
      && w.tasks[j].phase.Inside?
    ensures w.tasks[j].phase.visit < |w.visits|
    ensures w.visits[w.tasks[j].phase.visit].job.service == w.tasks[i].job.service ==> i == j
  {
    hide Reached, Finished;
    assert OnTrack(w.visits, w.tasks[j]);
  }
}
