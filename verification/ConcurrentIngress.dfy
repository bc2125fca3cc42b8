// The upstream file while handlers of all services interleave: `sync_service` returns at once for every service but the
// active one, whose handlers hold its service lock, so the file follows that service's handlers one at a time.

module ConcurrentIngress {
  import opened Models
  import opened Lifecycle
  import opened Agents
  import opened Coroutines
  import opened HandlerCode
  import opened HandlerDiscipline
  import opened Serialisability
  import opened ConcurrentRuns
  import opened RecoveryGuard
  import opened Ingress
  import StepFacts

  /** The notification of the ingress manager is the step that writes the file. */
  ghost function FileStep(ing: IngressSettings, s: ServiceId, answers: Answers, c: Config, nodes: NodeList,
                          file: string): string
  {
    if c.code.Do? && c.code.write == Call(IngressSync) then Synced(ing, file, s, Decide(c.st, nodes, answers)) else file
  }

  /** The file after one move; `answers(i)` is what task i would read from the agent. */
  ghost function FileMove(ing: IngressSettings, answers: nat -> Answers, w: World, m: Move, file: string): string
    requires Possible(w, m)
  {
    if !m.RunStep? then file
    else
      var t := w.tasks[m.task];
      FileStep(ing, t.job.service, answers(m.task), Config(t.phase.rest, RecordOf(w, t.job.service)), w.nodes, file)
  }

  ghost function FileRun(ing: IngressSettings, answers: nat -> Answers, w: World, ms: seq<Move>, file: string): string
    requires Feasible(w, ms)
    decreases |ms|
  {
    if ms == [] then file else FileRun(ing, answers, Moved(w, ms[0]), ms[1..], FileMove(ing, answers, w, ms[0], file))
  }

  /** The file after a handler ran alone. */
  ghost function FileSolo(ing: IngressSettings, s: ServiceId, answers: Answers, c: Config, tables: seq<NodeList>,
                          file: string): string
    decreases |tables|
  {
    if tables == [] then file
    else FileSolo(ing, s, answers, Advance(c, tables[0]), tables[1..], FileStep(ing, s, answers, c, tables[0], file))
  }

  lemma {:induction false} FileSoloSnoc(ing: IngressSettings, s: ServiceId, answers: Answers, c: Config,
                                        tables: seq<NodeList>, nodes: NodeList, file: string)
    ensures FileSolo(ing, s, answers, c, tables + [nodes], file) ==
            FileStep(ing, s, answers, Solo(c, tables), nodes, FileSolo(ing, s, answers, c, tables, file))
    decreases |tables|
  {
    hide FileStep, Advance;
    if tables == [] {
      assert [] + [nodes] == [nodes] && [nodes][1..] == [];
    } else {
      assert (tables + [nodes])[1..] == tables[1..] + [nodes];
      FileSoloSnoc(ing, s, answers, Advance(c, tables[0]), tables[1..], nodes,
                   FileStep(ing, s, answers, c, tables[0], file));
    }
  }

  // One handler.

  /** The file is what one sync of this very state makes of the file before, if the effects name a sync. */
  ghost predicate FileExplained(ing: IngressSettings, s: ServiceId, answers: Answers, st: Service, before: string,
                                file: string)
  {
    if StepFacts.Syncs(st.effects) then exists nodes :: file == Synced(ing, before, s, Decide(st, nodes, answers))
    else file == before
  }

  /** The upstream target depends on status and placement only. */
  lemma SameTarget(a: Service, b: Service, nodes: NodeList, answers: Answers)
    requires a.IsObserved(Running) == b.IsObserved(Running) && a.placement == b.placement
    ensures Decide(a, nodes, answers) == Decide(b, nodes, answers)
  {
  }

  lemma WriteExplained(ing: IngressSettings, s: ServiceId, answers: Answers, w: Write, st: Service, before: string,
                       file: string)
    requires FileExplained(ing, s, answers, st, before, file) && w != Call(IngressSync)
    requires StepFacts.Syncs(st.effects) ==> AfterSync(w)
    ensures FileExplained(ing, s, answers, Perform(w, st), before, file)
    ensures StepFacts.Syncs(Perform(w, st).effects) == StepFacts.Syncs(st.effects)
  {
    hide Decide, Synced;
    var next := Perform(w, st);
    if StepFacts.Syncs(st.effects) {
      var nodes :| file == Synced(ing, before, s, Decide(st, nodes, answers));
      SameTarget(st, next, nodes, answers);
      assert file == Synced(ing, before, s, Decide(next, nodes, answers));
    }
  }

  lemma SyncExplained(ing: IngressSettings, s: ServiceId, answers: Answers, st: Service, nodes: NodeList,
                      before: string)
    ensures FileExplained(ing, s, answers, st.Did(IngressSync), before,
                          Synced(ing, before, s, Decide(st, nodes, answers)))
    ensures StepFacts.Syncs(st.Did(IngressSync).effects)
  {
    hide Decide, Synced;
    SameTarget(st, st.Did(IngressSync), nodes, answers);
  }

  lemma StepExplained(ing: IngressSettings, s: ServiceId, answers: Answers, c: Config, nodes: NodeList, before: string,
                      file: string,
                      free: bool, synced: bool, n: nat)
    requires Proper(c, free, synced, n) && synced == StepFacts.Syncs(c.st.effects)
    requires FileExplained(ing, s, answers, c.st, before, file)
    ensures var next := Advance(c, nodes);
            && FileExplained(ing, s, answers, next.st, before, FileStep(ing, s, answers, c, nodes, file))
            && (!c.code.Done? ==> SyncedAfter(c.code, synced) == StepFacts.Syncs(next.st.effects))
  {
    hide Decide, Synced, StepFacts.Syncs;
    if c.code.Do? {
      if c.code.write == Call(IngressSync) {
        SyncExplained(ing, s, answers, c.st, nodes, file);
      } else {
        WriteExplained(ing, s, answers, c.code.write, c.st, before, file);
      }
    } else {
      var next := Advance(c, nodes).st;
      assert next.effects == c.st.effects && next.observed == c.st.observed && next.placement == c.st.placement;
      if StepFacts.Syncs(c.st.effects) {
        var table :| file == Synced(ing, before, s, Decide(c.st, table, answers));
        SameTarget(c.st, next, table, answers);
        assert file == Synced(ing, before, s, Decide(next, table, answers));
      }
    }
  }

  lemma {:induction false} SoloExplained(ing: IngressSettings, s: ServiceId, answers: Answers, c: Config,
                                         tables: seq<NodeList>,
                                         before: string, file: string, free: bool, synced: bool, n: nat)
    requires Proper(c, free, synced, n) && synced == StepFacts.Syncs(c.st.effects)
    requires FileExplained(ing, s, answers, c.st, before, file)
    ensures FileExplained(ing, s, answers, Solo(c, tables).st, before, FileSolo(ing, s, answers, c, tables, file))
    decreases |tables|
  {
    hide Proper, Advance, FileExplained, StepFacts.Syncs, FileStep;
    if tables != [] {
      var next := Advance(c, tables[0]);
      StepExplained(ing, s, answers, c, tables[0], before, file, free, synced, n);
      var now := FileStep(ing, s, answers, c, tables[0], file);
      if c.code.Done? {
        DoneAdvance(c, tables[0]);
        SoloExplained(ing, s, answers, next, tables[1..], before, now, free, synced, n);
      } else {
        StepKeepsProper(c, tables[0], free, synced, n);
        SoloExplained(ing, s, answers, next, tables[1..], before, now, FreeAfter(c.code, free),
                      SyncedAfter(c.code, synced), n - 1);
      }
    }
  }

  lemma DoneAdvance(c: Config, nodes: NodeList)
    requires c.code.Done?
    ensures Advance(c, nodes) == c
  {
  }

  lemma StartsByEntering(cfg: Settings, pick: Pick, request: Request, o: Outcomes)
    ensures CodeOf(cfg, pick, request, o).Do? && CodeOf(cfg, pick, request, o).write == Enter
  {
  }

  /** A visit of the active service that ran to its end keeps the file safe. */
  lemma VisitKeepsFileSafe(cfg: Settings, ing: IngressSettings, pick: Pick, job: Job, answers: Answers, base: Service,
                           tables: seq<NodeList>, before: string)
    requires ing.enabled && job.service == ing.activeService == base.id && IsHandler(cfg, pick, job)
    requires base.activeRecovery.None? && FileSafe(ing, before, base)
    requires Solo(Config(job.code, base), tables).code.Done?
    ensures FileSafe(ing, FileSolo(ing, job.service, answers, Config(job.code, base), tables, before),
                     Solo(Config(job.code, base), tables).st)
  {
    hide CodeOf, Apply, FileSafe, Orderly, FileExplained, StepFacts.Syncs, Reads, Decide, Synced;
    var c := Config(job.code, base);
    var request, o :| job.code == CodeOf(cfg, pick, request, o) && For(request, job.service);
    StartsByEntering(cfg, pick, request, o);
    HandlersAreOrderly(cfg, pick, request, o);
    var entered := Advance(c, tables[0]);
    StepKeepsProper(c, tables[0], true, false, MAX_STEPS);
    NothingYet(ing, job.service, answers, entered.st, before);
    SoloExplained(ing, job.service, answers, entered, tables[1..], before, before, true, false, MAX_STEPS - 1);
    var out, file := Solo(c, tables).st, FileSolo(ing, job.service, answers, c, tables, before);
    assert Ends(job.code, base, Reads(c, tables), out);
    CodeMeans(cfg, pick, request, o, base, Reads(c, tables), out);
    ExplainedIsSafe(cfg, ing, pick, base, StepOf(request, EnvOf(Reads(c, tables), o)), answers, before, file);
  }

  lemma NothingYet(ing: IngressSettings, s: ServiceId, answers: Answers, st: Service, before: string)
    requires st.effects == []
    ensures !StepFacts.Syncs(st.effects) && FileExplained(ing, s, answers, st, before, before)
  {
  }

  lemma ExplainedIsSafe(cfg: Settings, ing: IngressSettings, pick: Pick, base: Service, step: Step, answers: Answers,
                        before: string, file: string)
    requires ing.enabled && base.id == ing.activeService && FileSafe(ing, before, base)
    requires FileExplained(ing, base.id, answers, Apply(cfg, pick, base, step), before, file)
    ensures FileSafe(ing, file, Apply(cfg, pick, base, step))
  {
    hide Apply, FileSafe, Decide, Synced;
    var out := Apply(cfg, pick, base, step);
    var nodes: NodeList := [];
    if StepFacts.Syncs(out.effects) {
      nodes :| file == Synced(ing, before, base.id, Decide(out, nodes, answers));
    }
    StepKeepsFileSafe(cfg, ing, pick, base, before, SyncedStep(step, nodes, answers));
  }

  // All handlers.

  /** The visit has brought the file from a safe one to the present one. */
  ghost predicate VisitFollowed(ing: IngressSettings, answers: Answers, visits: seq<Visit>, k: nat, file: string)
  {
    k < |visits| &&
    var s, base := visits[k].job.service, Serial(visits[..k], visits[k].job.service);
    exists before ::
      && FileSafe(ing, before, base)
      && file == FileSolo(ing, s, answers, Config(visits[k].job.code, base), visits[k].tables, before)
  }

  /** The file is safe while the active service's lock is free, and follows the visit of the handler inside
      otherwise. */
  ghost predicate FileTracked(ing: IngressSettings, answers: nat -> Answers, w: World, file: string)
  {
    && (LockIsFree(w, ing.activeService) ==> FileSafe(ing, file, RecordOf(w, ing.activeService)))
    && (forall i :: 0 <= i < |w.tasks| && w.tasks[i].phase.Inside? && w.tasks[i].job.service == ing.activeService ==>
          VisitFollowed(ing, answers(i), w.visits, w.tasks[i].phase.visit, file))
  }

  lemma NewVisitFollowed(ing: IngressSettings, answers: Answers, visits: seq<Visit>, job: Job, file: string)
    requires FileSafe(ing, file, Serial(visits, job.service))
    ensures VisitFollowed(ing, answers, visits + [Visit(job, [])], |visits|, file)
  {
    hide FileSafe, Serial;
    var next := visits + [Visit(job, [])];
    assert next[..|visits|] == visits;
    assert file == FileSolo(ing, job.service, answers, Config(job.code, Serial(visits, job.service)), [], file);
  }

  lemma StepFollowed(ing: IngressSettings, answers: Answers, visits: seq<Visit>, k: nat, nodes: NodeList, file: string)
    requires VisitFollowed(ing, answers, visits, k, file)
    ensures VisitFollowed(ing, answers, Noted(visits, k, nodes), k,
                          FileStep(ing, visits[k].job.service, answers, Reached(visits, k), nodes, file))
  {
    hide FileSafe, Serial, FileSolo, FileStep, Solo;
    var v, next := visits[k], Noted(visits, k, nodes);
    var base := Serial(visits[..k], v.job.service);
    assert next[..k] == visits[..k];
    var before :| FileSafe(ing, before, base)
                  && file == FileSolo(ing, v.job.service, answers, Config(v.job.code, base), v.tables, before);
    FileSoloSnoc(ing, v.job.service, answers, Config(v.job.code, base), v.tables, nodes, before);
  }

  /** Another service's steps leave the file alone. */
  lemma OthersLeaveTheFile(ing: IngressSettings, s: ServiceId, answers: Answers, c: Config, nodes: NodeList,
                           file: string)
    requires s != ing.activeService
    ensures FileStep(ing, s, answers, c, nodes, file) == file
  {
  }

  lemma {:induction false} SerialKeepsId(visits: seq<Visit>, s: ServiceId)
    ensures Serial(visits, s).id == s
    decreases |visits|
  {
    hide Solo;
    if visits != [] {
      SerialKeepsId(visits[..|visits| - 1], s);
      var v := visits[|visits| - 1];
      SoloKeepsId(Config(v.job.code, Serial(visits[..|visits| - 1], s)), v.tables);
    }
  }

  lemma {:induction false} SoloKeepsId(c: Config, tables: seq<NodeList>)
    ensures Solo(c, tables).st.id == c.st.id
    decreases |tables|
  {
    if tables != [] { SoloKeepsId(Advance(c, tables[0]), tables[1..]); }
  }

  lemma RunStepFollowed(ing: IngressSettings, answers: nat -> Answers, w: World, i: nat, file: string)
    requires Serialised(w) && FileTracked(ing, answers, w, file) && Possible(w, RunStep(i))
    ensures FileTracked(ing, answers, Moved(w, RunStep(i)), FileMove(ing, answers, w, RunStep(i), file))
  {
    hide Serial, Reached, Advance, FileStep, VisitFollowed, FileSafe;
    var a, t, k := ing.activeService, w.tasks[i], w.tasks[i].phase.visit;
    var next := Moved(w, RunStep(i));
    assert OnTrack(w.visits, t);
    LastVisitor(w.visits, k, w.nodes);
    assert Config(t.phase.rest, RecordOf(w, t.job.service)) == Reached(w.visits, k);
    if t.job.service == a {
      StepFollowed(ing, answers(i), w.visits, k, w.nodes, file);
      assert next.tasks[i].phase.Inside? && next.tasks[i].job.service == a;
    } else {
      OthersLeaveTheFile(ing, t.job.service, answers(i), Reached(w.visits, k), w.nodes, file);
      forall j | 0 <= j < |next.tasks| && next.tasks[j].phase.Inside? && next.tasks[j].job.service == a
        ensures VisitFollowed(ing, answers(j), next.visits, next.tasks[j].phase.visit, file) {
        assert next.tasks[j] == w.tasks[j] && OnTrack(w.visits, w.tasks[j]);
        NoteElsewhereFollowed(ing, answers(j), w.visits, k, w.nodes, w.tasks[j].phase.visit, file);
      }
      SameFreedom(w, next, a);
    }
  }

  lemma NoteElsewhereFollowed(ing: IngressSettings, answers: Answers, visits: seq<Visit>, k: nat, nodes: NodeList,
                              n: nat, file: string)
    requires k < |visits| && VisitFollowed(ing, answers, visits, n, file)
      && visits[k].job.service != visits[n].job.service
    ensures VisitFollowed(ing, answers, Noted(visits, k, nodes), n, file)
  {
    hide Serial, FileSolo, FileSafe;
    assert Noted(visits, k, nodes)[..n] == Noted(visits[..n], k, nodes);
    SerialAfterNote(visits[..n], k, nodes, visits[n].job.service);
  }

  /** Moves of other services' tasks neither take nor free the lock of a. */
  lemma SameFreedom(w: World, next: World, a: ServiceId)
    requires |w.tasks| <= |next.tasks|
    requires forall j :: 0 <= j < |w.tasks| ==> next.tasks[j] == w.tasks[j] || w.tasks[j].job.service != a
    requires forall j :: |w.tasks| <= j < |next.tasks| ==> !next.tasks[j].phase.Inside?
    ensures LockIsFree(next, a) ==> LockIsFree(w, a)
  {
    if !LockIsFree(w, a) {
      var j :| 0 <= j < |w.tasks| && w.tasks[j].phase.Inside? && w.tasks[j].job.service == a;
      assert next.tasks[j] == w.tasks[j];
    }
  }

  lemma TakeLockFollowed(ing: IngressSettings, answers: nat -> Answers, w: World, i: nat, file: string)
    requires Serialised(w) && FileTracked(ing, answers, w, file) && Possible(w, TakeLock(i))
    ensures FileTracked(ing, answers, Moved(w, TakeLock(i)), file)
  {
    hide Serial, Reached, VisitFollowed, FileSafe;
    var a, t := ing.activeService, w.tasks[i];
    var next := Moved(w, TakeLock(i));
    if t.job.service == a {
      NobodyInside(w, i);
      NewVisitFollowed(ing, answers(i), w.visits, t.job, file);
      assert next.tasks[i].phase.Inside? && next.tasks[i].job.service == a;
    } else {
      SameFreedom(w, next, a);
    }
    forall j | 0 <= j < |next.tasks| && j != i && next.tasks[j].phase.Inside? && next.tasks[j].job.service == a
      ensures VisitFollowed(ing, answers(j), next.visits, next.tasks[j].phase.visit, file) {
      assert next.tasks[j] == w.tasks[j];
      LaterVisitFollowed(ing, answers(j), w.visits, w.tasks[j].phase.visit, t.job, file);
    }
  }

  lemma NobodyInside(w: World, i: nat)
    requires Serialised(w) && Possible(w, TakeLock(i))
    ensures LockIsFree(w, w.tasks[i].job.service)
  {
    hide Serial, Tracked;
    forall j | 0 <= j < |w.tasks| && w.tasks[j].phase.Inside? ensures w.tasks[j].job.service != w.tasks[i].job.service {
      assert HasLock(w.tasks[j]) && HasLock(w.tasks[i]);
    }
  }

  lemma LaterVisitFollowed(ing: IngressSettings, answers: Answers, visits: seq<Visit>, n: nat, job: Job, file: string)
    requires VisitFollowed(ing, answers, visits, n, file)
    ensures VisitFollowed(ing, answers, visits + [Visit(job, [])], n, file)
  {
    hide Serial, FileSolo, FileSafe;
    assert (visits + [Visit(job, [])])[..n] == visits[..n];
  }

  lemma ReleaseLockFollowed(cfg: Settings, ing: IngressSettings, pick: Pick, answers: nat -> Answers, w: World, i: nat,
                            file: string)
    requires ing.enabled && Serialised(w) && HandlersOnly(cfg, pick, w)
    requires FileTracked(ing, answers, w, file) && Possible(w, ReleaseLock(i))
    ensures FileTracked(ing, answers, Moved(w, ReleaseLock(i)), file)
  {
    hide Serial, Reached, VisitFollowed, FileSafe, IsHandler;
    var a, t := ing.activeService, w.tasks[i];
    var next := Moved(w, ReleaseLock(i));
    if t.job.service == a {
      FinishedVisitIsSafe(cfg, ing, pick, answers(i), w, i, file);
    } else {
      SameFreedom(w, next, a);
    }
    forall j | 0 <= j < |next.tasks| && next.tasks[j].phase.Inside? && next.tasks[j].job.service == a
      ensures VisitFollowed(ing, answers(j), next.visits, next.tasks[j].phase.visit, file) {
      assert next.tasks[j] == w.tasks[j];
    }
  }

  lemma FinishedVisitIsSafe(cfg: Settings, ing: IngressSettings, pick: Pick, answers: Answers, w: World, i: nat,
                            file: string)
    requires ing.enabled && Serialised(w) && HandlersOnly(cfg, pick, w)
    requires i < |w.tasks| && w.tasks[i].phase.Inside? && w.tasks[i].phase.rest.Done?
      && w.tasks[i].job.service == ing.activeService
    requires VisitFollowed(ing, answers, w.visits, w.tasks[i].phase.visit, file)
    ensures FileSafe(ing, file, RecordOf(w, ing.activeService))
  {
    hide FileSafe, Serial, FileSolo, Solo, IsHandler, Finished;
    var k, s := w.tasks[i].phase.visit, ing.activeService;
    assert OnTrack(w.visits, w.tasks[i]);
    var v, base := w.visits[k], Serial(w.visits[..k], s);
    EarlierVisitorsFinished(w, i);
    GuardFreeBetweenVisits(cfg, pick, w.visits, k, s);
    SerialKeepsId(w.visits[..k], s);
    LastVisitor(w.visits, k, []);
    var before :| FileSafe(ing, before, base) && file == FileSolo(ing, s, answers, Config(v.job.code, base), v.tables,
                                                                  before);
    VisitKeepsFileSafe(cfg, ing, pick, v.job, answers, base, v.tables, before);
  }

  lemma OtherMovesFollowed(ing: IngressSettings, answers: nat -> Answers, w: World, m: Move, file: string)
    requires Serialised(w) && FileTracked(ing, answers, w, file) && Possible(w, m)
    requires m.Arrive? || m.FetchLock? || m.NodesChange?
    ensures FileTracked(ing, answers, Moved(w, m), file)
  {
    hide Serial, Reached, VisitFollowed, FileSafe;
    var next := Moved(w, m);
    assert RecordOf(next, ing.activeService) == RecordOf(w, ing.activeService) && next.visits == w.visits;
    forall j | 0 <= j < |next.tasks| && next.tasks[j].phase.Inside?
      ensures j < |w.tasks| && next.tasks[j] == w.tasks[j] {}
    if !LockIsFree(w, ing.activeService) {
      var j :| 0 <= j < |w.tasks| && w.tasks[j].phase.Inside? && w.tasks[j].job.service == ing.activeService;
      assert next.tasks[j] == w.tasks[j];
    }
  }

  lemma MoveFollowed(cfg: Settings, ing: IngressSettings, pick: Pick, answers: nat -> Answers, w: World, m: Move,
                     file: string)
    requires ing.enabled && Serialised(w) && HandlersOnly(cfg, pick, w) && FileTracked(ing, answers, w, file)
      && Possible(w, m)
    ensures FileTracked(ing, answers, Moved(w, m), FileMove(ing, answers, w, m, file))
  {
    hide Serialised, HandlersOnly, FileTracked, FileStep;
    match m
    case RunStep(i) => RunStepFollowed(ing, answers, w, i, file);
    case TakeLock(i) => TakeLockFollowed(ing, answers, w, i, file);
    case ReleaseLock(i) => ReleaseLockFollowed(cfg, ing, pick, answers, w, i, file);
    case _ => OtherMovesFollowed(ing, answers, w, m, file);
  }

  lemma {:induction false} RunFollowed(cfg: Settings, ing: IngressSettings, pick: Pick, answers: nat -> Answers,
                                       w: World,
                                       ms: seq<Move>, file: string)
    requires ing.enabled && Serialised(w) && HandlersOnly(cfg, pick, w) && FileTracked(ing, answers, w, file)
    requires Feasible(w, ms) && ArrivalsAreHandlers(cfg, pick, ms)
    ensures FileTracked(ing, answers, After(w, ms), FileRun(ing, answers, w, ms, file))
    decreases |ms|
  {
    hide Serialised, FileTracked, Moved, Possible, IsHandler, FileMove;
    if ms != [] {
      var next := Moved(w, ms[0]);
      MoveFollowed(cfg, ing, pick, answers, w, ms[0], file);
      MoveKeeps(w, ms[0]);
      MoveKeepsHandlers(cfg, pick, w, ms[0]);
      assert forall i :: 0 <= i < |ms[1..]| ==> ms[1..][i] == ms[i + 1];
      RunFollowed(cfg, ing, pick, answers, next, ms[1..], FileMove(ing, answers, w, ms[0], file));
    }
  }

  /** Ingress safety of the concurrent controller: in any interleaving that starts with an empty file, whenever the
      active service's lock is free, the file routes traffic only if the service is observed running. */
  lemma InterleavedIngressSafety(cfg: Settings, ing: IngressSettings, pick: Pick, answers: nat -> Answers,
                                 nodes: NodeList, ms: seq<Move>)
    requires ing.enabled && Feasible(Start(nodes), ms) && ArrivalsAreHandlers(cfg, pick, ms)
    requires LockIsFree(After(Start(nodes), ms), ing.activeService)
    ensures FileSafe(ing, FileRun(ing, answers, Start(nodes), ms, ""),
                     RecordOf(After(Start(nodes), ms), ing.activeService))
  {
    StartIsSerial(nodes);
    assert FileSafe(ing, "", Fresh(ing.activeService)) by { EmptyFileIsSafe(ing, Fresh(ing.activeService)); }
    assert FileTracked(ing, answers, Start(nodes), "");
    hide Serialised, Feasible, After, FileRun, IsHandler, FileSafe, VisitFollowed;
    RunFollowed(cfg, ing, pick, answers, Start(nodes), ms, "");
  }

  lemma EmptyFileIsSafe(ing: IngressSettings, st: Service)
    ensures FileSafe(ing, "", st)
  {
  }
}
