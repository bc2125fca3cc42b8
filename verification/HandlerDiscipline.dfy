// What every path of every handler respects: it tries the recovery guard only while the guard is free and frees it
// before it ends, it writes neither observation nor placement after it notified the ingress manager, and it ends soon.

module HandlerDiscipline {
  import opened Models
  import opened Lifecycle
  import opened Agents
  import opened Coroutines
  import opened HandlerCode

  /** A write that may follow the notification of the ingress manager: it decides nothing about the upstream target. */
  predicate AfterSync(w: Write)
  {
    !w.PutObserved? && !w.PutPlacement? && !w.ClearPlacement? && !w.Enter? && w != Call(IngressSync)
  }

  /** From here the code ends within n steps.  `free` says that the guard is free, `synced` that the ingress manager was
      notified. */
  ghost predicate Orderly(c: Code, free: bool, synced: bool, n: nat)
    decreases n
  {
    match c
    case Done => free
    case Do(w, rest) =>
      n > 0 && (synced ==> AfterSync(w)) && Orderly(rest, free || w.ReleaseRecovery?, synced || w == Call(IngressSync),
                                                    n - 1)
    case GetObserved(k) => n > 0 && forall x :: Orderly(k(x), free, synced, n - 1)
    case GetDesired(k) => n > 0 && forall x :: Orderly(k(x), free, synced, n - 1)
    case GetPlacement(k) => n > 0 && forall x :: Orderly(k(x), free, synced, n - 1)
    case GetGeneration(k) => n > 0 && forall x :: Orderly(k(x), free, synced, n - 1)
    case IncrementRestarts(k) => n > 0 && forall x :: Orderly(k(x), free, synced, n - 1)
    case IncrementGeneration(k) => n > 0 && forall x :: Orderly(k(x), free, synced, n - 1)
    case TryAcquireRecovery(_, rest) => n > 0 && free && Orderly(rest, false, synced, n - 1)
    case UnlessInCooldown(_, rest) => n > 0 && free && Orderly(rest, free, synced, n - 1)
    case ListNodes(k) => n > 0 && forall x :: Orderly(k(x), free, synced, n - 1)
  }

  /** A code that ends within n steps ends within any larger number. */
  lemma {:induction false} MoreTime(c: Code, free: bool, synced: bool, n: nat, m: nat)
    requires Orderly(c, free, synced, n) && n <= m
    ensures Orderly(c, free, synced, m)
    decreases n
  {
    match c
    case Done =>
    case Do(w, rest) => MoreTime(rest, free || w.ReleaseRecovery?, synced || w == Call(IngressSync), n - 1, m - 1);
    case GetObserved(k) =>
      forall x ensures Orderly(k(x), free, synced, m - 1) { MoreTime(k(x), free, synced, n - 1, m - 1); }
    case GetDesired(k) =>
      forall x ensures Orderly(k(x), free, synced, m - 1) { MoreTime(k(x), free, synced, n - 1, m - 1); }
    case GetPlacement(k) =>
      forall x ensures Orderly(k(x), free, synced, m - 1) { MoreTime(k(x), free, synced, n - 1, m - 1); }
    case GetGeneration(k) =>
      forall x ensures Orderly(k(x), free, synced, m - 1) { MoreTime(k(x), free, synced, n - 1, m - 1); }
    case IncrementRestarts(k) =>
      forall x ensures Orderly(k(x), free, synced, m - 1) { MoreTime(k(x), free, synced, n - 1, m - 1); }
    case IncrementGeneration(k) =>
      forall x ensures Orderly(k(x), free, synced, m - 1) { MoreTime(k(x), free, synced, n - 1, m - 1); }
    case TryAcquireRecovery(_, rest) => MoreTime(rest, false, synced, n - 1, m - 1);
    case UnlessInCooldown(_, rest) => MoreTime(rest, free, synced, n - 1, m - 1);
    case ListNodes(k) =>
      forall x ensures Orderly(k(x), free, synced, m - 1) { MoreTime(k(x), free, synced, n - 1, m - 1); }
  }

  // The definition as rules for codes whose steps are known.

  lemma DoneRule()
    ensures forall synced, n :: Orderly(Done, true, synced, n)
  {
  }

  lemma WriteRules()
    ensures forall w: Write, rest, free, synced, n: nat {:trigger Orderly(Do(w, rest), free, synced, n)} ::
      n > 0 && AfterSync(w) && !w.ReleaseRecovery? && Orderly(rest, free, synced, n - 1) ==>
          Orderly(Do(w, rest), free, synced, n)
    ensures forall w: Write, rest, free, n: nat {:trigger Orderly(Do(w, rest), free, false, n)} ::
      n > 0 && !w.ReleaseRecovery? && w != Call(IngressSync) && Orderly(rest, free, false, n - 1) ==>
          Orderly(Do(w, rest), free, false, n)
    ensures forall rest, free, n: nat {:trigger Orderly(Do(Call(IngressSync), rest), free, false, n)} ::
      n > 0 && Orderly(rest, free, true, n - 1) ==> Orderly(Do(Call(IngressSync), rest), free, false, n)
    ensures forall rest, free, synced, n: nat {:trigger Orderly(Do(ReleaseRecovery, rest), free, synced, n)} ::
      n > 0 && Orderly(rest, true, synced, n - 1) ==> Orderly(Do(ReleaseRecovery, rest), free, synced, n)
  {
  }

  lemma ReadRules()
    ensures forall k: Option<ObservedState> -> Code, free, synced, n: nat
      {:trigger Orderly(GetObserved(k), free, synced, n)} ::
      n > 0 && (forall x :: Orderly(k(x), free, synced, n - 1)) ==> Orderly(GetObserved(k), free, synced, n)
    ensures forall k: Option<DesiredState> -> Code, free, synced, n: nat
      {:trigger Orderly(GetDesired(k), free, synced, n)} ::
      n > 0 && (forall x :: Orderly(k(x), free, synced, n - 1)) ==> Orderly(GetDesired(k), free, synced, n)
    ensures forall k: Option<Placement> -> Code, free, synced, n: nat
      {:trigger Orderly(GetPlacement(k), free, synced, n)} ::
      n > 0 && (forall x :: Orderly(k(x), free, synced, n - 1)) ==> Orderly(GetPlacement(k), free, synced, n)
    ensures forall k: nat -> Code, free, synced, n: nat {:trigger Orderly(GetGeneration(k), free, synced, n)} ::
      n > 0 && (forall x :: Orderly(k(x), free, synced, n - 1)) ==> Orderly(GetGeneration(k), free, synced, n)
    ensures forall k: nat -> Code, free, synced, n: nat {:trigger Orderly(IncrementRestarts(k), free, synced, n)} ::
      n > 0 && (forall x :: Orderly(k(x), free, synced, n - 1)) ==> Orderly(IncrementRestarts(k), free, synced, n)
    ensures forall k: nat -> Code, free, synced, n: nat {:trigger Orderly(IncrementGeneration(k), free, synced, n)} ::
      n > 0 && (forall x :: Orderly(k(x), free, synced, n - 1)) ==> Orderly(IncrementGeneration(k), free, synced, n)
    ensures forall k: NodeList -> Code, free, synced, n: nat {:trigger Orderly(ListNodes(k), free, synced, n)} ::
      n > 0 && (forall x :: Orderly(k(x), free, synced, n - 1)) ==> Orderly(ListNodes(k), free, synced, n)
  {
  }

  lemma GuardRules()
    ensures forall g, rest, synced, n: nat {:trigger Orderly(TryAcquireRecovery(g, rest), true, synced, n)} ::
      n > 0 && Orderly(rest, false, synced, n - 1) ==> Orderly(TryAcquireRecovery(g, rest), true, synced, n)
    ensures forall at, rest, synced, n: nat {:trigger Orderly(UnlessInCooldown(at, rest), true, synced, n)} ::
      n > 0 && Orderly(rest, true, synced, n - 1) ==> Orderly(UnlessInCooldown(at, rest), true, synced, n)
  {
  }

  lemma GiveUpIsOrderly(cfg: Settings, observed: Option<ObservedState>, reason: PendingReason, status: Status,
                        node: NodeId, at: Time, next: Code, free: bool, n: nat)
    requires Orderly(next, free, true, n)
    ensures Orderly(GiveUpAndCoolDownCode(cfg, observed, reason, status, node, at, next), free, false, n + 4)
  {
    hide Orderly;
    WriteRules();
  }

  lemma RestartIsOrderly(cfg: Settings, nodeId: NodeId, at: Time, ok: bool, next: Code, free: bool, n: nat)
    requires Orderly(next, free, true, n) && Orderly(next, free, false, n)
    ensures Orderly(RestartCode(cfg, nodeId, at, ok, next), free, false, n + 7)
  {
    hide Orderly, GiveUpAndCoolDownCode;
    WriteRules();
    ReadRules();
    MoreTime(next, free, true, n, n + 1);
    MoreTime(next, free, false, n, n + 1);
    forall current
      ensures Orderly(GiveUpAndCoolDownCode(cfg, current, RestartFailed, Failed, nodeId, at, next), free,
                      false, n + 5) {
      GiveUpIsOrderly(cfg, current, RestartFailed, Failed, nodeId, at, next, free, n + 1);
    }
  }

  lemma MoveAfterRestartsIsOrderly(cfg: Settings, current: NodeId, target: NodeId, containerId: string, at: Time,
                                   next: Code, free: bool, n: nat)
    requires Orderly(next, free, true, n)
    ensures Orderly(MoveAfterRestartsCode(cfg, current, target, containerId, at, next), free, false, n + 8)
  {
    hide Orderly;
    WriteRules();
    ReadRules();
  }

  lemma RescheduleIsOrderly(cfg: Settings, pick: Pick, current: NodeId, at: Time, o: Outcomes, next: Code, free: bool,
                            n: nat)
    requires Orderly(next, free, true, n) && Orderly(next, free, false, n)
    ensures Orderly(RescheduleCode(cfg, pick, current, at, o, next), free, false, n + 13)
  {
    hide Orderly, RescheduleOn;
    ReadRules();
    MoreTime(next, free, false, n, n + 12);
    forall spec, observed, nodes
      ensures Orderly(RescheduleOn(cfg, pick, spec, observed, current, nodes, at, o, next), free, false, n + 10) {
      RescheduleOnIsOrderly(cfg, pick, spec, observed, current, nodes, at, o, next, free, n);
    }
  }

  lemma RescheduleOnIsOrderly(cfg: Settings, pick: Pick, spec: ServiceSpec, observed: Option<ObservedState>,
                              current: NodeId, nodes: NodeList,
                              at: Time, o: Outcomes, next: Code, free: bool, n: nat)
    requires Orderly(next, free, true, n)
    ensures Orderly(RescheduleOn(cfg, pick, spec, observed, current, nodes, at, o, next), free, false, n + 10)
  {
    hide Orderly, GiveUpAndCoolDownCode, MoveAfterRestartsCode, FindNode, WithoutNode;
    WriteRules();
    MoreTime(next, free, true, n, n + 6);
    MoreTime(next, free, true, n, n + 5);
    MoreTime(next, free, true, n, n + 1);
    forall reason, status
      ensures Orderly(GiveUpAndCoolDownCode(cfg, observed, reason, status, current, at, next), free, false, n + 10)
      ensures Orderly(GiveUpAndCoolDownCode(cfg, observed, reason, status, current, at, next), free, false, n + 9) {
      GiveUpIsOrderly(cfg, observed, reason, status, current, at, next, free, n + 6);
      GiveUpIsOrderly(cfg, observed, reason, status, current, at, next, free, n + 5);
    }
    forall target, containerId
      ensures Orderly(MoveAfterRestartsCode(cfg, current, target, containerId, at, next), free, false, n + 8)
      ensures Orderly(MoveAfterRestartsCode(cfg, current, target, containerId, at, next), free, false, n + 9) {
      MoveAfterRestartsIsOrderly(cfg, current, target, containerId, at, next, free, n);
      MoveAfterRestartsIsOrderly(cfg, current, target, containerId, at, next, free, n + 1);
    }
  }

  lemma ReleaseIsOrderly(synced: bool)
    ensures Orderly(Release(), false, synced, 1)
  {
    hide Orderly;
    DoneRule();
    WriteRules();
  }

  lemma IfCurrentIsOrderly(nodeId: NodeId, tag: Option<int>, next: Body, n: nat)
    requires forall observed, desired, placement, generation: nat ::
      Orderly(next(observed, desired, placement, generation), true, false, n)
    ensures Orderly(IfCurrent(nodeId, tag, next), true, false, n + 5)
  {
    hide Orderly;
    DoneRule();
    WriteRules();
    ReadRules();
  }

  lemma CrashActionIsOrderly(cfg: Settings, pick: Pick, count: nat, node: Option<NodeState>, home: NodeId, at: Time,
                             o: Outcomes)
    ensures Orderly(CrashActionCode(cfg, pick, count, node, home, at, o), false, false, 14)
  {
    hide Orderly, RestartCode, RescheduleCode, Release;
    ReleaseIsOrderly(true);
    ReleaseIsOrderly(false);
    if node.Some? {
      RestartIsOrderly(cfg, node.value.nodeId, at, o.restartOk, Release(), false, 1);
      MoreTime(RestartCode(cfg, node.value.nodeId, at, o.restartOk, Release()), false, false, 8, 14);
    }
    RescheduleIsOrderly(cfg, pick, home, at, o, Release(), false, 1);
  }

  lemma CrashRecoveryIsOrderly(cfg: Settings, pick: Pick, observed: ObservedState, home: NodeId, at: Time, o: Outcomes)
    ensures Orderly(CrashRecoveryCode(cfg, pick, observed, home, at, o), false, false, 17)
  {
    hide Orderly, CrashActionCode, FindNode;
    WriteRules();
    ReadRules();
    var c := CrashRecoveryCode(cfg, pick, observed, home, at, o).rest;
    forall count: nat, nodes ensures Orderly(c.withCount(count).withNodes(nodes), false, false, 14) {
      CrashActionIsOrderly(cfg, pick, count, FindNode(nodes, home), home, at, o);
      assert c.withCount(count).withNodes(nodes)
          == CrashActionCode(cfg, pick, count, FindNode(nodes, home), home, at, o);
    }
  }

  lemma CrashIsOrderly(cfg: Settings, pick: Pick, r: CrashReport, o: Outcomes)
    ensures Orderly(CrashCode(cfg, pick, r, o), true, false, 23)
  {
    hide Orderly, CrashRecoveryCode, IfCurrent;
    DoneRule();
    GuardRules();
    var body := CrashBody(cfg, pick, r, o);
    forall observed, desired, placement, generation: nat
      ensures Orderly(body(observed, desired, placement, generation), true, false, 18) {
      CrashRecoveryIsOrderly(cfg, pick, observed, placement.nodeId, r.occurredAt, o);
    }
    IfCurrentIsOrderly(r.nodeId, r.generation, body, 18);
  }

  lemma HealthRecoveryIsOrderly(cfg: Settings, pick: Pick, observed: ObservedState, home: NodeId, at: Time, o: Outcomes)
    ensures Orderly(HealthRecoveryCode(cfg, pick, observed, home, at, o), false, false, 16)
  {
    hide Orderly, RestartCode, RescheduleCode, FindNode, GiveUpAndCoolDownCode, Release;
    ReadRules();
    ReleaseIsOrderly(true);
    ReleaseIsOrderly(false);
    MoreTime(Release(), false, true, 1, 11);
    GiveUpIsOrderly(cfg, Some(observed), CurrentNodeMissing, Pending, home, at, Release(), false, 11);
    forall node ensures Orderly(RestartCode(cfg, node, at, o.restartOk, Release()), false, false, 14) {
      RestartIsOrderly(cfg, node, at, o.restartOk, Release(), false, 1);
      MoreTime(RestartCode(cfg, node, at, o.restartOk, Release()), false, false, 8, 14);
    }
    forall node ensures Orderly(RescheduleCode(cfg, pick, node, at, o, Release()), false, false, 14) {
      RescheduleIsOrderly(cfg, pick, node, at, o, Release(), false, 1);
    }
  }

  lemma UnhealthyIsOrderly(cfg: Settings, pick: Pick, observed: ObservedState, home: NodeId, generation: nat,
                           r: HealthReport, o: Outcomes)
    ensures Orderly(UnhealthyCode(cfg, pick, observed, home, generation, r, o), true, false, 19)
  {
    hide Orderly, HealthRecoveryCode;
    DoneRule();
    WriteRules();
    GuardRules();
    HealthRecoveryIsOrderly(cfg, pick, observed, home, r.observedAt, o);
  }

  lemma HealthIsOrderly(cfg: Settings, pick: Pick, r: HealthReport, o: Outcomes)
    ensures Orderly(HealthCode(cfg, pick, r, o), true, false, 24)
  {
    hide Orderly, UnhealthyCode, IfCurrent;
    var body := HealthBody(cfg, pick, r, o);
    forall observed, desired, placement, generation: nat
      ensures Orderly(body(observed, desired, placement, generation), true, false, 19) {
      DoneRule();
      WriteRules();
      UnhealthyIsOrderly(cfg, pick, observed, placement.nodeId, generation, r, o);
    }
    IfCurrentIsOrderly(r.nodeId, r.generation, body, 19);
  }

  lemma UnreachableIsOrderly(cfg: Settings, pick: Pick, listed: Placement, at: Time, o: Outcomes)
    ensures Orderly(UnreachableCode(cfg, pick, listed, at, o), true, false, 12)
  {
    hide Orderly, FindNode, WithoutNode;
    DoneRule();
    WriteRules();
    ReadRules();
  }

  lemma DeployIsOrderly(pick: Pick, spec: ServiceSpec, now: Time, o: Outcomes)
    ensures Orderly(DeployBody(pick, spec, now, o), true, false, 10)
  {
    hide Orderly, FindNode;
    DoneRule();
    WriteRules();
    ReadRules();
  }

  lemma StopIsOrderly(now: Time, o: Outcomes)
    ensures Orderly(StopCode(now, o), true, false, 11)
  {
    hide Orderly, FindNode;
    DoneRule();
    WriteRules();
    ReadRules();
  }

  lemma ApiRestartIsOrderly(now: Time, o: Outcomes)
    ensures Orderly(ApiRestartCode(now, o), true, false, 7)
  {
    hide Orderly, FindNode;
    DoneRule();
    WriteRules();
    ReadRules();
  }

  lemma RetryIsOrderly(pick: Pick, now: Time, o: Outcomes)
    ensures Orderly(RetryCode(pick, now, o), true, false, 12)
  {
    hide Orderly, DeployBody;
    DoneRule();
    WriteRules();
    ReadRules();
    forall spec ensures Orderly(DeployBody(pick, spec, now, o), true, false, 10) {
      DeployIsOrderly(pick, spec, now, o);
    }
  }

  const MAX_STEPS: nat := 24

  /** Every handler, on every path, respects guard and ingress and ends within 24 steps. */
  lemma HandlersAreOrderly(cfg: Settings, pick: Pick, request: Request, o: Outcomes)
    ensures Orderly(CodeOf(cfg, pick, request, o), true, false, MAX_STEPS)
  {
    hide Orderly, CrashCode, HealthCode, UnreachableCode, DeployBody, StopCode, ApiRestartCode, RetryCode;
    var c := CodeOf(cfg, pick, request, o);
    match request
    case CrashRequest(r) => CrashIsOrderly(cfg, pick, r, o); MoreTime(c, true, false, 23, MAX_STEPS);
    case HealthRequest(r) => HealthIsOrderly(cfg, pick, r, o);
    case UnreachableRequest(listed, at) =>
      UnreachableIsOrderly(cfg, pick, listed, at, o);
      MoreTime(c, true, false, 12, MAX_STEPS);
    case DeployRequest(spec, at) =>
      WriteRules();
      DeployIsOrderly(pick, spec, at, o);
      MoreTime(c, true, false, 11, MAX_STEPS);
    case StopRequest(at) => StopIsOrderly(at, o); MoreTime(c, true, false, 11, MAX_STEPS);
    case RestartRequest(at) => ApiRestartIsOrderly(at, o); MoreTime(c, true, false, 7, MAX_STEPS);
    case RetryRequest(at) => RetryIsOrderly(pick, at, o); MoreTime(c, true, false, 12, MAX_STEPS);
  }

  /** How far along an orderly run the code is. */
  ghost predicate Proper(c: Config, free: bool, synced: bool, n: nat)
  {
    Orderly(c.code, free, synced, n) && (free ==> c.st.activeRecovery.None?)
  }

  /** The state of the discipline after the next step. */
  function FreeAfter(c: Code, free: bool): bool
  {
    if c.TryAcquireRecovery? then false else free || (c.Do? && c.write.ReleaseRecovery?)
  }

  function SyncedAfter(c: Code, synced: bool): bool { synced || (c.Do? && c.write == Call(IngressSync)) }

  lemma StepKeepsProper(c: Config, nodes: NodeList, free: bool, synced: bool, n: nat)
    requires Proper(c, free, synced, n) && !c.code.Done?
    ensures n > 0 && Proper(Advance(c, nodes), FreeAfter(c.code, free), SyncedAfter(c.code, synced), n - 1)
  {
    if c.code.Do? {
      var next := Perform(c.code.write, c.st);
      assert next.activeRecovery == if c.code.write.ReleaseRecovery? then None else c.st.activeRecovery;
    }
  }

  /** Whatever it reads, a handler that is run alone has come to its end after at most 24 steps. */
  lemma {:induction false} EndsInTime(c: Config, tables: seq<NodeList>, free: bool, synced: bool, n: nat)
    requires Proper(c, free, synced, n) && |tables| >= n
    ensures Solo(c, tables).code.Done? && Solo(c, tables).st.activeRecovery.None?
    decreases |tables|
  {
    hide Proper, Advance;
    if c.code.Done? {
      DoneStays(c.st, tables);
      assert c == Config(Done, c.st);
      DoneIsFree(c, free, synced, n);
    } else {
      StepNeedsTime(c, free, synced, n);
      StepKeepsProper(c, tables[0], free, synced, n);
      EndsInTime(Advance(c, tables[0]), tables[1..], FreeAfter(c.code, free), SyncedAfter(c.code, synced), n - 1);
    }
  }

  lemma DoneIsFree(c: Config, free: bool, synced: bool, n: nat)
    requires Proper(c, free, synced, n) && c.code.Done?
    ensures c.st.activeRecovery.None?
  {
  }

  lemma StepNeedsTime(c: Config, free: bool, synced: bool, n: nat)
    requires Proper(c, free, synced, n) && !c.code.Done?
    ensures n > 0
  {
  }

  lemma HandlersEnd(cfg: Settings, pick: Pick, request: Request, o: Outcomes, st: Service, tables: seq<NodeList>)
    requires st.activeRecovery.None? && |tables| >= MAX_STEPS
    ensures Solo(Config(CodeOf(cfg, pick, request, o), st), tables).code.Done?
    ensures Solo(Config(CodeOf(cfg, pick, request, o), st), tables).st.activeRecovery.None?
  {
    hide CodeOf, Solo;
    HandlersAreOrderly(cfg, pick, request, o);
    EndsInTime(Config(CodeOf(cfg, pick, request, o), st), tables, true, false, MAX_STEPS);
  }
}
