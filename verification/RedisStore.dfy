// `RedisStateStore`: string keys and index sets that simulate the dictionaries of the in-memory store.

module RedisKeys {
  import opened Models

  datatype Field = Desired | Observed | PlacementField | PendingField | RestartCounter | Generation

  function FieldName(f: Field): string
  {
    match f
    case Desired => "desired"
    case Observed => "observed"
    case PlacementField => "placement"
    case PendingField => "pending"
    case RestartCounter => "restart_counter"
    case Generation => "generation"
  }

  /** `_k(f"service:{id}:{field}")` */
  function ServiceKey(prefix: string, s: ServiceId, f: Field): string
  {
    prefix + ":" + "service:" + s + ":" + FieldName(f)
  }

  /** `_k(f"node:{id}")` */
  function NodeKey(prefix: string, n: NodeId): string
  {
    prefix + ":" + "node:" + n
  }

  lemma FieldNamesEndDifferently(f: Field, g: Field)
    requires f != g
    ensures |FieldName(f)| >= 3 && |FieldName(g)| >= 3
    ensures FieldName(f)[|FieldName(f)| - 1] != FieldName(g)[|FieldName(g)| - 1]
         || FieldName(f)[|FieldName(f)| - 3] != FieldName(g)[|FieldName(g)| - 3]
  {
  }

  lemma SuffixChars(head: string, tail: string)
    requires |tail| >= 3
    ensures (head + tail)[|head + tail| - 1] == tail[|tail| - 1]
    ensures (head + tail)[|head + tail| - 3] == tail[|tail| - 3]
  {
  }

  /** The key encoding is injective for arbitrary service ids, including ids that contain ':'. */
  lemma ServiceKeysDistinct(prefix: string, s: ServiceId, f: Field, t: ServiceId, g: Field)
    ensures ServiceKey(prefix, s, f) == ServiceKey(prefix, t, g) <==> s == t && f == g
  {
    if ServiceKey(prefix, s, f) == ServiceKey(prefix, t, g) {
      var before := prefix + ":" + "service:";
      if f != g {
        FieldNamesEndDifferently(f, g);
        hide FieldName;
        SuffixChars(before + s + ":", FieldName(f));
        SuffixChars(before + t + ":", FieldName(g));
        assert false;
      }
      hide FieldName;
      assert f == g;
      var i := |before|;
      assert |s| == |t|;
      assert ServiceKey(prefix, s, f)[i..i + |s|] == s;
      assert ServiceKey(prefix, t, g)[i..i + |t|] == t;
    }
  }

  lemma NodeKeysDistinct(prefix: string, m: NodeId, n: NodeId)
    ensures NodeKey(prefix, m) == NodeKey(prefix, n) <==> m == n
  {
    if NodeKey(prefix, m) == NodeKey(prefix, n) {
      var i := |prefix + ":" + "node:"|;
      assert NodeKey(prefix, m)[i..] == m && NodeKey(prefix, n)[i..] == n;
    }
  }

  lemma NodeKeyIsNoServiceKey(prefix: string, n: NodeId, s: ServiceId, f: Field)
    ensures NodeKey(prefix, n) != ServiceKey(prefix, s, f)
  {
    hide FieldName;
    var i := |prefix + ":"|;
    assert NodeKey(prefix, n)[i] == 'n';
    assert ServiceKey(prefix, s, f)[i] == 's';
  }

  /** The keys of the index sets and of the two logs. */
  datatype Collection = Nodes | Services | Placements | PendingServices | RecoveryHistory | Events

  function CollectionName(c: Collection): string
  {
    match c
    case Nodes => "nodes"
    case Services => "services"
    case Placements => "placements"
    case PendingServices => "pending_services"
    case RecoveryHistory => "recovery_history"
    case Events => "events"
  }

  function CollectionKey(prefix: string, c: Collection): string { prefix + ":" + CollectionName(c) }

  lemma CollectionNamesDiffer(c: Collection, d: Collection)
    requires c != d
    ensures |CollectionName(c)| >= 2 && |CollectionName(d)| >= 2
    ensures CollectionName(c)[0] != CollectionName(d)[0] || CollectionName(c)[1] != CollectionName(d)[1]
  {
  }

  /** "nodes" and "services" go on where the document keys have a colon; the other names begin differently. */
  lemma NoDocumentName(c: Collection)
    ensures |CollectionName(c)| >= 5
    ensures CollectionName(c)[0] == 'n' ==> CollectionName(c)[4] != ':'
    ensures CollectionName(c)[0] == 's' ==> |CollectionName(c)| >= 8 && CollectionName(c)[7] != ':'
  {
  }

  /** Index sets and logs live under keys of their own, whatever the ids are. */
  lemma CollectionKeysApart(prefix: string, c: Collection)
    ensures forall d :: CollectionKey(prefix, c) == CollectionKey(prefix, d) <==> c == d
    ensures forall n :: CollectionKey(prefix, c) != NodeKey(prefix, n)
    ensures forall s, f :: CollectionKey(prefix, c) != ServiceKey(prefix, s, f)
  {
    hide CollectionName, FieldName;
    var i := |prefix + ":"|;
    NoDocumentName(c);
    forall d | c != d ensures CollectionKey(prefix, c) != CollectionKey(prefix, d) {
      CollectionNamesDiffer(c, d);
      assert CollectionKey(prefix, c)[i] == CollectionName(c)[0]
          && CollectionKey(prefix, c)[i + 1] == CollectionName(c)[1];
      assert CollectionKey(prefix, d)[i] == CollectionName(d)[0]
          && CollectionKey(prefix, d)[i + 1] == CollectionName(d)[1];
    }
    forall n ensures CollectionKey(prefix, c) != NodeKey(prefix, n) {
      assert CollectionKey(prefix, c)[i] == CollectionName(c)[0]
          && CollectionKey(prefix, c)[i + 4] == CollectionName(c)[4];
      assert NodeKey(prefix, n)[i] == 'n' && NodeKey(prefix, n)[i + 4] == ':';
    }
    forall s, f ensures CollectionKey(prefix, c) != ServiceKey(prefix, s, f) {
      assert CollectionKey(prefix, c)[i] == CollectionName(c)[0];
      assert ServiceKey(prefix, s, f)[i] == 's' && ServiceKey(prefix, s, f)[i + 7] == ':';
      if CollectionName(c)[0] == 's' { assert CollectionKey(prefix, c)[i + 7] == CollectionName(c)[7]; }
    }
  }
}

module RedisStore {
  import opened Models
  import opened Ordering
  import opened NodeTable
  import opened RedisKeys
  import StateStore

  /** A stored JSON document or counter. */
  datatype Payload =
    | NodeDoc(node: NodeState)
    | DesiredDoc(desired: DesiredState)
    | ObservedDoc(observed: ObservedState)
    | PlacementDoc(placement: Placement)
    | PendingDoc(pending: PendingDeployment)
    | Counter(count: nat)

  /** The dictionaries of the in-memory store, which the keys and sets stand for. */
  datatype Tables = Tables(
    nodes: map<NodeId, NodeState>,
    desired: map<ServiceId, DesiredState>,
    observed: map<ServiceId, ObservedState>,
    placement: map<ServiceId, Placement>,
    pending: map<ServiceId, PendingDeployment>,
    restartCounter: map<ServiceId, nat>,
    serviceGeneration: map<ServiceId, nat>,
    recoveryHistory: seq<RecoveryRecord>,
    events: seq<StateStore.Event>)

  function Content(t: Tables, s: ServiceId, f: Field): Option<Payload>
  {
    match f
    case Desired => if s in t.desired then Some(DesiredDoc(t.desired[s])) else None
    case Observed => if s in t.observed then Some(ObservedDoc(t.observed[s])) else None
    case PlacementField => if s in t.placement then Some(PlacementDoc(t.placement[s])) else None
    case PendingField => if s in t.pending then Some(PendingDoc(t.pending[s])) else None
    case RestartCounter => if s in t.restartCounter then Some(Counter(t.restartCounter[s])) else None
    case Generation => if s in t.serviceGeneration then Some(Counter(t.serviceGeneration[s])) else None
  }

  function NodeContent(t: Tables, n: NodeId): Option<Payload>
  {
    if n in t.nodes then Some(NodeDoc(t.nodes[n])) else None
  }

  /** The documents under the keys are exactly the entries of the dictionaries. */
  ghost predicate KeysAgree(prefix: string, keys: map<string, Payload>, t: Tables)
  {
    && (forall s, f :: Lookup(keys, ServiceKey(prefix, s, f)) == Content(t, s, f))
    && (forall n :: Lookup(keys, NodeKey(prefix, n)) == NodeContent(t, n))
  }

  /** The tables differ at most in what field f of service s holds. */
  ghost predicate DifferOnlyAt(t: Tables, u: Tables, s: ServiceId, f: Field)
  {
    && u.nodes == t.nodes
    && forall r, g :: r != s || g != f ==> Content(u, r, g) == Content(t, r, g)
  }

  lemma ServiceWriteAgrees(prefix: string, keys: map<string, Payload>, t: Tables, u: Tables, s: ServiceId, f: Field)
    requires KeysAgree(prefix, keys, t) && DifferOnlyAt(t, u, s, f)
    ensures Content(u, s, f).Some? ==> KeysAgree(prefix, keys[ServiceKey(prefix, s, f) := Content(u, s, f).value], u)
    ensures Content(u, s, f).None? ==> KeysAgree(prefix, keys - {ServiceKey(prefix, s, f)}, u)
  {
    hide ServiceKey, NodeKey, Content;
    forall r, g ensures ServiceKey(prefix, s, f) == ServiceKey(prefix, r, g) <==> s == r && f == g {
      ServiceKeysDistinct(prefix, s, f, r, g);
    }
    forall n ensures NodeKey(prefix, n) != ServiceKey(prefix, s, f) {
      NodeKeyIsNoServiceKey(prefix, n, s, f);
    }
  }

  lemma NodeWriteAgrees(prefix: string, keys: map<string, Payload>, t: Tables, n: NodeId, state: NodeState)
    requires KeysAgree(prefix, keys, t)
    ensures KeysAgree(prefix, keys[NodeKey(prefix, n) := NodeDoc(state)], t.(nodes := t.nodes[n := state]))
  {
    var u := t.(nodes := t.nodes[n := state]);
    assert forall r, g :: Content(u, r, g) == Content(t, r, g);
    hide Content;
    hide ServiceKey, NodeKey;
    forall m ensures NodeKey(prefix, n) == NodeKey(prefix, m) <==> m == n {
      NodeKeysDistinct(prefix, m, n);
    }
    forall r, g ensures ServiceKey(prefix, r, g) != NodeKey(prefix, n) {
      NodeKeyIsNoServiceKey(prefix, n, r, g);
    }
  }

  /** LPUSH followed by LTRIM 0 (max - 1). */
  function PushTrim<T>(log: seq<T>, entry: T, max: nat): (r: seq<T>)
    requires max >= 1
    ensures r == StateStore.Pushed(log, entry, max)
  {
    var pushed := [entry] + log;
    if |pushed| <= max then pushed else pushed[..max]
  }

  class RedisStateStore {
    const prefix: string
    const logLimit: nat
    const heartbeatThreshold: int
    const snapshotThreshold: real
    var keys: map<string, Payload>
    var nodeIds: set<NodeId>            // the set `nodes`
    var serviceIds: set<ServiceId>      // the set `services`
    var placementIds: set<ServiceId>    // the set `placements`
    var pendingIds: set<ServiceId>      // the set `pending_services`
    var recoveryList: seq<RecoveryRecord>
    var eventList: seq<StateStore.Event>
    var nodeLastWritten: map<NodeId, Time>
    var nodeLastSnapshot: map<NodeId, Snapshot>
    ghost var model: Tables

    /** Keys and index sets agree with each other and with the dictionaries they stand for. */
    ghost predicate Valid()
      reads this
    {
      && logLimit >= 1
      && KeysAgree(prefix, keys, model)
      && nodeIds == model.nodes.Keys
      && placementIds == model.placement.Keys
      && pendingIds == model.pending.Keys
      && serviceIds == model.desired.Keys + model.observed.Keys
      && recoveryList == model.recoveryHistory
      && eventList == model.events
      && nodeLastWritten.Keys <= model.nodes.Keys
      && nodeLastSnapshot.Keys <= model.nodes.Keys
    }

    /** A node with its caches, as the coalescing theorems see it. */
    ghost function NodeCell(n: NodeId): Cell
      reads this
    {
      Cell(Lookup(model.nodes, n), Lookup(nodeLastWritten, n), Lookup(nodeLastSnapshot, n))
    }

    constructor (prefix: string, logLimit: nat, heartbeatThreshold: int, snapshotThreshold: real)
      requires logLimit >= 1
      ensures Valid() && model == Tables(map[], map[], map[], map[], map[], map[], map[], [], [])
      ensures forall n :: NodeCell(n) == Cell(None, None, None)
      ensures this.heartbeatThreshold == heartbeatThreshold && this.snapshotThreshold == snapshotThreshold
    {
      this.prefix, this.logLimit := prefix, logLimit;
      this.heartbeatThreshold, this.snapshotThreshold := heartbeatThreshold, snapshotThreshold;
      keys := map[];
      nodeIds, serviceIds, placementIds, pendingIds := {}, {}, {}, {};
      recoveryList, eventList := [], [];
      nodeLastWritten, nodeLastSnapshot := map[], map[];
      model := Tables(map[], map[], map[], map[], map[], map[], map[], [], []);
    }

    method SetServiceDesired(state: DesiredState)
      requires Valid()
      modifies this`keys, this`serviceIds, this`model
      ensures Valid()
      ensures model == old(model).(desired := old(model).desired[state.service.serviceId := state])
    {
      hide ServiceKey, KeysAgree;
      var s := state.service.serviceId;
      ghost var next := model.(desired := model.desired[s := state]);
      ServiceWriteAgrees(prefix, keys, model, next, s, Desired);
      keys := keys[ServiceKey(prefix, s, Desired) := DesiredDoc(state)];
      serviceIds := serviceIds + {s};
      model := next;
    }

    method GetServiceDesired(s: ServiceId) returns (r: Option<DesiredState>)
      requires Valid()
      ensures r == Lookup(model.desired, s)
    {
      hide ServiceKey, NodeKey;
      var raw := Lookup(keys, ServiceKey(prefix, s, Desired));
      assert raw == Content(model, s, Desired);
      r := if raw.None? then None else Some(raw.value.desired);
    }

    method SetServiceObserved(s: ServiceId, state: ObservedState)
      requires Valid()
      modifies this`keys, this`serviceIds, this`model
      ensures Valid()
      ensures model == old(model).(observed := old(model).observed[s := state])
    {
      hide ServiceKey, KeysAgree;
      ghost var next := model.(observed := model.observed[s := state]);
      ServiceWriteAgrees(prefix, keys, model, next, s, Observed);
      keys := keys[ServiceKey(prefix, s, Observed) := ObservedDoc(state)];
      serviceIds := serviceIds + {s};
      model := next;
    }

    method GetServiceObserved(s: ServiceId) returns (r: Option<ObservedState>)
      requires Valid()
      ensures r == Lookup(model.observed, s)
    {
      hide ServiceKey, NodeKey;
      var raw := Lookup(keys, ServiceKey(prefix, s, Observed));
      assert raw == Content(model, s, Observed);
      r := if raw.None? then None else Some(raw.value.observed);
    }

    method SetPlacement(p: Placement)
      requires Valid()
      modifies this`keys, this`placementIds, this`model
      ensures Valid()
      ensures model == old(model).(placement := old(model).placement[p.serviceId := p])
    {
      hide ServiceKey, KeysAgree;
      ghost var next := model.(placement := model.placement[p.serviceId := p]);
      ServiceWriteAgrees(prefix, keys, model, next, p.serviceId, PlacementField);
      keys := keys[ServiceKey(prefix, p.serviceId, PlacementField) := PlacementDoc(p)];
      placementIds := placementIds + {p.serviceId};
      model := next;
    }

    method GetPlacement(s: ServiceId) returns (r: Option<Placement>)
      requires Valid()
      ensures r == Lookup(model.placement, s)
    {
      hide ServiceKey, NodeKey;
      var raw := Lookup(keys, ServiceKey(prefix, s, PlacementField));
      assert raw == Content(model, s, PlacementField);
      r := if raw.None? then None else Some(raw.value.placement);
    }

    method ClearPlacement(s: ServiceId)
      requires Valid()
      modifies this`keys, this`placementIds, this`model
      ensures Valid()
      ensures model == old(model).(placement := old(model).placement - {s})
    {
      hide ServiceKey, KeysAgree;
      ghost var next := model.(placement := model.placement - {s});
      ServiceWriteAgrees(prefix, keys, model, next, s, PlacementField);
      keys := keys - {ServiceKey(prefix, s, PlacementField)};
      placementIds := placementIds - {s};
      model := next;
    }

    /** SMEMBERS, sorted, then MGET without the missing documents. */
    method ListPlacements() returns (r: seq<Placement>)
      requires Valid()
      ensures r == Listed(model.placement)
    {
      hide KeysAgree, Sorted;
      var ids := SortKeys(placementIds);
      r := [];
      for i := 0 to |ids|
        invariant |r| == i
        invariant forall j :: 0 <= j < i ==> ids[j] in model.placement && r[j] == model.placement[ids[j]]
      {
        assert ids[i] in ids;
        var document := GetPlacement(ids[i]);
        if document.None? {
          continue;
        }
        r := r + [document.value];
      }
    }

    method SetPendingDeployment(p: PendingDeployment)
      requires Valid()
      modifies this`keys, this`pendingIds, this`model
      ensures Valid()
      ensures model == old(model).(pending := old(model).pending[p.serviceId := p])
    {
      hide ServiceKey, KeysAgree;
      ghost var next := model.(pending := model.pending[p.serviceId := p]);
      ServiceWriteAgrees(prefix, keys, model, next, p.serviceId, PendingField);
      keys := keys[ServiceKey(prefix, p.serviceId, PendingField) := PendingDoc(p)];
      pendingIds := pendingIds + {p.serviceId};
      model := next;
    }

    method GetPendingDeployment(s: ServiceId) returns (r: Option<PendingDeployment>)
      requires Valid()
      ensures r == Lookup(model.pending, s)
    {
      hide ServiceKey, NodeKey;
      var raw := Lookup(keys, ServiceKey(prefix, s, PendingField));
      assert raw == Content(model, s, PendingField);
      r := if raw.None? then None else Some(raw.value.pending);
    }

    method PopPendingDeployment(s: ServiceId)
      requires Valid()
      modifies this`keys, this`pendingIds, this`model
      ensures Valid()
      ensures model == old(model).(pending := old(model).pending - {s})
    {
      hide ServiceKey, KeysAgree;
      ghost var next := model.(pending := model.pending - {s});
      ServiceWriteAgrees(prefix, keys, model, next, s, PendingField);
      keys := keys - {ServiceKey(prefix, s, PendingField)};
      pendingIds := pendingIds - {s};
      model := next;
    }

    method ListPendingDeployments() returns (r: seq<PendingDeployment>)
      requires Valid()
      ensures r == Listed(model.pending)
    {
      hide KeysAgree, Sorted;
      var ids := SortKeys(pendingIds);
      r := [];
      for i := 0 to |ids|
        invariant |r| == i
        invariant forall j :: 0 <= j < i ==> ids[j] in model.pending && r[j] == model.pending[ids[j]]
      {
        assert ids[i] in ids;
        var document := GetPendingDeployment(ids[i]);
        if document.None? {
          continue;
        }
        r := r + [document.value];
      }
    }

    /** INCR, which starts a missing counter at zero. */
    method IncrementRestartCounter(s: ServiceId) returns (count: nat)
      requires Valid()
      modifies this`keys, this`model
      ensures Valid()
      ensures count == Lookup(old(model).restartCounter, s).GetOr(0) + 1
      ensures model == old(model).(restartCounter := old(model).restartCounter[s := count])
    {
      hide ServiceKey, NodeKey;
      var raw := Lookup(keys, ServiceKey(prefix, s, RestartCounter));
      assert raw == Content(model, s, RestartCounter);
      count := if raw.None? then 1 else raw.value.count + 1;
      ghost var next := model.(restartCounter := model.restartCounter[s := count]);
      ServiceWriteAgrees(prefix, keys, model, next, s, RestartCounter);
      keys := keys[ServiceKey(prefix, s, RestartCounter) := Counter(count)];
      model := next;
    }

    method ResetRestartCounter(s: ServiceId)
      requires Valid()
      modifies this`keys, this`model
      ensures Valid()
      ensures model == old(model).(restartCounter := old(model).restartCounter[s := 0])
    {
      hide ServiceKey, KeysAgree;
      ghost var next := model.(restartCounter := model.restartCounter[s := 0]);
      ServiceWriteAgrees(prefix, keys, model, next, s, RestartCounter);
      keys := keys[ServiceKey(prefix, s, RestartCounter) := Counter(0)];
      model := next;
    }

    method GetServiceGeneration(s: ServiceId) returns (generation: nat)
      requires Valid()
      ensures generation == Lookup(model.serviceGeneration, s).GetOr(0)
    {
      hide ServiceKey, NodeKey;
      var raw := Lookup(keys, ServiceKey(prefix, s, Generation));
      assert raw == Content(model, s, Generation);
      generation := if raw.None? then 0 else raw.value.count;
    }

    method IncrementServiceGeneration(s: ServiceId) returns (generation: nat)
      requires Valid()
      modifies this`keys, this`model
      ensures Valid()
      ensures generation == Lookup(old(model).serviceGeneration, s).GetOr(0) + 1
      ensures model == old(model).(serviceGeneration := old(model).serviceGeneration[s := generation])
    {
      hide ServiceKey, NodeKey;
      var raw := Lookup(keys, ServiceKey(prefix, s, Generation));
      assert raw == Content(model, s, Generation);
      generation := if raw.None? then 1 else raw.value.count + 1;
      ghost var next := model.(serviceGeneration := model.serviceGeneration[s := generation]);
      ServiceWriteAgrees(prefix, keys, model, next, s, Generation);
      keys := keys[ServiceKey(prefix, s, Generation) := Counter(generation)];
      model := next;
    }

    method AddRecoveryRecord(record: RecoveryRecord)
      requires Valid()
      modifies this`recoveryList, this`model
      ensures Valid()
      ensures model == old(model).(recoveryHistory := StateStore.Pushed(old(model).recoveryHistory, record, logLimit))
    {
      recoveryList := PushTrim(recoveryList, record, logLimit);
      model := model.(recoveryHistory := recoveryList);
    }

    method AppendEvent(event: StateStore.Event)
      requires Valid()
      modifies this`eventList, this`model
      ensures Valid()
      ensures model == old(model).(events := StateStore.Pushed(old(model).events, event, logLimit))
    {
      eventList := PushTrim(eventList, event, logLimit);
      model := model.(events := eventList);
    }

    /** For a positive limit the same entries as the in-memory store lists. */
    method ListEvents(limit: int) returns (r: seq<StateStore.Event>)
      requires Valid()
      ensures limit >= 1 ==> r == StateStore.FirstInMemory(model.events, limit)
      ensures r == StateStore.FirstInRedis(model.events, limit)
    {
      StateStore.LogListingsAgree(eventList, limit);
      r := StateStore.FirstInRedis(eventList, limit);
    }

    method ListRecoveryRecords(limit: int) returns (r: seq<RecoveryRecord>)
      requires Valid()
      ensures limit >= 1 ==> r == StateStore.FirstInMemory(model.recoveryHistory, limit)
      ensures r == StateStore.FirstInRedis(model.recoveryHistory, limit)
    {
      StateStore.LogListingsAgree(recoveryList, limit);
      r := StateStore.FirstInRedis(recoveryList, limit);
    }

    method ListNodes() returns (r: seq<NodeState>)
      requires Valid()
      ensures r == Listed(model.nodes)
    {
      hide ServiceKey, NodeKey;
      var ids := SortKeys(nodeIds);
      r := [];
      for i := 0 to |ids|
        invariant |r| == i
        invariant forall j :: 0 <= j < i ==> ids[j] in model.nodes && r[j] == model.nodes[ids[j]]
      {
        assert ids[i] in ids;
        var raw := Lookup(keys, NodeKey(prefix, ids[i]));
        assert raw == NodeContent(model, ids[i]);
        if raw.None? {
          continue;
        }
        r := r + [raw.value.node];
      }
    }

    method WriteNode(n: NodeId, state: NodeState)
      requires Valid()
      modifies this`keys, this`nodeIds, this`model
      ensures Valid()
      ensures model == old(model).(nodes := old(model).nodes[n := state])
    {
      hide NodeKey, KeysAgree;
      NodeWriteAgrees(prefix, keys, model, n, state);
      keys := keys[NodeKey(prefix, n) := NodeDoc(state)];
      nodeIds := nodeIds + {n};
      model := model.(nodes := model.nodes[n := state]);
    }

    method UpsertNodeHeartbeat(n: NodeId, agentUrl: string, address: Option<string>, at: Time)
      requires Valid()
      modifies this`keys, this`nodeIds, this`model, this`nodeLastWritten
      ensures Valid()
      ensures model == old(model).(nodes := model.nodes)
      ensures NodeCell(n) == HeartbeatArrives(heartbeatThreshold, old(NodeCell(n)), n, agentUrl, address, at)
      ensures forall m :: m != n ==> NodeCell(m) == old(NodeCell(m))
    {
      hide ServiceKey, NodeKey, Heard;
      var lastWritten := Lookup(nodeLastWritten, n);
      if lastWritten.Some? && at - lastWritten.value < heartbeatThreshold {
        return;
      }
      var raw := Lookup(keys, NodeKey(prefix, n));
      assert raw == NodeContent(model, n);
      if raw.Some? {
        var existing := raw.value.node;
        if existing.status == Healthy && lastWritten.Some? && at - lastWritten.value < heartbeatThreshold {
          return;
        }
        WriteNode(n, Heard(Some(existing), n, agentUrl, address, at));
      } else {
        WriteNode(n, Heard(None, n, agentUrl, address, at));
      }
      nodeLastWritten := nodeLastWritten[n := at];
    }

    /** Returns false where the source raises for an unknown node. */
    method UpsertNodeSnapshot(n: NodeId, snapshot: Snapshot) returns (accepted: bool)
      requires Valid()
      modifies this`keys, this`nodeIds, this`model, this`nodeLastSnapshot
      ensures Valid()
      ensures accepted == (n in old(model).nodes)
      ensures model == old(model).(nodes := model.nodes)
      ensures NodeCell(n) == SnapshotArrives(snapshotThreshold, old(NodeCell(n)), snapshot)
      ensures forall m :: m != n ==> NodeCell(m) == old(NodeCell(m))
    {
      hide ServiceKey, NodeKey;
      var last := Lookup(nodeLastSnapshot, n);
      if last.Some? && Near(snapshot, last.value, snapshotThreshold) {
        return true;
      }
      var raw := Lookup(keys, NodeKey(prefix, n));
      assert raw == NodeContent(model, n);
      if raw.None? {
        return false;
      }
      WriteNode(n, raw.value.node.(snapshot := Some(snapshot)));
      nodeLastSnapshot := nodeLastSnapshot[n := snapshot];
      accepted := true;
    }

    method MarkNodeUnavailable(n: NodeId)
      requires Valid()
      modifies this`keys, this`nodeIds, this`model
      ensures Valid()
      ensures model == old(model).(nodes := model.nodes)
      ensures NodeCell(n) == MarkedUnavailable(old(NodeCell(n)))
      ensures forall m :: m != n ==> NodeCell(m) == old(NodeCell(m))
    {
      hide ServiceKey, NodeKey;
      var raw := Lookup(keys, NodeKey(prefix, n));
      assert raw == NodeContent(model, n);
      if raw.None? {
        return;
      }
      WriteNode(n, raw.value.node.(status := Unavailable));
    }
  }
}
