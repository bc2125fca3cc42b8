// controller/state_store.py: the in-memory store, the Redis store that refines it, and what the two do
// to a node when heartbeats and snapshots arrive.

module NodeTable {
  import opened Models
  import NodeAddress

  /** The node record after a heartbeat was written. */
  function Heard(current: Option<NodeState>, nodeId: NodeId, agentUrl: string, address: Option<string>,
                 at: Time): NodeState
  {
    var incoming := NodeAddress.Normalize(address);
    match current
    case None =>
      NodeState(nodeId, agentUrl, if incoming.Some? then incoming.value else NodeAddress.UNKNOWN, Healthy, at, None)
    case Some(n) =>
      var kept := NodeAddress.Normalize(Some(n.nodeAddress));
      n.(agentUrl := agentUrl, status := Healthy, lastHeartbeatAt := at,
         nodeAddress := if incoming.Some? then incoming.value
                        else if kept.Some? then kept.value else NodeAddress.UNKNOWN)
  }

  /** What can happen to a node record. */
  datatype NodeEvent =
    | Beat(agentUrl: string, address: Option<string>, at: Time)
    | Report(snapshot: Snapshot)
    | Mark

  /** The record after the event, where nothing is coalesced; a snapshot of an unknown node is rejected. */
  function PlainStep(current: Option<NodeState>, nodeId: NodeId, e: NodeEvent): Option<NodeState>
  {
    match e
    case Beat(url, address, at) => Some(Heard(current, nodeId, url, address, at))
    case Report(s) => if current.None? then None else Some(current.value.(snapshot := Some(s)))
    case Mark => if current.None? then None else Some(current.value.(status := Unavailable))
  }

  function Lookup<V>(table: map<string, V>, key: string): Option<V>
  {
    if key in table then Some(table[key]) else None
  }

  /** A node as the Redis store holds it, with the in-memory write-coalescing caches. */
  datatype Cell = Cell(stored: Option<NodeState>, lastWritten: Option<Time>, lastSnapshot: Option<Snapshot>)

  /** `RedisStateStore.upsert_node_heartbeat`: a heartbeat close to the last written one is dropped, whatever the
      node's status is. */
  function HeartbeatArrives(threshold: int, c: Cell, nodeId: NodeId, agentUrl: string, address: Option<string>,
                            at: Time): Cell
  {
    if c.lastWritten.Some? && at - c.lastWritten.value < threshold then c
    else c.(stored := Some(Heard(c.stored, nodeId, agentUrl, address, at)), lastWritten := Some(at))
  }

  function Abs(x: real): real { if x < 0.0 then -x else x }

  /** Both coordinates of the two snapshots differ by less than the threshold. */
  predicate Near(a: Snapshot, b: Snapshot, threshold: real)
  {
    Abs(a.cpu - b.cpu) < threshold && Abs(a.memory - b.memory) < threshold
  }

  /** `RedisStateStore.upsert_node_snapshot`; for an unknown node the source raises and nothing changes. */
  function SnapshotArrives(threshold: real, c: Cell, s: Snapshot): Cell
  {
    if c.lastSnapshot.Some? && Near(s, c.lastSnapshot.value, threshold) then c
    else if c.stored.None? then c
    else c.(stored := Some(c.stored.value.(snapshot := Some(s))), lastSnapshot := Some(s))
  }

  function MarkedUnavailable(c: Cell): Cell
  {
    if c.stored.None? then c else c.(stored := Some(c.stored.value.(status := Unavailable)))
  }
}

module StateStore {
  import opened Models
  import opened Lifecycle
  import opened NodeTable
  import opened Ordering

  /** The events of controller/ingress_manager.py; the texts other components log are not part of this model. */
  datatype Event = IngressUpdated(serviceId: ServiceId, target: string) | IngressReloadFailed(serviceId: ServiceId)

  /** A bounded log, newest entry first: `deque(maxlen=limit)`, or LPUSH followed by LTRIM. */
  function Pushed<T>(log: seq<T>, entry: T, limit: nat): seq<T>
  {
    if |log| + 1 <= limit then [entry] + log else ([entry] + log)[..limit]
  }

  function PushedAll<T>(entries: seq<T>, limit: nat): seq<T>
  {
    if entries == [] then [] else Pushed(PushedAll(entries[..|entries| - 1], limit), entries[|entries| - 1], limit)
  }

  /** After any number of entries the log holds the last ones up to its limit, the newest first. */
  lemma {:induction false} LogKeepsTheNewest<T>(entries: seq<T>, limit: nat)
    ensures var log := PushedAll(entries, limit);
            && |log| == (if |entries| <= limit then |entries| else limit)
            && forall k :: 0 <= k < |log| ==> log[k] == entries[|entries| - 1 - k]
  {
    if entries != [] {
      LogKeepsTheNewest(entries[..|entries| - 1], limit);
    }
  }

  /** `log[:limit]` in Python. */
  function FirstInMemory<T>(log: seq<T>, limit: int): seq<T>
  {
    if limit >= |log| then log
    else if limit >= 0 then log[..limit]
    else if |log| + limit >= 0 then log[..|log| + limit]
    else []
  }

  /** LRANGE from 0 to max(0, limit - 1), both ends included. */
  function FirstInRedis<T>(log: seq<T>, limit: int): seq<T>
  {
    var last := if limit - 1 > 0 then limit - 1 else 0;
    if last + 1 >= |log| then log else log[..last + 1]
  }

  /** The two stores list the same log entries for every positive limit, and otherwise only by coincidence. */
  lemma LogListingsAgree<T>(log: seq<T>, limit: int)
    ensures FirstInMemory(log, limit) == FirstInRedis(log, limit)
       <==> limit >= 1 || log == [] || (limit < 0 && |log| + limit == 1)
  {
    if log != [] && limit < 1 {
      assert |FirstInRedis(log, limit)| == 1;
    }
  }

  class InMemoryStateStore {
    const logLimit: nat
    var nodes: map<NodeId, NodeState>
    var desired: map<ServiceId, DesiredState>
    var observed: map<ServiceId, ObservedState>
    var placement: map<ServiceId, Placement>
    var pending: map<ServiceId, PendingDeployment>
    var restartCounter: map<ServiceId, nat>
    var serviceGeneration: map<ServiceId, nat>
    var recoveryHistory: seq<RecoveryRecord>
    var events: seq<Event>

    /** Every record is stored under the id it carries. */
    ghost predicate Valid()
      reads this
    {
      && (forall n :: n in nodes ==> nodes[n].nodeId == n)
      && (forall s :: s in desired ==> desired[s].service.serviceId == s)
      && (forall s :: s in placement ==> placement[s].serviceId == s)
      && (forall s :: s in pending ==> pending[s].serviceId == s)
    }

    /** The record of one service over all tables. */
    ghost function Record(s: ServiceId): (r: Service)
      reads this
      ensures r.id == s && r.effects == [] && r.cooldownUntil.None? && r.activeRecovery.None?
    {
      Service(s, Lookup(desired, s), Lookup(observed, s), Lookup(placement, s), Lookup(pending, s),
              Lookup(restartCounter, s).GetOr(0), Lookup(serviceGeneration, s).GetOr(0), None, None, [])
    }

    /** The placement list holds each service's placement at the position of its id. */
    lemma PlacementsListed()
      requires Valid()
      ensures var ids, ps := Sorted(placement.Keys), Listed(placement);
              && |ps| == |ids|
              && (forall i :: 0 <= i < |ids| ==> ps[i].serviceId == ids[i] && Record(ids[i]).placement == Some(ps[i]))
              && (forall s :: Record(s).placement.Some? ==> s in ids)
    {
      ListedAt(placement);
    }

    /** The list of pending deployments holds each service's record at the position of its id. */
    lemma PendingListed()
      requires Valid()
      ensures var ids, ps := Sorted(pending.Keys), Listed(pending);
              && |ps| == |ids|
              && (forall i :: 0 <= i < |ids| ==> ps[i].serviceId == ids[i])
              && (forall s :: s in ids <==> Record(s).pending.Some?)
    {
      ListedAt(pending);
    }

    constructor (logLimit: nat)
      ensures Valid() && this.logLimit == logLimit
      ensures nodes == map[] && recoveryHistory == [] && events == []
      ensures forall s :: Record(s) == Fresh(s)
    {
      this.logLimit := logLimit;
      nodes, desired, observed, placement, pending := map[], map[], map[], map[], map[];
      restartCounter, serviceGeneration := map[], map[];
      recoveryHistory, events := [], [];
    }

    method UpsertNodeHeartbeat(nodeId: NodeId, agentUrl: string, address: Option<string>, at: Time)
      requires Valid()
      modifies this`nodes
      ensures Valid()
      ensures nodes == old(nodes)[nodeId := Heard(Lookup(old(nodes), nodeId), nodeId, agentUrl, address, at)]
      ensures Lookup(nodes, nodeId) == PlainStep(Lookup(old(nodes), nodeId), nodeId, Beat(agentUrl, address, at))
      ensures forall x :: Record(x) == old(Record(x))
    {
      nodes := nodes[nodeId := Heard(Lookup(nodes, nodeId), nodeId, agentUrl, address, at)];
    }

    /** Returns false where the source raises for an unknown node. */
    method UpsertNodeSnapshot(nodeId: NodeId, snapshot: Snapshot) returns (known: bool)
      requires Valid()
      modifies this`nodes
      ensures Valid() && known == (nodeId in old(nodes))
      ensures nodes ==
        if known then old(nodes)[nodeId := old(nodes)[nodeId].(snapshot := Some(snapshot))] else old(nodes)
      ensures Lookup(nodes, nodeId) == PlainStep(Lookup(old(nodes), nodeId), nodeId, Report(snapshot))
      ensures forall x :: Record(x) == old(Record(x))
    {
      known := nodeId in nodes;
      if known {
        nodes := nodes[nodeId := nodes[nodeId].(snapshot := Some(snapshot))];
      }
    }

    method MarkNodeUnavailable(nodeId: NodeId)
      requires Valid()
      modifies this`nodes
      ensures Valid()
      ensures nodes ==
        if nodeId in old(nodes) then old(nodes)[nodeId := old(nodes)[nodeId].(status := Unavailable)] else old(nodes)
      ensures Lookup(nodes, nodeId) == PlainStep(Lookup(old(nodes), nodeId), nodeId, Mark)
      ensures forall x :: Record(x) == old(Record(x))
    {
      if nodeId in nodes {
        nodes := nodes[nodeId := nodes[nodeId].(status := Unavailable)];
      }
    }

    method ListNodes() returns (r: seq<NodeState>)
      ensures r == Listed(nodes)
    {
      r := ListTable(nodes);
    }

    method SetServiceDesired(state: DesiredState)
      modifies this`desired
      ensures desired == old(desired)[state.service.serviceId := state]
      ensures Record(state.service.serviceId) == old(Record(state.service.serviceId)).(desired := Some(state))
      ensures (old(Valid()) ==> Valid()) && forall x :: x != state.service.serviceId ==> Record(x) == old(Record(x))
    {
      desired := desired[state.service.serviceId := state];
    }

    method GetServiceDesired(s: ServiceId) returns (r: Option<DesiredState>)
      ensures r == Record(s).desired
      ensures Valid() && r.Some? ==> r.value.service.serviceId == s
    {
      r := Lookup(desired, s);
    }

    method SetServiceObserved(s: ServiceId, state: ObservedState)
      modifies this`observed
      ensures observed == old(observed)[s := state]
      ensures Record(s) == old(Record(s)).Observe(state)
      ensures (old(Valid()) ==> Valid()) && forall x :: x != s ==> Record(x) == old(Record(x))
    {
      observed := observed[s := state];
    }

    method GetServiceObserved(s: ServiceId) returns (r: Option<ObservedState>)
      ensures r == Record(s).observed
    {
      r := Lookup(observed, s);
    }

    method SetPlacement(p: Placement)
      modifies this`placement
      ensures placement == old(placement)[p.serviceId := p]
      ensures Record(p.serviceId) == old(Record(p.serviceId)).(placement := Some(p))
      ensures (old(Valid()) ==> Valid()) && forall x :: x != p.serviceId ==> Record(x) == old(Record(x))
    {
      placement := placement[p.serviceId := p];
    }

    method GetPlacement(s: ServiceId) returns (r: Option<Placement>)
      ensures r == Record(s).placement
    {
      r := Lookup(placement, s);
    }

    method ClearPlacement(s: ServiceId)
      modifies this`placement
      ensures placement == old(placement) - {s}
      ensures Record(s) == old(Record(s)).(placement := None)
      ensures (old(Valid()) ==> Valid()) && forall x :: x != s ==> Record(x) == old(Record(x))
    {
      placement := placement - {s};
    }

    method ListPlacements() returns (r: seq<Placement>)
      ensures r == Listed(placement)
    {
      r := ListTable(placement);
    }

    method SetPendingDeployment(p: PendingDeployment)
      modifies this`pending
      ensures pending == old(pending)[p.serviceId := p]
      ensures Record(p.serviceId) == old(Record(p.serviceId)).(pending := Some(p))
      ensures (old(Valid()) ==> Valid()) && forall x :: x != p.serviceId ==> Record(x) == old(Record(x))
    {
      pending := pending[p.serviceId := p];
    }

    method PopPendingDeployment(s: ServiceId)
      modifies this`pending
      ensures pending == old(pending) - {s}
      ensures Record(s) == old(Record(s)).(pending := None)
      ensures (old(Valid()) ==> Valid()) && forall x :: x != s ==> Record(x) == old(Record(x))
    {
      pending := pending - {s};
    }

    method ListPendingDeployments() returns (r: seq<PendingDeployment>)
      ensures r == Listed(pending)
    {
      r := ListTable(pending);
    }

    method IncrementRestartCounter(s: ServiceId) returns (count: nat)
      modifies this`restartCounter
      ensures count == old(Record(s)).restarts + 1 == Lookup(old(restartCounter), s).GetOr(0) + 1
      ensures restartCounter == old(restartCounter)[s := count]
      ensures Record(s) == old(Record(s)).(restarts := count)
      ensures (old(Valid()) ==> Valid()) && forall x :: x != s ==> Record(x) == old(Record(x))
    {
      count := Lookup(restartCounter, s).GetOr(0) + 1;
      restartCounter := restartCounter[s := count];
    }

    method ResetRestartCounter(s: ServiceId)
      modifies this`restartCounter
      ensures restartCounter == old(restartCounter)[s := 0]
      ensures Record(s) == old(Record(s)).(restarts := 0)
      ensures (old(Valid()) ==> Valid()) && forall x :: x != s ==> Record(x) == old(Record(x))
    {
      restartCounter := restartCounter[s := 0];
    }

    method GetServiceGeneration(s: ServiceId) returns (generation: nat)
      ensures generation == Record(s).generation
    {
      generation := Lookup(serviceGeneration, s).GetOr(0);
    }

    method IncrementServiceGeneration(s: ServiceId) returns (generation: nat)
      modifies this`serviceGeneration
      ensures generation == old(Record(s)).generation + 1 == Lookup(old(serviceGeneration), s).GetOr(0) + 1
      ensures serviceGeneration == old(serviceGeneration)[s := generation]
      ensures Record(s) == old(Record(s)).(generation := generation)
      ensures (old(Valid()) ==> Valid()) && forall x :: x != s ==> Record(x) == old(Record(x))
    {
      generation := Lookup(serviceGeneration, s).GetOr(0) + 1;
      serviceGeneration := serviceGeneration[s := generation];
    }

    method AddRecoveryRecord(record: RecoveryRecord)
      modifies this`recoveryHistory
      ensures recoveryHistory == Pushed(old(recoveryHistory), record, logLimit)
      ensures (old(Valid()) ==> Valid()) && forall x :: Record(x) == old(Record(x))
    {
      recoveryHistory := Pushed(recoveryHistory, record, logLimit);
    }

    method ListRecoveryRecords(limit: int) returns (r: seq<RecoveryRecord>)
      ensures r == FirstInMemory(recoveryHistory, limit)
    {
      r := FirstInMemory(recoveryHistory, limit);
    }

    method AppendEvent(event: Event)
      modifies this`events
      ensures events == Pushed(old(events), event, logLimit)
      ensures (old(Valid()) ==> Valid()) && forall x :: Record(x) == old(Record(x))
    {
      events := Pushed(events, event, logLimit);
    }

    method ListEvents(limit: int) returns (r: seq<Event>)
      ensures r == FirstInMemory(events, limit)
    {
      r := FirstInMemory(events, limit);
    }
  }
}
