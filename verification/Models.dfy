// The records of controller/models.py.  Times are integers, utilisations are reals, and an identifier
// is a string compared as Python compares strings.

module Models {

  type NodeId = string
  type ServiceId = string
  type Time = int

  datatype Option<+T> = None | Some(value: T)
  {
    function GetOr(default: T): T { if Some? then value else default }
  }

  datatype NodeStatus = Healthy | Unavailable

  datatype Health = IsHealthy | IsUnhealthy | Unknown

  datatype Status = Deploying | Running | Stopped | Pending | PlacementFailed | Failed

  datatype Snapshot = Snapshot(cpu: real, memory: real)

  datatype NodeState = NodeState(
    nodeId: NodeId,
    agentUrl: string,
    nodeAddress: string,
    status: NodeStatus,
    lastHeartbeatAt: Time,
    snapshot: Option<Snapshot>)

  datatype ServiceSpec = ServiceSpec(
    serviceId: ServiceId,
    image: string,
    internalPort: nat,
    publishedPort: Option<int>,
    healthEndpoint: string,
    minFreeCpu: real,
    minFreeMemory: real)

  datatype DesiredState = DesiredState(service: ServiceSpec, status: Status, createdAt: Time, updatedAt: Time)

  datatype ObservedState = ObservedState(
    status: Status,
    health: Health,
    containerId: Option<string>,
    nodeId: Option<NodeId>,
    lastReportedAt: Time,
    generation: nat,
    startupGraceUntil: Option<Time>)

  datatype Placement = Placement(serviceId: ServiceId, nodeId: NodeId, placedAt: Time)

  /** Why a service waits for a deployment; the source keeps these as texts. */
  datatype PendingReason =
    | NoEligibleNode
    | AgentRefused(error: string)
    | RestartFailed
    | RestartExhaustedNoCandidate
    | RestartExhaustedTargetGone
    | RestartExhaustedDeployFailed
    | CurrentNodeMissing
    | UnreachableNoCandidate
    | UnreachableTargetGone
    | UnreachableDeployFailed

  datatype PendingDeployment = PendingDeployment(serviceId: ServiceId, reason: PendingReason, createdAt: Time)

  /** The (action, reason) pairs a recovery record can carry. */
  datatype RecoveryCause = RestartedInPlace | RescheduledAfterRestarts | RescheduledFromUnreachable

  datatype RecoveryRecord = RecoveryRecord(
    serviceId: ServiceId,
    cause: RecoveryCause,
    fromNode: NodeId,
    toNode: NodeId,
    occurredAt: Time)

  datatype HealthReport = HealthReport(
    nodeId: NodeId,
    healthy: bool,
    consecutiveFailures: nat,
    observedAt: Time,
    generation: Option<int>)

  datatype CrashReport = CrashReport(nodeId: NodeId, occurredAt: Time, generation: Option<int>)

  /** `_find_node`: the first node of the list with the given id. */
  function FindNode(nodes: seq<NodeState>, nodeId: NodeId): (r: Option<NodeState>)
    ensures r.Some? ==> r.value in nodes && r.value.nodeId == nodeId
    ensures r.None? ==> forall n :: n in nodes ==> n.nodeId != nodeId
  {
    if nodes == [] then None
    else if nodes[0].nodeId == nodeId then Some(nodes[0])
    else FindNode(nodes[1..], nodeId)
  }

  /** The nodes of the list whose id differs from the given one, in the list's order. */
  function WithoutNode(nodes: seq<NodeState>, nodeId: NodeId): (r: seq<NodeState>)
    ensures forall n :: n in r <==> n in nodes && n.nodeId != nodeId
  {
    if nodes == [] then []
    else if nodes[0].nodeId == nodeId then WithoutNode(nodes[1..], nodeId)
    else [nodes[0]] + WithoutNode(nodes[1..], nodeId)
  }
}
