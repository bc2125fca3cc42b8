// Handlers as coroutines: one atomic step per store call, agent call or access to an in-memory table, as the event
// loop runs them.

module Coroutines {
  import opened Models
  import opened Lifecycle

  type NodeList = seq<NodeState>

  /** A step that writes one of the service's records. */
  datatype Write =
    | PutObserved(o: ObservedState)
    | PutDesired(d: DesiredState)
    | PutPlacement(node: NodeId, placedAt: Time)
    | ClearPlacement
    | PutPending(reason: PendingReason, createdAt: Time)
    | PopPending
    | ResetCounter
    | AddRecord(cause: RecoveryCause, fromNode: NodeId, toNode: NodeId, occurredAt: Time)
    | PutCooldown(until: Time)
    | ClearCooldown
    | ReleaseRecovery
    | Call(e: Effect)  // an agent call, or the notification of the ingress manager
    | Enter            // the handler starts with a clean list of effects

  function Perform(w: Write, st: Service): Service
  {
    match w
    case PutObserved(o) => st.Observe(o)
    case PutDesired(d) => st.(desired := Some(d))
    case PutPlacement(node, at) => st.(placement := Some(Placement(st.id, node, at)))
    case ClearPlacement => st.(placement := None)
    case PutPending(reason, at) => st.Park(reason, at)
    case PopPending => st.(pending := None)
    case ResetCounter => st.ResetRestarts()
    case AddRecord(cause, fromNode, toNode, at) => st.Did(Recovered(RecoveryRecord(st.id, cause, fromNode, toNode, at)))
    case PutCooldown(until) => st.(cooldownUntil := Some(until))
    case ClearCooldown => st.(cooldownUntil := None)
    case ReleaseRecovery => st.(activeRecovery := None)
    case Call(e) => st.Did(e)
    case Enter => st.(effects := [])
  }

  /** What is left to run of a handler; every constructor but Done stands for one atomic step. */
  datatype Code =
    | Done
    | Do(write: Write, rest: Code)
    | GetObserved(withObserved: Option<ObservedState> -> Code)
    | GetDesired(withDesired: Option<DesiredState> -> Code)
    | GetPlacement(withPlacement: Option<Placement> -> Code)
    | GetGeneration(withGeneration: nat -> Code)
    | IncrementRestarts(withCount: nat -> Code)
    | IncrementGeneration(withNewGeneration: nat -> Code)
    | TryAcquireRecovery(generation: nat, acquired: Code)  // a refusal ends the handler
    | UnlessInCooldown(at: Time, otherwise: Code)          // a cooldown ends the handler
    | ListNodes(withNodes: NodeList -> Code)

  datatype Config = Config(code: Code, st: Service)

  /** One atomic step on the service's records and the node table of the moment. */
  function Advance(c: Config, nodes: NodeList): Config
  {
    var st := c.st;
    match c.code
    case Done => c
    case Do(write, rest) => Config(rest, Perform(write, st))
    case GetObserved(next) => Config(next(st.observed), st)
    case GetDesired(next) => Config(next(st.desired), st)
    case GetPlacement(next) => Config(next(st.placement), st)
    case GetGeneration(next) => Config(next(st.generation), st)
    case IncrementRestarts(next) => Config(next(st.restarts + 1), st.(restarts := st.restarts + 1))
    case IncrementGeneration(next) => Config(next(st.generation + 1), st.(generation := st.generation + 1))
    case TryAcquireRecovery(generation, acquired) =>
      if st.activeRecovery == Some(generation) then Config(Done, st)
      else Config(acquired, st.(activeRecovery := Some(generation)))
    case UnlessInCooldown(at, otherwise) => Config(if InCooldown(st, at) then Done else otherwise, st)
    case ListNodes(next) => Config(next(nodes), st)
  }

  /** The handler run alone: one step per node table of the sequence. */
  function Solo(c: Config, tables: seq<NodeList>): Config
    decreases |tables|
  {
    if tables == [] then c else Solo(Advance(c, tables[0]), tables[1..])
  }

  /** The node tables that the handler reads when it runs alone, in the order of its reads. */
  function Reads(c: Config, tables: seq<NodeList>): seq<NodeList>
    decreases |tables|
  {
    if tables == [] then []
    else (if c.code.ListNodes? then [tables[0]] else []) + Reads(Advance(c, tables[0]), tables[1..])
  }

  /** Run alone from st, the code can come to its end at out with exactly these reads of the node table. */
  ghost predicate Ends(c: Code, st: Service, seen: seq<NodeList>, out: Service)
  {
    exists ts: seq<NodeList> :: Solo(Config(c, st), ts) == Config(Done, out) && Reads(Config(c, st), ts) == seen
  }

  lemma {:induction false} DoneStays(st: Service, ts: seq<NodeList>)
    ensures Solo(Config(Done, st), ts) == Config(Done, st) && Reads(Config(Done, st), ts) == []
    decreases |ts|
  {
    if ts != [] { DoneStays(st, ts[1..]); }
  }

  lemma DoneEnds(st: Service, seen: seq<NodeList>, out: Service)
    requires Ends(Done, st, seen, out)
    ensures out == st && seen == []
  {
    var ts: seq<NodeList> :| Solo(Config(Done, st), ts) == Config(Done, out) && Reads(Config(Done, st), ts) == seen;
    DoneStays(st, ts);
  }

  /** The first step of a coroutine that comes to its end, if it is not a read of the node table. */
  lemma Follow(c: Config, seen: seq<NodeList>, out: Service) returns (next: Config)
    requires !c.code.Done? && !c.code.ListNodes? && Ends(c.code, c.st, seen, out)
    ensures next == Advance(c, []) && Ends(next.code, next.st, seen, out)
  {
    var ts: seq<NodeList> :| Solo(c, ts) == Config(Done, out) && Reads(c, ts) == seen;
    assert ts != [];
    next := Advance(c, ts[0]);
    assert Solo(next, ts[1..]) == Config(Done, out) && Reads(next, ts[1..]) == seen;
  }

  /** The first step is a write. */
  lemma FollowDo(c: Config, seen: seq<NodeList>, out: Service) returns (next: Config)
    requires c.code.Do? && Ends(c.code, c.st, seen, out)
    ensures next == Config(c.code.rest, Perform(c.code.write, c.st)) && Ends(next.code, next.st, seen, out)
  {
    hide Ends;
    next := Follow(c, seen, out);
  }

  /** The first step is a read of the node table, the first of the coroutine's reads. */
  lemma FollowRead(c: Config, seen: seq<NodeList>, out: Service) returns (next: Config)
    requires c.code.ListNodes? && Ends(c.code, c.st, seen, out)
    ensures seen != [] && next == Advance(c, seen[0]) && Ends(next.code, next.st, seen[1..], out)
  {
    var ts: seq<NodeList> :| Solo(c, ts) == Config(Done, out) && Reads(c, ts) == seen;
    assert ts != [];
    next := Advance(c, ts[0]);
    assert seen == [ts[0]] + Reads(next, ts[1..]);
    assert Solo(next, ts[1..]) == Config(Done, out) && Reads(next, ts[1..]) == seen[1..];
  }
}
