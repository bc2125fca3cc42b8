// The two stores side by side: every service operation has one meaning on the dictionaries, both stores follow it, and
// so any sequence of operations gets the same replies from both.

module StoreRefinement {
  import opened Models
  import opened NodeTable
  import opened Ordering
  import opened RedisStore
  import opened StateStore

  datatype Op =
    | SetDesired(desired: DesiredState)
    | GetDesired(serviceId: ServiceId)
    | SetObserved(serviceId: ServiceId, observed: ObservedState)
    | GetObserved(serviceId: ServiceId)
    | SetPlacement(placement: Placement)
    | GetPlacement(serviceId: ServiceId)
    | ClearPlacement(serviceId: ServiceId)
    | ListPlacements
    | SetPending(pending: PendingDeployment)
    | PopPending(serviceId: ServiceId)
    | ListPending
    | IncrementRestarts(serviceId: ServiceId)
    | ResetRestarts(serviceId: ServiceId)
    | GetGeneration(serviceId: ServiceId)
    | IncrementGeneration(serviceId: ServiceId)
    | AddRecovery(record: RecoveryRecord)
    | ListRecoveries(limit: int)
    | AddEvent(event: Event)
    | ListEvents(limit: int)
  {
    /** Listings below one are where the two stores differ. */
    predicate Proper() { (ListRecoveries? || ListEvents?) ==> limit >= 1 }

    predicate IsQuery()
    {
      GetDesired? || GetObserved? || GetPlacement? || ListPlacements? || ListPending? || GetGeneration? ||
      ListRecoveries? || ListEvents?
    }

    predicate IsRecordUpdate()
    {
      SetDesired? || SetObserved? || SetPlacement? || ClearPlacement? || SetPending? || PopPending?
    }
  }

  datatype Reply =
    | Ack
    | DesiredIs(desired: Option<DesiredState>)
    | ObservedIs(observed: Option<ObservedState>)
    | PlacementIs(placement: Option<Placement>)
    | Placements(placements: seq<Placement>)
    | Pendings(pendings: seq<PendingDeployment>)
    | Count(count: nat)
    | Recoveries(records: seq<RecoveryRecord>)
    | Events(events: seq<Event>)

  /** What the operation does to the dictionaries. */
  function Next(t: Tables, op: Op, max: nat): Tables
  {
    match op
    case SetDesired(d) => t.(desired := t.desired[d.service.serviceId := d])
    case SetObserved(s, o) => t.(observed := t.observed[s := o])
    case SetPlacement(p) => t.(placement := t.placement[p.serviceId := p])
    case ClearPlacement(s) => t.(placement := t.placement - {s})
    case SetPending(p) => t.(pending := t.pending[p.serviceId := p])
    case PopPending(s) => t.(pending := t.pending - {s})
    case IncrementRestarts(s) => t.(restartCounter := t.restartCounter[s := Lookup(t.restartCounter, s).GetOr(0) + 1])
    case ResetRestarts(s) => t.(restartCounter := t.restartCounter[s := 0])
    case IncrementGeneration(s) =>
      t.(serviceGeneration := t.serviceGeneration[s := Lookup(t.serviceGeneration, s).GetOr(0) + 1])
    case AddRecovery(record) => t.(recoveryHistory := Pushed(t.recoveryHistory, record, max))
    case AddEvent(event) => t.(events := Pushed(t.events, event, max))
    case _ => t
  }

  /** What it replies. */
  ghost function Answer(t: Tables, op: Op): Reply
  {
    match op
    case GetDesired(s) => DesiredIs(Lookup(t.desired, s))
    case GetObserved(s) => ObservedIs(Lookup(t.observed, s))
    case GetPlacement(s) => PlacementIs(Lookup(t.placement, s))
    case ListPlacements => Placements(Listed(t.placement))
    case ListPending => Pendings(Listed(t.pending))
    case IncrementRestarts(s) => Count(Lookup(t.restartCounter, s).GetOr(0) + 1)
    case GetGeneration(s) => Count(Lookup(t.serviceGeneration, s).GetOr(0))
    case IncrementGeneration(s) => Count(Lookup(t.serviceGeneration, s).GetOr(0) + 1)
    case ListRecoveries(limit) => Recoveries(FirstInMemory(t.recoveryHistory, limit))
    case ListEvents(limit) => Events(FirstInMemory(t.events, limit))
    case _ => Ack
  }

  ghost function Replies(t: Tables, ops: seq<Op>, max: nat): seq<Reply>
    decreases |ops|
  {
    if ops == [] then [] else [Answer(t, ops[0])] + Replies(Next(t, ops[0], max), ops[1..], max)
  }

  function Final(t: Tables, ops: seq<Op>, max: nat): Tables
    decreases |ops|
  {
    if ops == [] then t else Final(Next(t, ops[0], max), ops[1..], max)
  }

  ghost function TablesOf(m: InMemoryStateStore): Tables
    reads m
  {
    Tables(m.nodes, m.desired, m.observed, m.placement, m.pending, m.restartCounter, m.serviceGeneration,
           m.recoveryHistory, m.events)
  }

  method InMemoryQuery(m: InMemoryStateStore, op: Op) returns (reply: Reply)
    requires op.IsQuery()
    ensures reply == Answer(TablesOf(m), op)
  {
    hide Listed, Sorted, Pushed, FirstInMemory, InMemoryStateStore.Valid;
    match op
    case GetDesired(s) => var r := m.GetServiceDesired(s); reply := DesiredIs(r);
    case GetObserved(s) => var r := m.GetServiceObserved(s); reply := ObservedIs(r);
    case GetPlacement(s) => var r := m.GetPlacement(s); reply := PlacementIs(r);
    case ListPlacements => var r := m.ListPlacements(); reply := Placements(r);
    case ListPending => var r := m.ListPendingDeployments(); reply := Pendings(r);
    case GetGeneration(s) => var n := m.GetServiceGeneration(s); reply := Count(n);
    case ListRecoveries(limit) => var r := m.ListRecoveryRecords(limit); reply := Recoveries(r);
    case ListEvents(limit) => var r := m.ListEvents(limit); reply := Events(r);
  }

  method InMemoryRecordUpdate(m: InMemoryStateStore, op: Op)
    requires op.IsRecordUpdate()
    modifies m
    ensures TablesOf(m) == Next(old(TablesOf(m)), op, m.logLimit)
  {
    hide Listed, Sorted, InMemoryStateStore.Valid, InMemoryStateStore.Record;
    match op
    case SetDesired(d) => m.SetServiceDesired(d);
    case SetObserved(s, o) => m.SetServiceObserved(s, o);
    case SetPlacement(p) => m.SetPlacement(p);
    case ClearPlacement(s) => m.ClearPlacement(s);
    case SetPending(p) => m.SetPendingDeployment(p);
    case PopPending(s) => m.PopPendingDeployment(s);
  }

  method InMemoryUpdate(m: InMemoryStateStore, op: Op) returns (reply: Reply)
    requires !op.IsQuery() && !op.IsRecordUpdate()
    modifies m
    ensures TablesOf(m) == Next(old(TablesOf(m)), op, m.logLimit) && reply == Answer(old(TablesOf(m)), op)
  {
    hide Listed, Sorted, Pushed, FirstInMemory, InMemoryStateStore.Valid, InMemoryStateStore.Record;
    reply := Ack;
    match op
    case IncrementRestarts(s) => var n := m.IncrementRestartCounter(s); reply := Count(n);
    case ResetRestarts(s) => m.ResetRestartCounter(s);
    case IncrementGeneration(s) => var n := m.IncrementServiceGeneration(s); reply := Count(n);
    case AddRecovery(record) => m.AddRecoveryRecord(record);
    case AddEvent(event) => m.AppendEvent(event);
  }

  method InMemory(m: InMemoryStateStore, op: Op) returns (reply: Reply)
    modifies m
    ensures TablesOf(m) == Next(old(TablesOf(m)), op, m.logLimit) && reply == Answer(old(TablesOf(m)), op)
  {
    if op.IsQuery() {
      reply := InMemoryQuery(m, op);
    } else if op.IsRecordUpdate() {
      InMemoryRecordUpdate(m, op);
      reply := Ack;
    } else {
      reply := InMemoryUpdate(m, op);
    }
  }

  method InRedisQuery(redis: RedisStateStore, op: Op) returns (reply: Reply)
    requires op.IsQuery() && redis.Valid() && op.Proper()
    ensures reply == Answer(redis.model, op)
  {
    hide Listed, Sorted, Pushed, FirstInMemory, FirstInRedis, RedisStateStore.Valid;
    match op
    case GetDesired(s) => var r := redis.GetServiceDesired(s); reply := DesiredIs(r);
    case GetObserved(s) => var r := redis.GetServiceObserved(s); reply := ObservedIs(r);
    case GetPlacement(s) => var r := redis.GetPlacement(s); reply := PlacementIs(r);
    case ListPlacements => var r := redis.ListPlacements(); reply := Placements(r);
    case ListPending => var r := redis.ListPendingDeployments(); reply := Pendings(r);
    case GetGeneration(s) => var n := redis.GetServiceGeneration(s); reply := Count(n);
    case ListRecoveries(limit) => var r := redis.ListRecoveryRecords(limit); reply := Recoveries(r);
    case ListEvents(limit) => var r := redis.ListEvents(limit); reply := Events(r);
  }

  method InRedisUpdate(redis: RedisStateStore, op: Op) returns (reply: Reply)
    requires !op.IsQuery() && redis.Valid()
    modifies redis
    ensures redis.Valid()
    ensures redis.model == Next(old(redis.model), op, redis.logLimit) && reply == Answer(old(redis.model), op)
  {
    hide Listed, Sorted, Pushed, FirstInMemory, FirstInRedis, RedisStateStore.Valid;
    reply := Ack;
    match op
    case SetDesired(d) => redis.SetServiceDesired(d);
    case SetObserved(s, o) => redis.SetServiceObserved(s, o);
    case SetPlacement(p) => redis.SetPlacement(p);
    case ClearPlacement(s) => redis.ClearPlacement(s);
    case SetPending(p) => redis.SetPendingDeployment(p);
    case PopPending(s) => redis.PopPendingDeployment(s);
    case IncrementRestarts(s) => var n := redis.IncrementRestartCounter(s); reply := Count(n);
    case ResetRestarts(s) => redis.ResetRestartCounter(s);
    case IncrementGeneration(s) => var n := redis.IncrementServiceGeneration(s); reply := Count(n);
    case AddRecovery(record) => redis.AddRecoveryRecord(record);
    case AddEvent(event) => redis.AppendEvent(event);
  }

  method InRedis(redis: RedisStateStore, op: Op) returns (reply: Reply)
    requires redis.Valid() && op.Proper()
    modifies redis
    ensures redis.Valid()
    ensures redis.model == Next(old(redis.model), op, redis.logLimit) && reply == Answer(old(redis.model), op)
  {
    hide Answer;
    if op.IsQuery() {
      reply := InRedisQuery(redis, op);
    } else {
      reply := InRedisUpdate(redis, op);
    }
  }

  lemma {:induction false} RunSnoc(t: Tables, ops: seq<Op>, op: Op, max: nat)
    ensures Final(t, ops + [op], max) == Next(Final(t, ops, max), op, max)
    ensures Replies(t, ops + [op], max) == Replies(t, ops, max) + [Answer(Final(t, ops, max), op)]
    decreases |ops|
  {
    hide Next, Answer;
    if ops == [] {
      assert [] + [op] == [op] && [op][1..] == [];
    } else {
      assert (ops + [op])[1..] == ops[1..] + [op];
      RunSnoc(Next(t, ops[0], max), ops[1..], op, max);
    }
  }

  /** Two stores that stand for the same dictionaries give the same replies to every sequence of operations, and stand
      for the same dictionaries afterwards. */
  method SideBySide(m: InMemoryStateStore, redis: RedisStateStore, ops: seq<Op>)
      returns (here: seq<Reply>, there: seq<Reply>)
    requires redis.Valid() && redis.model == TablesOf(m) && redis.logLimit == m.logLimit
    requires forall i :: 0 <= i < |ops| ==> ops[i].Proper()
    modifies m, redis
    ensures redis.Valid() && redis.model == TablesOf(m) && here == there
    ensures here == Replies(old(TablesOf(m)), ops, m.logLimit)
      && TablesOf(m) == Final(old(TablesOf(m)), ops, m.logLimit)
  {
    hide Next, Answer, RedisStateStore.Valid;
    here, there := [], [];
    ghost var t := TablesOf(m);
    for i := 0 to |ops|
      invariant redis.Valid() && redis.model == TablesOf(m) == Final(t, ops[..i], m.logLimit)
      invariant here == there == Replies(t, ops[..i], m.logLimit)
    {
      RunSnoc(t, ops[..i], ops[i], m.logLimit);
      assert ops[..i + 1] == ops[..i] + [ops[i]];
      var a := InMemory(m, ops[i]);
      var b := InRedis(redis, ops[i]);
      here, there := here + [a], there + [b];
    }
    assert ops[..|ops|] == ops;
  }
}
