// Handlers of any services interleaved step by step under the lock table of the state store
// (controller/state_store.py), and why each service still behaves as if its handlers ran whole, one at a time, in the
// order in which they took its lock.

module Serialisability {
  import opened Models
  import opened Lifecycle
  import opened Coroutines

  /** A handler call for a service. */
  datatype Job = Job(service: ServiceId, code: Code)

  datatype Phase =
    | Arrived                                        // before `acquire_service_lock`
    | Queued(lock: nat)                              // has the lock object, waits for the lock
    | Inside(held: nat, visit: nat, rest: Code)      // holds the lock; `rest` is left to run
    | Left

  datatype Task = Task(job: Job, phase: Phase)

  /** One taking of a lock: the handler that took it, and the node tables of the moments of its steps. */
  datatype Visit = Visit(job: Job, tables: seq<NodeList>)

  /** `visits` is a history variable: the takings of all locks in their order. */
  datatype World = World(
    records: map<ServiceId, Service>,
    nodes: NodeList,
    locks: map<ServiceId, nat>,
    nextLock: nat,
    taken: set<nat>,
    tasks: seq<Task>,
    visits: seq<Visit>)

  datatype Move =
    | Arrive(job: Job)
    | FetchLock(task: nat)
    | TakeLock(task: nat)
    | RunStep(task: nat)
    | ReleaseLock(task: nat)
    | NodesChange(nodes: NodeList)

  function RecordOf(w: World, s: ServiceId): Service { if s in w.records then w.records[s] else Fresh(s) }

  function Start(nodes: NodeList): World { World(map[], nodes, map[], 0, {}, [], []) }

  predicate Possible(w: World, m: Move)
  {
    match m
    case Arrive(_) => true
    case NodesChange(_) => true
    case FetchLock(i) => i < |w.tasks| && w.tasks[i].phase.Arrived?
    case TakeLock(i) => i < |w.tasks| && w.tasks[i].phase.Queued? && w.tasks[i].phase.lock !in w.taken
    case RunStep(i) => i < |w.tasks| && w.tasks[i].phase.Inside? && !w.tasks[i].phase.rest.Done?
    case ReleaseLock(i) => i < |w.tasks| && w.tasks[i].phase.Inside? && w.tasks[i].phase.rest.Done?
  }

  function Put(w: World, i: nat, phase: Phase): World
    requires i < |w.tasks|
  {
    w.(tasks := w.tasks[i := w.tasks[i].(phase := phase)])
  }

  function Noted(visits: seq<Visit>, k: nat, nodes: NodeList): seq<Visit>
  {
    if k < |visits| then visits[k := visits[k].(tables := visits[k].tables + [nodes])] else visits
  }

  function Moved(w: World, m: Move): World
    requires Possible(w, m)
  {
    match m
    case Arrive(job) => w.(tasks := w.tasks + [Task(job, Arrived)])
    case NodesChange(nodes) => w.(nodes := nodes)
    case FetchLock(i) =>
      var s := w.tasks[i].job.service;
      if s in w.locks then Put(w, i, Queued(w.locks[s]))
      else Put(w.(locks := w.locks[s := w.nextLock], nextLock := w.nextLock + 1), i, Queued(w.nextLock))
    case TakeLock(i) =>
      var job, lock := w.tasks[i].job, w.tasks[i].phase.lock;
      Put(w.(taken := w.taken + {lock}, visits := w.visits + [Visit(job, [])]), i, Inside(lock, |w.visits|, job.code))
    case RunStep(i) =>
      var Inside(lock, visit, rest) := w.tasks[i].phase;
      var s := w.tasks[i].job.service;
      var next := Advance(Config(rest, RecordOf(w, s)), w.nodes);
      Put(w.(records := w.records[s := next.st], visits := Noted(w.visits, visit, w.nodes)), i,
          Inside(lock, visit, next.code))
    case ReleaseLock(i) => Put(w.(taken := w.taken - {w.tasks[i].phase.held}), i, Left)
  }

  ghost predicate Feasible(w: World, ms: seq<Move>)
    decreases |ms|
  {
    ms == [] || (Possible(w, ms[0]) && Feasible(Moved(w, ms[0]), ms[1..]))
  }

  /** The world after a sequence of moves. */
  function After(w: World, ms: seq<Move>): World
    requires Feasible(w, ms)
    decreases |ms|
  {
    if ms == [] then w else After(Moved(w, ms[0]), ms[1..])
  }

  /** The record of s after the handlers of the visits ran alone, one after the other. */
  function Serial(visits: seq<Visit>, s: ServiceId): Service
    decreases |visits|
  {
    if visits == [] then Fresh(s)
    else
      var earlier := Serial(visits[..|visits| - 1], s);
      var v := visits[|visits| - 1];
      if v.job.service != s then earlier else Solo(Config(v.job.code, earlier), v.tables).st
  }

  /** Where visit n has got to when the handlers before it ran alone. */
  function Reached(visits: seq<Visit>, n: nat): Config
    requires n < |visits|
  {
    Solo(Config(visits[n].job.code, Serial(visits[..n], visits[n].job.service)), visits[n].tables)
  }

  predicate HasLock(t: Task) { t.phase.Queued? || t.phase.Inside? }

  function LockOf(t: Task): nat
    requires HasLock(t)
  {
    if t.phase.Queued? then t.phase.lock else t.phase.held
  }

  /** One lock per service and one service per lock. */
  ghost predicate LocksAgree(w: World)
  {
    && (forall s :: s in w.locks ==> w.locks[s] < w.nextLock)
    && (forall s, r :: s in w.locks && r in w.locks && s != r ==> w.locks[s] != w.locks[r])
    && (forall i :: 0 <= i < |w.tasks| && HasLock(w.tasks[i]) ==>
         w.tasks[i].job.service in w.locks && LockOf(w.tasks[i]) == w.locks[w.tasks[i].job.service])
  }

  /** Mutual exclusion: at most one handler of a service is inside, and its lock is taken. */
  ghost predicate OneInside(w: World)
  {
    && (forall i :: 0 <= i < |w.tasks| && w.tasks[i].phase.Inside? ==> w.tasks[i].phase.held in w.taken)
    && (forall i, j :: 0 <= i < j < |w.tasks| && w.tasks[i].phase.Inside? && w.tasks[j].phase.Inside? ==>
         w.tasks[i].job.service != w.tasks[j].job.service)
  }

  /** A handler inside is the last visitor of its service and has got where it would have got alone. */
  ghost predicate OnTrack(visits: seq<Visit>, t: Task)
  {
    t.phase.Inside? ==>
      && t.phase.visit < |visits| && visits[t.phase.visit].job == t.job
      && (forall n :: t.phase.visit < n < |visits| ==> visits[n].job.service != t.job.service)
      && Reached(visits, t.phase.visit).code == t.phase.rest
  }

  /** The handler that made visit n has come to its end. */
  ghost predicate Finished(visits: seq<Visit>, n: nat)
    requires n < |visits|
  {
    Reached(visits, n).code.Done?
  }

  ghost predicate StillInside(tasks: seq<Task>, n: nat)
  {
    exists i :: 0 <= i < |tasks| && tasks[i].phase.Inside? && tasks[i].phase.visit == n
  }

  ghost predicate Tracked(w: World)
  {
    && (forall i :: 0 <= i < |w.tasks| ==> OnTrack(w.visits, w.tasks[i]))
    && (forall n :: 0 <= n < |w.visits| ==> Finished(w.visits, n) || StillInside(w.tasks, n))
  }

  ghost predicate Serialised(w: World)
  {
    LocksAgree(w) && OneInside(w) && Tracked(w) && forall s :: RecordOf(w, s) == Serial(w.visits, s)
  }

  lemma {:induction false} SoloSnoc(c: Config, tables: seq<NodeList>, nodes: NodeList)
    ensures Solo(c, tables + [nodes]) == Advance(Solo(c, tables), nodes)
    decreases |tables|
  {
    hide Advance;
    if tables == [] {
      assert [] + [nodes] == [nodes];
    } else {
      assert (tables + [nodes])[1..] == tables[1..] + [nodes];
      SoloSnoc(Advance(c, tables[0]), tables[1..], nodes);
    }
  }

  /** Visits of other services leave the serial record of s alone. */
  lemma {:induction false} SerialIgnoresOthers(visits: seq<Visit>, n: nat, s: ServiceId)
    requires n <= |visits| && forall k :: n <= k < |visits| ==> visits[k].job.service != s
    ensures Serial(visits, s) == Serial(visits[..n], s)
    decreases |visits|
  {
    hide Solo;
    if n < |visits| {
      SerialIgnoresOthers(visits[..|visits| - 1], n, s);
      assert visits[..|visits| - 1][..n] == visits[..n];
    } else {
      assert visits[..n] == visits;
    }
  }

  /** Noting a table for one visit changes no serial record of another service. */
  lemma {:induction false} SerialAfterNote(visits: seq<Visit>, k: nat, nodes: NodeList, s: ServiceId)
    requires k < |visits| ==> visits[k].job.service != s
    ensures Serial(Noted(visits, k, nodes), s) == Serial(visits, s)
    decreases |visits|
  {
    hide Solo;
    if visits != [] {
      var last := |visits| - 1;
      SerialAfterNote(visits[..last], k, nodes, s);
      assert Noted(visits, k, nodes)[..last] == Noted(visits[..last], k, nodes);
    }
  }

  lemma ReachedAfterNote(visits: seq<Visit>, k: nat, nodes: NodeList, n: nat)
    requires k < |visits| && n < |visits| && n != k && (k < n ==> visits[k].job.service != visits[n].job.service)
    ensures Reached(Noted(visits, k, nodes), n) == Reached(visits, n)
  {
    hide Solo, Serial;
    assert Noted(visits, k, nodes)[..n] == Noted(visits[..n], k, nodes);
    SerialAfterNote(visits[..n], k, nodes, visits[n].job.service);
  }

  /** The last visitor's own progress: its serial record is where it has got to, and one step alone is one step here. */
  lemma LastVisitor(visits: seq<Visit>, k: nat, nodes: NodeList)
    requires k < |visits| && forall n :: k < n < |visits| ==> visits[n].job.service != visits[k].job.service
    ensures Reached(visits, k).st == Serial(visits, visits[k].job.service)
    ensures Reached(Noted(visits, k, nodes), k) == Advance(Reached(visits, k), nodes)
  {
    hide Solo, Advance;
    var s := visits[k].job.service;
    SerialIgnoresOthers(visits, k + 1, s);
    assert visits[..k + 1][..k] == visits[..k];
    assert Noted(visits, k, nodes)[..k] == visits[..k];
    SoloSnoc(Config(visits[k].job.code, Serial(visits[..k], s)), visits[k].tables, nodes);
  }

  lemma RunStepKeeps(w: World, i: nat)
    requires Serialised(w) && Possible(w, RunStep(i))
    ensures Serialised(Moved(w, RunStep(i)))
  {
    hide Solo, Serial, Reached, Advance;
    var next := Moved(w, RunStep(i));
    var t := w.tasks[i];
    var k, s := t.phase.visit, t.job.service;
    assert OnTrack(w.visits, t);
    LastVisitor(w.visits, k, w.nodes);
    LastVisitor(next.visits, k, w.nodes);
    forall j | 0 <= j < |w.tasks| && j != i ensures OnTrack(next.visits, next.tasks[j]) {
      assert OnTrack(w.visits, w.tasks[j]);
      if w.tasks[j].phase.Inside? { ReachedAfterNote(w.visits, k, w.nodes, w.tasks[j].phase.visit); }
    }
    forall n | 0 <= n < |w.visits| ensures Finished(next.visits, n) || StillInside(next.tasks, n) {
      if n == k {
        assert next.tasks[i].phase.visit == n;
      } else {
        ReachedAfterNote(w.visits, k, w.nodes, n);
        StillInsideElsewhere(w, i, next.tasks, n);
      }
    }
    forall r ensures RecordOf(next, r) == Serial(next.visits, r) {
      if r != s { SerialAfterNote(w.visits, k, w.nodes, r); }
    }
  }

  /** Another handler's being inside survives a change of task i. */
  lemma StillInsideElsewhere(w: World, i: nat, tasks: seq<Task>, n: nat)
    requires i < |w.tasks| == |tasks| && (forall j :: 0 <= j < |tasks| && j != i ==> tasks[j] == w.tasks[j])
    requires w.tasks[i].phase.Inside? ==> w.tasks[i].phase.visit != n
    ensures StillInside(w.tasks, n) ==> StillInside(tasks, n)
  {
    if StillInside(w.tasks, n) {
      var j :| 0 <= j < |w.tasks| && w.tasks[j].phase.Inside? && w.tasks[j].phase.visit == n;
      assert tasks[j] == w.tasks[j];
    }
  }

  lemma FetchLockKeeps(w: World, i: nat)
    requires Serialised(w) && Possible(w, FetchLock(i))
    ensures Serialised(Moved(w, FetchLock(i)))
  {
    hide Serial, Reached, OnTrack, Finished, StillInside;
    var next := Moved(w, FetchLock(i));
    assert OnTrack(w.visits, next.tasks[i]) by { NotInsideOnTrack(w.visits, next.tasks[i]); }
    forall n | 0 <= n < |w.visits| ensures Finished(next.visits, n) || StillInside(next.tasks, n) {
      StillInsideElsewhere(w, i, next.tasks, n);
    }
    assert forall s :: RecordOf(next, s) == RecordOf(w, s);
  }

  lemma NotInsideOnTrack(visits: seq<Visit>, t: Task)
    requires !t.phase.Inside?
    ensures OnTrack(visits, t)
  {
  }

  lemma TakeLockKeeps(w: World, i: nat)
    requires Serialised(w) && Possible(w, TakeLock(i))
    ensures Serialised(Moved(w, TakeLock(i)))
  {
    hide Serial, Reached, Finished, StillInside;
    var next := Moved(w, TakeLock(i));
    var t := w.tasks[i];
    var s := t.job.service;
    forall j | 0 <= j < |w.tasks| && w.tasks[j].phase.Inside? ensures w.tasks[j].job.service != s {
      assert HasLock(w.tasks[j]) && HasLock(t);
    }
    NewVisit(w.visits, t.job);
    forall j | 0 <= j < |w.tasks| && j != i ensures OnTrack(next.visits, next.tasks[j]) {
      assert OnTrack(w.visits, w.tasks[j]);
    }
    assert OnTrack(next.visits, next.tasks[i]);
    forall n | 0 <= n < |next.visits| ensures Finished(next.visits, n) || StillInside(next.tasks, n) {
      if n == |w.visits| {
        IsInside(next.tasks, i);
      } else {
        SameProgress(w.visits, t.job, n);
        StillInsideElsewhere(w, i, next.tasks, n);
      }
    }
  }

  lemma IsInside(tasks: seq<Task>, i: nat)
    requires i < |tasks| && tasks[i].phase.Inside?
    ensures StillInside(tasks, tasks[i].phase.visit)
  {
  }

  lemma SameProgress(visits: seq<Visit>, job: Job, n: nat)
    requires n < |visits|
    ensures Finished(visits + [Visit(job, [])], n) == Finished(visits, n)
  {
    hide Serial, Solo;
    assert (visits + [Visit(job, [])])[..n] == visits[..n];
  }

  /** A handler that has just taken its lock has done nothing yet. */
  lemma NewVisit(visits: seq<Visit>, job: Job)
    ensures var next := visits + [Visit(job, [])];
            && (forall s :: Serial(next, s) == Serial(visits, s))
            && Reached(next, |visits|).code == job.code
            && (forall n :: 0 <= n < |visits| ==> Reached(next, n) == Reached(visits, n))
  {
    var next := visits + [Visit(job, [])];
    assert next[..|visits|] == visits;
    assert forall n :: 0 <= n < |visits| ==> next[..n] == visits[..n];
  }

  lemma ReleaseLockKeeps(w: World, i: nat)
    requires Serialised(w) && Possible(w, ReleaseLock(i))
    ensures Serialised(Moved(w, ReleaseLock(i)))
  {
    hide Serial, Reached, StillInside;
    var next := Moved(w, ReleaseLock(i));
    assert OnTrack(w.visits, w.tasks[i]);
    forall j | 0 <= j < |w.tasks| ensures OnTrack(next.visits, next.tasks[j]) {
      assert OnTrack(w.visits, w.tasks[j]);
    }
    forall n | 0 <= n < |w.visits| ensures Finished(next.visits, n) || StillInside(next.tasks, n) {
      if n != w.tasks[i].phase.visit { StillInsideElsewhere(w, i, next.tasks, n); }
    }
    forall j | 0 <= j < |next.tasks| && next.tasks[j].phase.Inside? ensures next.tasks[j].phase.held in next.taken {
      assert HasLock(w.tasks[j]) && HasLock(w.tasks[i]);
    }
    assert forall s :: RecordOf(next, s) == RecordOf(w, s);
  }

  lemma ArriveKeeps(w: World, job: Job)
    requires Serialised(w)
    ensures Serialised(Moved(w, Arrive(job)))
  {
    hide Serial, Reached, Finished;
    var next := Moved(w, Arrive(job));
    forall j | 0 <= j < |next.tasks| ensures OnTrack(next.visits, next.tasks[j]) {
      if j < |w.tasks| { assert next.tasks[j] == w.tasks[j]; }
    }
    forall n | 0 <= n < |w.visits| ensures Finished(next.visits, n) || StillInside(next.tasks, n) {
      if StillInside(w.tasks, n) {
        var j :| 0 <= j < |w.tasks| && w.tasks[j].phase.Inside? && w.tasks[j].phase.visit == n;
        assert next.tasks[j] == w.tasks[j];
      }
    }
    assert forall s :: RecordOf(next, s) == RecordOf(w, s);
  }

  lemma MoveKeeps(w: World, m: Move)
    requires Serialised(w) && Possible(w, m)
    ensures Serialised(Moved(w, m))
  {
    hide Serialised;
    match m
    case Arrive(job) => ArriveKeeps(w, job);
    case NodesChange(nodes) => NodesChangeKeeps(w, nodes);
    case FetchLock(i) => FetchLockKeeps(w, i);
    case TakeLock(i) => TakeLockKeeps(w, i);
    case RunStep(i) => RunStepKeeps(w, i);
    case ReleaseLock(i) => ReleaseLockKeeps(w, i);
  }

  lemma NodesChangeKeeps(w: World, nodes: NodeList)
    requires Serialised(w)
    ensures Serialised(w.(nodes := nodes))
  {
    assert forall s :: RecordOf(w.(nodes := nodes), s) == RecordOf(w, s);
  }

  /** In every interleaving, each service's record is what its handlers would have made of it alone, one after the
      other, in the order in which they took the lock; and a handler that is not inside has been there to its end. */
  lemma {:induction false} EveryInterleavingIsSerial(w: World, ms: seq<Move>)
    requires Serialised(w) && Feasible(w, ms)
    ensures Serialised(After(w, ms))
    decreases |ms|
  {
    hide Serialised, Moved, Possible;
    if ms != [] {
      MoveKeeps(w, ms[0]);
      EveryInterleavingIsSerial(Moved(w, ms[0]), ms[1..]);
    }
  }

  lemma StartIsSerial(nodes: NodeList)
    ensures Serialised(Start(nodes))
  {
  }

  // Deadlock freedom.

  ghost predicate Holds(tasks: seq<Task>, lock: nat)
  {
    exists i :: 0 <= i < |tasks| && tasks[i].phase.Inside? && tasks[i].phase.held == lock
  }

  /** A taken lock has a handler inside. */
  ghost predicate LocksHeld(w: World) { forall lock :: lock in w.taken ==> Holds(w.tasks, lock) }

  lemma HoldsElsewhere(w: World, i: nat, tasks: seq<Task>, lock: nat)
    requires i < |w.tasks| <= |tasks| && (forall j :: 0 <= j < |w.tasks| && j != i ==> tasks[j] == w.tasks[j])
    requires Holds(w.tasks, lock) && (w.tasks[i].phase.Inside? ==> w.tasks[i].phase.held != lock)
    ensures Holds(tasks, lock)
  {
    var j :| 0 <= j < |w.tasks| && w.tasks[j].phase.Inside? && w.tasks[j].phase.held == lock;
    assert tasks[j] == w.tasks[j];
  }

  lemma MoveKeepsLocksHeld(w: World, m: Move)
    requires LocksHeld(w) && Possible(w, m)
    ensures LocksHeld(Moved(w, m))
  {
    hide Advance, Holds;
    var next := Moved(w, m);
    forall lock | lock in next.taken ensures Holds(next.tasks, lock) {
      match m
      case NodesChange(_) =>
      case Arrive(_) => HoldsStill(w.tasks, next.tasks, lock);
      case FetchLock(i) => HoldsElsewhere(w, i, next.tasks, lock);
      case TakeLock(i) =>
        if lock == w.tasks[i].phase.lock { HeldBy(next.tasks, i); } else { HoldsElsewhere(w, i, next.tasks, lock); }
      case RunStep(i) =>
        if lock == w.tasks[i].phase.held { HeldBy(next.tasks, i); } else { HoldsElsewhere(w, i, next.tasks, lock); }
      case ReleaseLock(i) => HoldsElsewhere(w, i, next.tasks, lock);
    }
  }

  lemma HeldBy(tasks: seq<Task>, i: nat)
    requires i < |tasks| && tasks[i].phase.Inside?
    ensures Holds(tasks, tasks[i].phase.held)
  {
  }

  lemma HoldsStill(tasks: seq<Task>, more: seq<Task>, lock: nat)
    requires |tasks| <= |more| && (forall i :: 0 <= i < |tasks| ==> more[i] == tasks[i]) && Holds(tasks, lock)
    ensures Holds(more, lock)
  {
    var i :| 0 <= i < |tasks| && tasks[i].phase.Inside? && tasks[i].phase.held == lock;
    assert more[i] == tasks[i];
  }

  lemma {:induction false} LocksAlwaysHeld(w: World, ms: seq<Move>)
    requires LocksHeld(w) && Feasible(w, ms)
    ensures LocksHeld(After(w, ms))
    decreases |ms|
  {
    hide LocksHeld, Moved, Possible;
    if ms != [] {
      MoveKeepsLocksHeld(w, ms[0]);
      LocksAlwaysHeld(Moved(w, ms[0]), ms[1..]);
    }
  }

  predicate IsProgress(m: Move) { !m.Arrive? && !m.NodesChange? }

  /** In every interleaving, as long as some handler has not left, some handler can move. */
  lemma NoDeadlock(nodes: NodeList, ms: seq<Move>, i: nat) returns (m: Move)
    requires Feasible(Start(nodes), ms)
    requires i < |After(Start(nodes), ms).tasks| && !After(Start(nodes), ms).tasks[i].phase.Left?
    ensures IsProgress(m) && Possible(After(Start(nodes), ms), m)
  {
    hide Feasible, After, Advance;
    LocksAlwaysHeld(Start(nodes), ms);
    var w := After(Start(nodes), ms);
    var phase := w.tasks[i].phase;
    match phase
    case Arrived => m := FetchLock(i);
    case Queued(lock) =>
      if lock !in w.taken {
        m := TakeLock(i);
      } else {
        var j :| 0 <= j < |w.tasks| && w.tasks[j].phase.Inside? && w.tasks[j].phase.held == lock;
        m := if w.tasks[j].phase.rest.Done? then ReleaseLock(j) else RunStep(j);
      }
    case Inside(_, _, rest) => m := if rest.Done? then ReleaseLock(i) else RunStep(i);
  }
}
