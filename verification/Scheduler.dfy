// controller/scheduler.py: the deterministic least-load placement decision.

module Scheduler {
  import opened Models
  import opened Ordering

  datatype ScheduleDecision = ScheduleDecision(serviceId: ServiceId, selectedNodeId: Option<NodeId>)

  datatype Candidate = Candidate(node: NodeState, load: real, memory: real)

  /** `_node_satisfies_minimum_resource` */
  predicate SatisfiesMinimum(spec: ServiceSpec, node: NodeState)
  {
    match node.snapshot
    case None => false
    case Some(s) => 1.0 - s.cpu >= spec.minFreeCpu && 1.0 - s.memory >= spec.minFreeMemory
  }

  predicate Eligible(spec: ServiceSpec, node: NodeState)
  {
    node.status == Healthy && SatisfiesMinimum(spec, node)
  }

  function Load(s: Snapshot): real
  {
    if s.cpu >= s.memory then s.cpu else s.memory
  }

  /** `_build_candidate` */
  function BuildCandidate(node: NodeState): Option<Candidate>
  {
    match node.snapshot
    case None => None
    case Some(s) => Some(Candidate(node, Load(s), s.memory))
  }

  /** The key tuple (load, memory utilisation, node id) of `a` is smaller than that of `b`. */
  predicate KeyLess(a: Candidate, b: Candidate)
  {
    a.load < b.load
    || (a.load == b.load && a.memory < b.memory)
    || (a.load == b.load && a.memory == b.memory && Less(a.node.nodeId, b.node.nodeId))
  }

  /** The eligible candidates of a node list, in the list's order. */
  function Candidates(spec: ServiceSpec, nodes: seq<NodeState>): (r: seq<Candidate>)
    ensures forall c :: c in r <==> c.node in nodes && Eligible(spec, c.node) && BuildCandidate(c.node) == Some(c)
  {
    if nodes == [] then []
    else
      var before := Candidates(spec, nodes[..|nodes| - 1]);
      var last := nodes[|nodes| - 1];
      assert nodes == nodes[..|nodes| - 1] + [last];
      if Eligible(spec, last) then before + [BuildCandidate(last).value] else before
  }

  /** Python's keyed `min`: the first candidate whose key no other candidate undercuts. */
  function KeyMinimum(cs: seq<Candidate>): (r: Candidate)
    requires cs != []
    ensures r in cs
  {
    if |cs| == 1 then cs[0]
    else
      var m := KeyMinimum(cs[..|cs| - 1]);
      if KeyLess(cs[|cs| - 1], m) then cs[|cs| - 1] else m
  }

  /** The node id that `choose_node_least_load` selects. */
  function Choose(spec: ServiceSpec, nodes: seq<NodeState>): Option<NodeId>
  {
    var cs := Candidates(spec, nodes);
    if cs == [] then None else Some(KeyMinimum(cs).node.nodeId)
  }

  method ChooseNodeLeastLoad(service: ServiceSpec, nodes: seq<NodeState>) returns (decision: ScheduleDecision)
    ensures decision.serviceId == service.serviceId
    ensures decision.selectedNodeId == Choose(service, nodes)
    ensures decision.selectedNodeId.None? <==> forall m :: m in nodes ==> !CanHost(service, m)
    ensures decision.selectedNodeId.Some? ==>
              exists n :: && n in nodes && CanHost(service, n) && n.nodeId == decision.selectedNodeId.value
                          && forall m :: m in nodes && CanHost(service, m) ==> Undercut(n, m)
  {
    ChoiceOnSnapshots(service, nodes);
    hide CanHost, Undercut, KeyLess;
    var eligible: seq<Candidate> := [];
    for i := 0 to |nodes|
      invariant eligible == Candidates(service, nodes[..i])
    {
      var node := nodes[i];
      assert nodes[..i + 1][..i] == nodes[..i];
      if node.status != Healthy {
        continue;
      }
      if !SatisfiesMinimum(service, node) {
        continue;
      }
      var candidate := BuildCandidate(node);
      if candidate.None? {
        continue;
      }
      eligible := eligible + [candidate.value];
    }
    assert nodes[..|nodes|] == nodes;
    if eligible == [] {
      return ScheduleDecision(service.serviceId, None);
    }
    decision := ScheduleDecision(service.serviceId, Some(KeyMinimum(eligible).node.nodeId));
  }

  // What the decision means.

  /** `n` is eligible and no eligible node of the list has a smaller (load, memory, id) key. */
  ghost predicate IsBest(spec: ServiceSpec, nodes: seq<NodeState>, n: NodeState)
  {
    && n in nodes && Eligible(spec, n)
    && forall m :: m in nodes && Eligible(spec, m) ==> !KeyLess(CandidateOf(m), CandidateOf(n))
  }

  function CandidateOf(n: NodeState): Candidate
  {
    match n.snapshot
    case None => Candidate(n, 0.0, 0.0)
    case Some(s) => Candidate(n, Load(s), s.memory)
  }

  lemma KeyLessTransitive(a: Candidate, b: Candidate, c: Candidate)
    requires KeyLess(a, b) && KeyLess(b, c)
    ensures KeyLess(a, c)
  {
    if a.load == c.load && a.memory == c.memory {
      LessTransitive(a.node.nodeId, b.node.nodeId, c.node.nodeId);
    }
  }

  lemma KeyLessTotal(a: Candidate, b: Candidate)
    ensures KeyLess(a, b) || KeyLess(b, a) || a.node.nodeId == b.node.nodeId
    ensures !(KeyLess(a, b) && KeyLess(b, a))
  {
    LessTotal(a.node.nodeId, b.node.nodeId);
    if KeyLess(a, b) && KeyLess(b, a) {
      KeyLessTransitive(a, b, a);
      LessIrreflexive(a.node.nodeId);
    }
  }

  lemma {:induction false} KeyMinimumIsLeast(cs: seq<Candidate>, c: Candidate)
    requires cs != [] && c in cs
    ensures !KeyLess(c, KeyMinimum(cs))
  {
    var front, last := cs[..|cs| - 1], cs[|cs| - 1];
    assert cs == front + [last];
    LessIrreflexive(c.node.nodeId);
    if |cs| > 1 {
      var m := KeyMinimum(front);
      if c in front {
        KeyMinimumIsLeast(front, c);
        if KeyLess(last, m) && KeyLess(c, last) {
          KeyLessTransitive(c, last, m);
        }
      }
    }
  }

  /** The decision is the lexicographic minimum over the eligible nodes, and fails only when there is none. */
  lemma ChoiceIsLexicographicMinimum(spec: ServiceSpec, nodes: seq<NodeState>)
    ensures Choose(spec, nodes).None? <==> forall n :: n in nodes ==> !Eligible(spec, n)
    ensures forall id :: Choose(spec, nodes) == Some(id) <==> exists n :: IsBest(spec, nodes, n) && n.nodeId == id
  {
    var cs := Candidates(spec, nodes);
    forall n | n in nodes && Eligible(spec, n) ensures CandidateOf(n) in cs {
      assert BuildCandidate(n) == Some(CandidateOf(n));
    }
    if cs != [] {
      var best := KeyMinimum(cs);
      assert CandidateOf(best.node) == best;
      forall m | m in nodes && Eligible(spec, m) ensures !KeyLess(CandidateOf(m), best) {
        KeyMinimumIsLeast(cs, CandidateOf(m));
      }
      assert IsBest(spec, nodes, best.node);
      forall n | IsBest(spec, nodes, n) ensures n.nodeId == best.node.nodeId {
        KeyLessTotal(CandidateOf(n), best);
      }
    }
  }

  /** What makes a node a candidate, in terms of its record and the specification alone. */
  predicate CanHost(spec: ServiceSpec, n: NodeState)
  {
    && n.status == Healthy && n.snapshot.Some?
    && n.snapshot.value.cpu + spec.minFreeCpu <= 1.0 && n.snapshot.value.memory + spec.minFreeMemory <= 1.0
  }

  /** The selected node against any other candidate, in terms of the two snapshots: no utilisation of it exceeds the
      larger utilisation of the other; where the larger ones are equal, its memory utilisation is no larger; and where
      that is equal too, its id comes first. */
  predicate Undercut(n: NodeState, m: NodeState)
    requires n.snapshot.Some? && m.snapshot.Some?
  {
    var (a, b) := (n.snapshot.value, m.snapshot.value);
    && (a.cpu <= b.cpu || a.cpu <= b.memory) && (a.memory <= b.cpu || a.memory <= b.memory)
    && ((b.cpu <= a.cpu || b.cpu <= a.memory) && (b.memory <= a.cpu || b.memory <= a.memory) ==>
          && a.memory <= b.memory
          && (a.memory == b.memory ==> n.nodeId == m.nodeId || Less(n.nodeId, m.nodeId)))
  }

  /** The decision in terms of node records: it is the id of a node that can host the service and undercuts every other
      such node of the list, and it is none exactly when no node of the list can host the service. */
  lemma ChoiceOnSnapshots(spec: ServiceSpec, nodes: seq<NodeState>)
    ensures Choose(spec, nodes).None? <==> forall m :: m in nodes ==> !CanHost(spec, m)
    ensures forall id :: Choose(spec, nodes) == Some(id) <==>
              exists n :: && n in nodes && CanHost(spec, n) && n.nodeId == id
                          && forall m :: m in nodes && CanHost(spec, m) ==> Undercut(n, m)
  {
    hide Choose;
    ChoiceIsLexicographicMinimum(spec, nodes);
    forall n ensures Eligible(spec, n) <==> CanHost(spec, n) {}
    forall n, m | CanHost(spec, n) && CanHost(spec, m)
      ensures !KeyLess(CandidateOf(m), CandidateOf(n)) <==> Undercut(n, m)
    {
      LessTotal(n.nodeId, m.nodeId);
      KeyLessTotal(CandidateOf(n), CandidateOf(m));
    }
    forall n ensures IsBest(spec, nodes, n) <==>
      n in nodes && CanHost(spec, n) && forall m :: m in nodes && CanHost(spec, m) ==> Undercut(n, m) {}
    hide KeyLess, Undercut, CanHost, Eligible, IsBest;
  }

  /** Only which eligible nodes are present matters: order, repetition and ineligible nodes do not. */
  lemma ChoiceIgnoresListOrder(spec: ServiceSpec, nodes: seq<NodeState>, others: seq<NodeState>)
    requires forall n :: Eligible(spec, n) ==> (n in nodes <==> n in others)
    ensures Choose(spec, nodes) == Choose(spec, others)
  {
    ChoiceIsLexicographicMinimum(spec, nodes);
    ChoiceIsLexicographicMinimum(spec, others);
    if Choose(spec, nodes).Some? {
      var n :| IsBest(spec, nodes, n) && n.nodeId == Choose(spec, nodes).value;
      assert IsBest(spec, others, n);
    }
  }

  /** Adding a node changes the decision only by selecting that node. */
  lemma AddingANodeKeepsOrTakes(spec: ServiceSpec, nodes: seq<NodeState>, extra: NodeState)
    ensures Choose(spec, nodes + [extra]) == Choose(spec, nodes)
         || (Eligible(spec, extra) && Choose(spec, nodes + [extra]) == Some(extra.nodeId))
    ensures !Eligible(spec, extra) ==> Choose(spec, nodes + [extra]) == Choose(spec, nodes)
  {
    ChoiceIsLexicographicMinimum(spec, nodes);
    ChoiceIsLexicographicMinimum(spec, nodes + [extra]);
    if Choose(spec, nodes + [extra]).Some? {
      var n :| IsBest(spec, nodes + [extra], n) && n.nodeId == Choose(spec, nodes + [extra]).value;
      if n in nodes {
        assert IsBest(spec, nodes, n);
      }
    } else {
      assert forall n :: n in nodes ==> n in nodes + [extra];
    }
  }

  /** The selected node is a healthy, eligible member of the list, so looking it up there succeeds. */
  lemma ChosenNodeIsPresent(spec: ServiceSpec, nodes: seq<NodeState>)
    requires Choose(spec, nodes).Some?
    ensures exists n :: n in nodes && n.nodeId == Choose(spec, nodes).value && Eligible(spec, n)
    ensures FindNode(nodes, Choose(spec, nodes).value).Some?
  {
    ChoiceIsLexicographicMinimum(spec, nodes);
    var n :| IsBest(spec, nodes, n) && n.nodeId == Choose(spec, nodes).value;
  }
}
