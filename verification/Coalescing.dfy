// How far the stored node records may lag behind what the agents report: heartbeat and snapshot write coalescing in
// the Redis store, the agent's own snapshot filter, and what the lag means for failure detection and scheduling.

module Heartbeats {
  import opened Models
  import opened NodeTable
  import opened Lifecycle
  import NodeAddress
  import Reconciliation

  function NodeStep(threshold: int, change: real, c: Cell, n: NodeId, e: NodeEvent): Cell
  {
    match e
    case Beat(url, address, at) => HeartbeatArrives(threshold, c, n, url, address, at)
    case Report(s) => SnapshotArrives(change, c, s)
    case Mark => MarkedUnavailable(c)
  }

  function NodeRun(threshold: int, change: real, c: Cell, n: NodeId, es: seq<NodeEvent>): Cell
  {
    if es == [] then c
    else NodeStep(threshold, change, NodeRun(threshold, change, c, n, es[..|es| - 1]), n, es[|es| - 1])
  }

  /** The newest heartbeat that arrived, in whatever order. */
  function Newest(es: seq<NodeEvent>): Option<Time>
  {
    if es == [] then None
    else
      var before := Newest(es[..|es| - 1]);
      var last := es[|es| - 1];
      if last.Beat? && (before.None? || last.at > before.value) then Some(last.at) else before
  }

  const EMPTY := Cell(None, None, None)

  /** For any arrival order, the stored heartbeat equals the newest one seen or lags it by less than the threshold. */
  lemma {:induction false} StoredHeartbeatLags(threshold: int, change: real, n: NodeId, es: seq<NodeEvent>)
    requires threshold >= 0
    ensures var c := NodeRun(threshold, change, EMPTY, n, es);
            && (Newest(es).None? <==> c.stored.None?) && (c.stored.None? <==> c.lastWritten.None?)
            && (c.stored.Some? ==>
                  && c.lastWritten == Some(c.stored.value.lastHeartbeatAt)
                  && var lag := Newest(es).value - c.stored.value.lastHeartbeatAt;
                     lag == 0 || 0 < lag < threshold)
  {
    if es != [] {
      StoredHeartbeatLags(threshold, change, n, es[..|es| - 1]);
    }
  }

  // The in-memory store, which coalesces nothing.

  function PlainRun(n: NodeId, es: seq<NodeEvent>): Option<NodeState>
  {
    if es == [] then None else PlainStep(PlainRun(n, es[..|es| - 1]), n, es[|es| - 1])
  }

  function LastBeat(es: seq<NodeEvent>): Option<Time>
  {
    if es == [] then None
    else if es[|es| - 1].Beat? then Some(es[|es| - 1].at) else LastBeat(es[..|es| - 1])
  }

  /** The last address that a heartbeat brought and that is valid, or "unknown". */
  function LastAddress(es: seq<NodeEvent>): string
  {
    if es == [] then NodeAddress.UNKNOWN
    else
      var last := es[|es| - 1];
      if last.Beat? && NodeAddress.Normalize(last.address).Some? then NodeAddress.Normalize(last.address).value
      else LastAddress(es[..|es| - 1])
  }

  /** A marking came after the last heartbeat. */
  predicate MarkedSinceBeat(es: seq<NodeEvent>)
  {
    es != [] && !es[|es| - 1].Beat? && (es[|es| - 1].Mark? || MarkedSinceBeat(es[..|es| - 1]))
  }

  function LastUrl(es: seq<NodeEvent>): string
  {
    if es == [] then "" else if es[|es| - 1].Beat? then es[|es| - 1].agentUrl else LastUrl(es[..|es| - 1])
  }

  /** The last snapshot that came after the first heartbeat. */
  function LastSnapshot(es: seq<NodeEvent>): Option<Snapshot>
  {
    if es == [] then None
    else if es[|es| - 1].Report? && LastBeat(es[..|es| - 1]).Some? then Some(es[|es| - 1].snapshot)
    else LastSnapshot(es[..|es| - 1])
  }

  /** The record after any history: known from the first heartbeat on, with the last valid address, the last heartbeat's
      time and url, the last snapshot since the node is known, and healthy exactly if no marking came after the last
      heartbeat. */
  lemma {:induction false} PlainRecordMeaning(n: NodeId, es: seq<NodeEvent>)
    ensures var r := PlainRun(n, es);
            && (r.Some? <==> LastBeat(es).Some?)
            && (r.Some? ==>
                  && r.value.nodeId == n && Some(r.value.lastHeartbeatAt) == LastBeat(es)
                  && r.value.nodeAddress == LastAddress(es) && r.value.agentUrl == LastUrl(es)
                  && r.value.snapshot == LastSnapshot(es)
                  && (r.value.status == Healthy <==> !MarkedSinceBeat(es)))
    ensures LastBeat(es).None? ==> LastAddress(es) == NodeAddress.UNKNOWN && LastSnapshot(es).None?
    ensures LastAddress(es) == NodeAddress.UNKNOWN
      || NodeAddress.Normalize(Some(LastAddress(es))) == Some(LastAddress(es))
  {
    hide NodeAddress.Normalize;
    UnknownIsNoAddress();
    if es != [] {
      PlainRecordMeaning(n, es[..|es| - 1]);
      if es[|es| - 1].Beat? { NodeAddress.NormalizeIdempotent(es[|es| - 1].address); }
    }
  }

  lemma UnknownIsNoAddress()
    ensures NodeAddress.Normalize(Some(NodeAddress.UNKNOWN)).None?
  {
    assert NodeAddress.StripLeft(NodeAddress.UNKNOWN) == NodeAddress.UNKNOWN;
    assert NodeAddress.StripRight(NodeAddress.UNKNOWN) == NodeAddress.UNKNOWN;
  }

  // The Redis store, which drops what is close to the last write.

  /** The events that lead to a write: a heartbeat at least the threshold after the last one written, a snapshot of a
      known node that differs in one coordinate by at least the threshold from the last one written, and every
      marking. */
  function Written(threshold: int, change: real, es: seq<NodeEvent>): seq<NodeEvent>
  {
    if es == [] then []
    else
      var before, e := Written(threshold, change, es[..|es| - 1]), es[|es| - 1];
      var keep := match e
                  case Beat(_, _, at) => LastBeat(before).None? || at >= LastBeat(before).value + threshold
                  case Report(s) => LastBeat(before).Some?
                                    && (LastSnapshot(before).None? || Apart(s, LastSnapshot(before).value, change))
                  case Mark => true;
      if keep then before + [e] else before
  }

  predicate Apart(a: Snapshot, b: Snapshot, change: real)
  {
    a.cpu - b.cpu >= change || b.cpu - a.cpu >= change || a.memory - b.memory >= change || b.memory - a.memory >= change
  }

  /** Over any history the coalesced record is the uncoalesced record of the written events. */
  lemma {:induction false} CoalescedRecordMeaning(threshold: int, change: real, n: NodeId, es: seq<NodeEvent>)
    ensures var c, written := NodeRun(threshold, change, EMPTY, n, es), Written(threshold, change, es);
            && c.stored == PlainRun(n, written)
            && c.lastWritten == LastBeat(written) && c.lastSnapshot == LastSnapshot(written)
            && (c.stored.Some? <==> LastBeat(written).Some?)
  {
    hide Heard;
    if es != [] {
      CoalescedRecordMeaning(threshold, change, n, es[..|es| - 1]);
      var before := Written(threshold, change, es[..|es| - 1]);
      assert (before + [es[|es| - 1]])[..|before|] == before;
    } else {
      assert LastBeat([]).None? && LastSnapshot([]).None?;
    }
  }

  function Patience(cfg: Settings): int { cfg.heartbeatTimeout + cfg.reconciliationInterval }

  /** Detection through the coalesced record errs by less than the threshold, and only towards marking early. */
  lemma DetectionErrsByLessThanThreshold(cfg: Settings, threshold: int, change: real, n: NodeId, es: seq<NodeEvent>,
                                         now: Time)
    requires threshold >= 0 && Newest(es).Some?
    ensures var c := NodeRun(threshold, change, EMPTY, n, es);
            && c.stored.Some?
            && (Reconciliation.Dead(cfg, c.stored.value, now) ==>
                  Newest(es).value < now - Patience(cfg) + threshold)
            && (c.stored.value.status == Healthy && Newest(es).value < now - Patience(cfg) ==>
                  Reconciliation.Dead(cfg, c.stored.value, now))
  {
    StoredHeartbeatLags(threshold, change, n, es);
  }

  /** A record that the reconciler finds dead at this moment. */
  predicate FoundDead(cfg: Settings, c: Cell, now: Time)
  {
    && c.stored.Some? && c.lastWritten == Some(c.stored.value.lastHeartbeatAt)
    && Reconciliation.Dead(cfg, c.stored.value, now)
  }

  /** After a marking, the first heartbeat stamped at or after it finds the node healthy afterwards, whatever older
      heartbeats and snapshots come in between. */
  lemma {:induction false} NodeComesBack(cfg: Settings, threshold: int, change: real, c: Cell, n: NodeId, now: Time,
                                         es: seq<NodeEvent>, url: string, address: Option<string>, at: Time)
    requires FoundDead(cfg, c, now) && at >= now && 0 <= threshold <= Patience(cfg) + 1
    requires forall i :: 0 <= i < |es| ==> !es[i].Mark?
    ensures var back := NodeStep(threshold, change, NodeRun(threshold, change, MarkedUnavailable(c), n, es), n,
                                 Beat(url, address, at));
            back.stored.Some? && back.stored.value.status == Healthy
  {
    StillMarkedOrBack(threshold, change, MarkedUnavailable(c), n, es);
  }

  lemma {:induction false} StillMarkedOrBack(threshold: int, change: real, c: Cell, n: NodeId, es: seq<NodeEvent>)
    requires c.stored.Some?
    requires forall i :: 0 <= i < |es| ==> !es[i].Mark?
    ensures var later := NodeRun(threshold, change, c, n, es);
            && later.stored.Some?
            && (later.stored.value.status == Healthy || later.lastWritten == c.lastWritten)
  {
    if es != [] {
      StillMarkedOrBack(threshold, change, c, n, es[..|es| - 1]);
    }
  }

  /** Every node found dead is healthy again after its next heartbeat stamped at or after the marking. */
  ghost predicate AlwaysComesBack(cfg: Settings, threshold: int)
  {
    forall c: Cell, now: Time, at: Time :: FoundDead(cfg, c, now) && at >= now ==>
      HeartbeatArrives(threshold, MarkedUnavailable(c), "n", "u", None, at).stored.value.status == Healthy
  }

  /** That holds exactly when the write threshold does not exceed the detection delay (by more than one tick of the
      clock): the guard that drops a heartbeat does not look at the node's status. */
  lemma ComesBackCondition(cfg: Settings, threshold: int)
    ensures AlwaysComesBack(cfg, threshold) <==> threshold <= Patience(cfg) + 1
  {
    if threshold > Patience(cfg) + 1 {
      var heard := -Patience(cfg) - 1;
      var node := NodeState("n", "u", "a", Healthy, heard, None);
      var c := Cell(Some(node), Some(heard), None);
      assert FoundDead(cfg, c, 0);
      assert HeartbeatArrives(threshold, MarkedUnavailable(c), "n", "u", None, 0) == MarkedUnavailable(c);
    }
  }
}

module Telemetry {
  import opened Models
  import opened NodeTable
  import Scheduler
  import Heartbeats

  /** `_resource_snapshot_loop`: a sample is sent unless it is near the last one sent. */
  predicate ShouldSend(change: real, lastSent: Option<Snapshot>, sample: Snapshot)
  {
    lastSent.None? || !Near(sample, lastSent.value, change)
  }

  /** The last snapshot sent, and all that were sent, after these samples. */
  function Filtered(change: real, lastSent: Option<Snapshot>, samples: seq<Snapshot>): (Option<Snapshot>, seq<Snapshot>)
  {
    if samples == [] then (lastSent, [])
    else
      var (last, sent) := Filtered(change, lastSent, samples[..|samples| - 1]);
      var sample := samples[|samples| - 1];
      if ShouldSend(change, last, sample) then (Some(sample), sent + [sample]) else (last, sent)
  }

  class AgentTelemetryService {
    const changeThreshold: real
    var lastSentSnapshot: Option<Snapshot>

    constructor ()
      ensures changeThreshold == 0.05 && lastSentSnapshot == None
    {
      changeThreshold, lastSentSnapshot := 0.05, None;
    }

    method SnapshotLoop(samples: seq<Snapshot>) returns (sent: seq<Snapshot>)
      modifies this
      ensures (lastSentSnapshot, sent) == Filtered(changeThreshold, old(lastSentSnapshot), samples)
    {
      sent := [];
      for i := 0 to |samples|
        invariant (lastSentSnapshot, sent) == Filtered(changeThreshold, old(lastSentSnapshot), samples[..i])
      {
        assert samples[..i + 1][..i] == samples[..i];
        var snapshot := samples[i];
        var shouldSend := true;
        if lastSentSnapshot.Some? {
          if Near(snapshot, lastSentSnapshot.value, changeThreshold) {
            shouldSend := false;
          }
        }
        if shouldSend {
          sent := sent + [snapshot];
          lastSentSnapshot := Some(snapshot);
        }
      }
      assert samples[..|samples|] == samples;
    }
  }

  // What the filter computes.

  /** Two snapshots are equal, or near within the threshold. */
  predicate Within(a: Snapshot, b: Snapshot, threshold: real)
  {
    a == b || Near(a, b, threshold)
  }

  /** The reports are samples, the last one is what the agent remembers, each differs from the one before by the
      threshold in some coordinate, and every sample is close to the last report at its time. */
  lemma {:induction false} FilteredMeaning(change: real, samples: seq<Snapshot>)
    ensures var (last, sent) := Filtered(change, None, samples);
            && (sent == [] <==> samples == [])
            && last == (if sent == [] then None else Some(sent[|sent| - 1]))
            && (forall s :: s in sent ==> s in samples)
            && (forall k :: 0 < k < |sent| ==> !Near(sent[k], sent[k - 1], change))
            && (samples != [] ==> Within(samples[|samples| - 1], last.value, change))
  {
    if samples != [] {
      FilteredMeaning(change, samples[..|samples| - 1]);
    }
  }

  // The line from a node's samples to the controller's record.

  /** The agent's filter, the store's cell, the true latest sample, and whether the last report sent was accepted. */
  datatype Line = Line(lastSent: Option<Snapshot>, cell: Cell, latest: Option<Snapshot>, arrived: bool)

  /** A sample, and whether its report reaches the controller if one is sent; or a heartbeat or a marking. */
  datatype LineEvent = Sampled(sample: Snapshot, delivered: bool) | Other(event: NodeEvent)

  const UNUSED := Line(None, Heartbeats.EMPTY, None, true)

  /** The agent remembers a report as sent whether or not it arrives; the controller rejects it for an unknown node. */
  function LineStep(change: real, write: real, beat: int, n: NodeId, line: Line, e: LineEvent): Line
  {
    match e
    case Sampled(s, delivered) =>
      if !ShouldSend(change, line.lastSent, s) then line.(latest := Some(s))
      else if delivered && line.cell.stored.Some? then
        Line(Some(s), SnapshotArrives(write, line.cell, s), Some(s), true)
      else line.(lastSent := Some(s), latest := Some(s), arrived := false)
    case Other(event) =>
      if event.Report? then line
      else line.(cell := Heartbeats.NodeStep(beat, write, line.cell, n, event))
  }

  function LineRun(change: real, write: real, beat: int, n: NodeId, line: Line, es: seq<LineEvent>): Line
  {
    if es == [] then line
    else LineStep(change, write, beat, n, LineRun(change, write, beat, n, line, es[..|es| - 1]), es[|es| - 1])
  }

  /** The whole history of a node. */
  function History(change: real, write: real, beat: int, n: NodeId, es: seq<LineEvent>): Line
  {
    LineRun(change, write, beat, n, UNUSED, es)
  }

  function Samples(es: seq<LineEvent>): seq<Snapshot>
  {
    if es == [] then []
    else
      var before := Samples(es[..|es| - 1]);
      var last := es[|es| - 1];
      if last.Sampled? then before + [last.sample] else before
  }

  /** The agent's loop is the sending end of the line. */
  lemma {:induction false} LineSendsFiltered(change: real, write: real, beat: int, n: NodeId, es: seq<LineEvent>)
    ensures History(change, write, beat, n, es).lastSent == Filtered(change, None, Samples(es)).0
  {
    if es != [] {
      LineSendsFiltered(change, write, beat, n, es[..|es| - 1]);
      var before := Samples(es[..|es| - 1]);
      if es[|es| - 1].Sampled? {
        assert (before + [es[|es| - 1].sample])[..|before|] == before;
      }
    }
  }

  /** In both coordinates the two snapshots differ by at most the threshold. */
  predicate Close(a: Snapshot, b: Snapshot, threshold: real)
  {
    Abs(a.cpu - b.cpu) <= threshold && Abs(a.memory - b.memory) <= threshold
  }

  lemma {:induction false} LineInvariant(change: real, write: real, beat: int, n: NodeId, es: seq<LineEvent>)
    requires write >= 0.0
    ensures var end := History(change, write, beat, n, es);
            && (end.cell.stored.Some? ==>
                  end.cell.stored.value.nodeId == n && end.cell.stored.value.snapshot == end.cell.lastSnapshot)
            && (end.cell.lastSnapshot.Some? ==>
                  end.cell.stored.Some? && end.lastSent.Some? && end.cell.lastSnapshot.value in Samples(es))
            && (end.latest.Some? <==> end.lastSent.Some?)
            && (end.latest.Some? ==> Within(end.latest.value, end.lastSent.value, change))
            && (end.arrived && end.lastSent.Some? ==>
                  end.cell.lastSnapshot.Some? && Close(end.lastSent.value, end.cell.lastSnapshot.value, write))
  {
    if es != [] {
      LineInvariant(change, write, beat, n, es[..|es| - 1]);
    }
  }

  /** The stored snapshot is within the threshold of the last one sent. */
  predicate StoreIsClose(write: real, line: Line)
  {
    && line.cell.stored.Some? && line.cell.stored.value.snapshot.Some? && line.lastSent.Some?
    && Close(line.lastSent.value, line.cell.stored.value.snapshot.value, write)
  }

  /** Whatever was lost before: if the last report sent arrived, the stored snapshot is within agent threshold plus
      store threshold of the latest sample, in both coordinates. */
  lemma SnapshotErrorBound(change: real, write: real, beat: int, n: NodeId, es: seq<LineEvent>)
    requires change > 0.0 && write >= 0.0
    ensures var end := History(change, write, beat, n, es);
            && (end.arrived && end.latest.Some? ==> StoreIsClose(write, end))
            && (StoreIsClose(write, end) ==>
                  && end.latest.Some?
                  && Near(end.cell.stored.value.snapshot.value, end.latest.value, change + write))
  {
    LineInvariant(change, write, beat, n, es);
  }

  // Exactly when the bound survives a lost report.

  /** While the agent sends nothing new, every sample it may take stays within the bound of the stored snapshot. */
  ghost predicate BoundHoldsUntilNextReport(change: real, write: real, line: Line)
  {
    && line.cell.stored.Some? && line.cell.stored.value.snapshot.Some?
    && forall s :: !ShouldSend(change, line.lastSent, s) ==>
      Near(line.cell.stored.value.snapshot.value, s, change + write)
  }

  /** A sample the agent suppresses, as far from the stored value as it can be. */
  function Escape(sent: real, stored: real, change: real, write: real): real
  {
    var gap := Abs(sent - stored) - write;
    var room := if gap >= change then 0.0 else change - gap;
    if sent >= stored then sent + room else sent - room
  }

  lemma EscapeEscapes(sent: real, stored: real, change: real, write: real)
    requires change > 0.0 && Abs(sent - stored) > write >= 0.0
    ensures Abs(Escape(sent, stored, change, write) - sent) < change
    ensures Abs(stored - Escape(sent, stored, change, write)) >= change + write
  {
  }

  /** The bound holds until the next report if and only if the stored snapshot is within the store's threshold of the
      last one sent.  That is always so when the last report arrived; when it was lost, it depends on how far it had
      moved. */
  lemma BoundHoldsExactlyWhenStoreIsClose(change: real, write: real, beat: int, n: NodeId, es: seq<LineEvent>)
    requires change > 0.0 && write >= 0.0 && Samples(es) != []
    ensures var end := History(change, write, beat, n, es);
            && (BoundHoldsUntilNextReport(change, write, end) <==> StoreIsClose(write, end))
            && (end.arrived ==> StoreIsClose(write, end))
  {
    var end := History(change, write, beat, n, es);
    LineInvariant(change, write, beat, n, es);
    LineSendsFiltered(change, write, beat, n, es);
    FilteredMeaning(change, Samples(es));
    var sent := end.lastSent.value;
    if end.cell.stored.Some? && end.cell.stored.value.snapshot.Some? && !StoreIsClose(write, end) {
      var away := FarSample(change, write, sent, end.cell.stored.value.snapshot.value);
    }
  }

  /** A sample that the agent suppresses and that is out of the bound. */
  lemma FarSample(change: real, write: real, sent: Snapshot, stored: Snapshot) returns (away: Snapshot)
    requires change > 0.0 && write >= 0.0 && !Close(sent, stored, write)
    ensures !ShouldSend(change, Some(sent), away) && !Near(stored, away, change + write)
  {
    if Abs(sent.cpu - stored.cpu) > write {
      EscapeEscapes(sent.cpu, stored.cpu, change, write);
      away := sent.(cpu := Escape(sent.cpu, stored.cpu, change, write));
    } else {
      EscapeEscapes(sent.memory, stored.memory, change, write);
      away := sent.(memory := Escape(sent.memory, stored.memory, change, write));
    }
  }

  /** A sample holds utilisations. */
  predicate IsUtilisation(s: Snapshot) { 0.0 <= s.cpu <= 1.0 && 0.0 <= s.memory <= 1.0 }

  ghost predicate BoundHoldsForUtilisations(change: real, write: real, sent: Snapshot, stored: Snapshot)
  {
    forall s :: IsUtilisation(s) && !ShouldSend(change, Some(sent), s) ==> Near(stored, s, change + write)
  }

  /** One coordinate: near the ends of the unit interval the samples cannot move as far as the agent would suppress. */
  predicate Survives(sent: real, stored: real, change: real, write: real)
  {
    && (if sent + change <= 1.0 then sent - stored <= write else 1.0 - stored < change + write)
    && (if sent - change >= 0.0 then stored - sent <= write else stored < change + write)
  }

  /** The suppressed utilisation farthest from the stored one, where the bound does not survive. */
  function Farthest(sent: real, stored: real, change: real, write: real): real
  {
    if (if sent + change <= 1.0 then sent - stored <= write else 1.0 - stored < change + write) then
      (if sent - change >= 0.0 then Escape(sent, stored, change, write) else 0.0)
    else
      (if sent + change <= 1.0 then Escape(sent, stored, change, write) else 1.0)
  }

  lemma FarthestEscapes(sent: real, stored: real, change: real, write: real)
    requires change > 0.0 && write >= 0.0 && 0.0 <= sent <= 1.0 && 0.0 <= stored <= 1.0
    requires !Survives(sent, stored, change, write)
    ensures var x := Farthest(sent, stored, change, write);
            0.0 <= x <= 1.0 && Abs(x - sent) < change && Abs(stored - x) >= change + write
  {
  }

  lemma UtilisationWindow(change: real, write: real, sent: Snapshot, stored: Snapshot)
    requires change > 0.0 && write >= 0.0 && IsUtilisation(sent) && IsUtilisation(stored)
    ensures BoundHoldsForUtilisations(change, write, sent, stored) <==>
            Survives(sent.cpu, stored.cpu, change, write) && Survives(sent.memory, stored.memory, change, write)
  {
    if !Survives(sent.cpu, stored.cpu, change, write) {
      FarthestEscapes(sent.cpu, stored.cpu, change, write);
      assert !ShouldSend(change, Some(sent), sent.(cpu := Farthest(sent.cpu, stored.cpu, change, write)));
    } else if !Survives(sent.memory, stored.memory, change, write) {
      FarthestEscapes(sent.memory, stored.memory, change, write);
      assert !ShouldSend(change, Some(sent), sent.(memory := Farthest(sent.memory, stored.memory, change, write)));
    }
  }

  /** The same for histories whose samples are utilisations: until the next report the bound holds if and only if it
      survives in both coordinates. */
  lemma BoundHoldsExactlyForUtilisations(change: real, write: real, beat: int, n: NodeId, es: seq<LineEvent>)
    requires change > 0.0 && write >= 0.0 && forall s :: s in Samples(es) ==> IsUtilisation(s)
    requires History(change, write, beat, n, es).cell.lastSnapshot.Some?
    ensures var end := History(change, write, beat, n, es);
            && end.lastSent.Some? && end.cell.stored.Some? && end.cell.stored.value.snapshot.Some?
            && var sent, stored := end.lastSent.value, end.cell.stored.value.snapshot.value;
               BoundHoldsForUtilisations(change, write, sent, stored) <==>
               Survives(sent.cpu, stored.cpu, change, write) && Survives(sent.memory, stored.memory, change, write)
  {
    hide Survives, BoundHoldsForUtilisations, Filtered;
    var end := History(change, write, beat, n, es);
    LineInvariant(change, write, beat, n, es);
    LineSendsFiltered(change, write, beat, n, es);
    FilteredMeaning(change, Samples(es));
    UtilisationWindow(change, write, end.lastSent.value, end.cell.stored.value.snapshot.value);
  }

  /** Nothing is sent while the samples stay near the last report, so a lost report is not made up for. */
  ghost predicate NothingNew(change: real, lastSent: Option<Snapshot>, more: seq<LineEvent>)
  {
    forall i :: 0 <= i < |more| && more[i].Sampled? ==> !ShouldSend(change, lastSent, more[i].sample)
  }

  lemma {:induction false} NothingNewChangesNothing(change: real, write: real, beat: int, n: NodeId, line: Line,
                                                    more: seq<LineEvent>)
    requires NothingNew(change, line.lastSent, more) && line.cell.stored.Some?
    ensures var end := LineRun(change, write, beat, n, line, more);
            && end.lastSent == line.lastSent && end.arrived == line.arrived && end.cell.stored.Some?
            && end.cell.stored.value.snapshot == line.cell.stored.value.snapshot
  {
    if more != [] {
      NothingNewChangesNothing(change, write, beat, n, line, more[..|more| - 1]);
      assert more[|more| - 1].Sampled? ==> !ShouldSend(change, line.lastSent, more[|more| - 1].sample);
    }
  }

  /** A node that is idle, then busy for good, and whose first busy report is lost. */
  function LostReport(more: seq<LineEvent>): seq<LineEvent>
  {
    [Other(Beat("u", None, 0)), Sampled(Snapshot(0.0, 0.0), true), Sampled(Snapshot(1.0, 1.0), false)] + more
  }

  /** One lost report breaks the bound, and it stays broken in every continuation whose samples stay near
      the lost one. */
  lemma LostReportBreaksBound(change: real, write: real, beat: int, n: NodeId, more: seq<LineEvent>)
    requires change > 0.0 && write >= 0.0 && change + write <= 1.0
    requires NothingNew(change, Some(Snapshot(1.0, 1.0)), more)
    ensures var end := History(change, write, beat, n, LostReport(more));
            && end.cell.stored.Some? && end.cell.stored.value.snapshot == Some(Snapshot(0.0, 0.0))
            && end.lastSent == Some(Snapshot(1.0, 1.0)) && !end.arrived
            && !StoreIsClose(write, end) && !BoundHoldsUntilNextReport(change, write, end)
  {
    var calm, busy := Snapshot(0.0, 0.0), Snapshot(1.0, 1.0);
    var heard := [Other(Beat("u", None, 0))];
    var reported := heard + [Sampled(calm, true)];
    var lost := reported + [Sampled(busy, false)];
    LineSnoc(change, write, beat, n, [], heard[0]);
    LineSnoc(change, write, beat, n, heard, Sampled(calm, true));
    LineSnoc(change, write, beat, n, reported, Sampled(busy, false));
    assert [] + heard == heard && LostReport(more) == lost + more;
    var line := History(change, write, beat, n, lost);
    LineRunAppend(change, write, beat, n, UNUSED, lost, more);
    NothingNewChangesNothing(change, write, beat, n, line, more);
    assert !ShouldSend(change, line.lastSent, busy);
  }

  lemma LineSnoc(change: real, write: real, beat: int, n: NodeId, es: seq<LineEvent>, e: LineEvent)
    ensures History(change, write, beat, n, es + [e])
         == LineStep(change, write, beat, n, History(change, write, beat, n, es), e)
    ensures History(change, write, beat, n, []) == UNUSED
  {
    assert (es + [e])[..|es|] == es;
  }

  lemma {:induction false} LineRunAppend(change: real, write: real, beat: int, n: NodeId, line: Line,
                                         es: seq<LineEvent>, more: seq<LineEvent>)
    ensures LineRun(change, write, beat, n, line, es + more) ==
            LineRun(change, write, beat, n, LineRun(change, write, beat, n, line, es), more)
  {
    hide LineStep;
    if more == [] {
      assert es + more == es;
    } else {
      LineRunAppend(change, write, beat, n, line, es, more[..|more| - 1]);
      assert (es + more)[..|es + more| - 1] == es + more[..|more| - 1];
    }
  }

  // Scheduling on coalesced snapshots.

  /** Every node record stems from the history of its line, `truth` holds the latest samples, and the stored snapshot of
      a healthy node is within the store's threshold of the last one its agent sent, as it is when that report arrived.
      Nodes that have not sampled yet, or none of whose reports arrived, may be listed. */
  ghost predicate Reported(change: real, write: real, beat: int, nodes: seq<NodeState>,
                           histories: map<NodeId, seq<LineEvent>>, truth: map<NodeId, Snapshot>)
  {
    forall i :: 0 <= i < |nodes| ==>
      var n := nodes[i].nodeId;
      && n in histories
      && var end := History(change, write, beat, n, histories[n]);
         && end.cell.stored == Some(nodes[i]) && end.latest == Lookup(truth, n)
         && (nodes[i].status == Healthy && nodes[i].snapshot.Some? ==> end.arrived || StoreIsClose(write, end))
  }

  lemma StoredIsNearTruth(change: real, write: real, beat: int, nodes: seq<NodeState>,
                          histories: map<NodeId, seq<LineEvent>>, truth: map<NodeId, Snapshot>, n: NodeState)
    requires change > 0.0 && write >= 0.0 && Reported(change, write, beat, nodes, histories, truth)
    requires n in nodes && n.status == Healthy && n.snapshot.Some?
    ensures n.nodeId in truth && Near(n.snapshot.value, truth[n.nodeId], change + write)
  {
    var i :| 0 <= i < |nodes| && nodes[i] == n;
    LineInvariant(change, write, beat, n.nodeId, histories[n.nodeId]);
    SnapshotErrorBound(change, write, beat, n.nodeId, histories[n.nodeId]);
  }

  /** The chosen node misses its resource minimum by less than the error bound, and its true load is less
      than twice the bound above that of any healthy node with a stored snapshot whose spare capacity
      exceeds the minimum by the bound. */
  lemma NearOptimalPlacement(change: real, write: real, beat: int, spec: ServiceSpec, nodes: seq<NodeState>,
                             histories: map<NodeId, seq<LineEvent>>, truth: map<NodeId, Snapshot>, other: NodeState)
    requires change > 0.0 && write >= 0.0 && Reported(change, write, beat, nodes, histories, truth)
    requires other in nodes && other.status == Healthy && other.snapshot.Some? && other.nodeId in truth
    requires 1.0 - truth[other.nodeId].cpu >= spec.minFreeCpu + change + write
    requires 1.0 - truth[other.nodeId].memory >= spec.minFreeMemory + change + write
    ensures Scheduler.Choose(spec, nodes).Some? && Scheduler.Choose(spec, nodes).value in truth
    ensures var chosen := truth[Scheduler.Choose(spec, nodes).value];
            && Scheduler.Load(chosen) < Scheduler.Load(truth[other.nodeId]) + 2.0 * (change + write)
            && 1.0 - chosen.cpu > spec.minFreeCpu - (change + write)
            && 1.0 - chosen.memory > spec.minFreeMemory - (change + write)
  {
    hide Reported, Near, Scheduler.Choose;
    var e := change + write;
    StoredIsNearTruth(change, write, beat, nodes, histories, truth, other);
    NearMeans(other.snapshot.value, truth[other.nodeId], e);
    assert Scheduler.Eligible(spec, other);
    Scheduler.ChoiceIsLexicographicMinimum(spec, nodes);
    var best :| Scheduler.IsBest(spec, nodes, best) && best.nodeId == Scheduler.Choose(spec, nodes).value;
    StoredIsNearTruth(change, write, beat, nodes, histories, truth, best);
    NearMeans(best.snapshot.value, truth[best.nodeId], e);
    assert !Scheduler.KeyLess(Scheduler.CandidateOf(other), Scheduler.CandidateOf(best));
  }

  lemma NearMeans(a: Snapshot, b: Snapshot, e: real)
    requires Near(a, b, e)
    ensures b.cpu - e < a.cpu < b.cpu + e && b.memory - e < a.memory < b.memory + e
    ensures Scheduler.Load(b) - e < Scheduler.Load(a) < Scheduler.Load(b) + e
  {
  }
}
