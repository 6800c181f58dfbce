/**
 The packet loop of an analysis. Every captured packet starts without a disposition; fragments wait
 in the reassembler and are settled together when their datagram completes, fails or expires, and a
 complete TCP segment goes to the tracker.
 */
module Engine {
  import opened Common
  import opened Provenance
  import opened FragmentSets
  import opened FragmentRuns
  import opened FragmentOwners
  import opened FragmentEngine
  import opened EngineModel
  import Tcp = TcpTracking
  import TcpSafety
  import opened TcpTrackerEngine

  method EachPacket(packets: seq<Observation>, ids: set<PacketId>, d: Disposition) returns (r: Option<seq<Observation>>)
    requires Numbered(packets)
    ensures r.Some? <==> AllKnown(packets, ids)
    ensures r.Some? ==> r.value == Mark(packets, ids, d)
  {
    var done, todo := packets, ids;
    while todo != {}
      invariant todo <= ids && AllKnown(packets, ids - todo)
      invariant done == Mark(packets, ids - todo, d)
      decreases todo
    {
      SomeId(todo);
      var id :| id in todo;
      if !(1 <= id.frame <= |done| && done[id.frame - 1].id == id) {
        return None;
      }
      MarkOne(packets, ids - todo, id, d);
      assert ids - (todo - {id}) == ids - todo + {id};
      done := done[id.frame - 1 := done[id.frame - 1].(disposition := d)];
      todo := todo - {id};
    }
    assert ids - {} == ids;
    r := Some(done);
  }

  /** Settle every packet the notices name. */
  method SettleNotices(packets: seq<Observation>, notices: seq<Notice>, ghost live: set<PacketId>, ghost rest: set<PacketId>)
    returns (r: Option<seq<Observation>>)
    requires Conserved(packets, live) && NoticePackets(notices) + rest == live
    ensures r.Some? && |r.value| == |packets| && Conserved(r.value, rest)
    ensures ChangedOnly(packets, r.value, live)
  {
    hide NoticePackets, Mark, AllKnown, Unsettled;
    var done := packets;
    NoNotices();
    assert live - {} == live;
    for k := 0 to |notices|
      invariant |done| == |packets| && ChangedOnly(packets, done, live)
      invariant Numbered(done) && AllKnown(done, live) && Unsettled(done, live - NoticePackets(notices[..k]))
    {
      NoticeStep(notices, k, live);
      AllKnownSubset(done, live, notices[k].packets);
      var marked := EachPacket(done, notices[k].packets, FragmentIncomplete(notices[k].code));
      MarkKeeps(done, notices[k].packets, FragmentIncomplete(notices[k].code), live, live - NoticePackets(notices[..k]));
      MarkIds(done, notices[k].packets, FragmentIncomplete(notices[k].code));
      MarkChanges(done, notices[k].packets, FragmentIncomplete(notices[k].code), live);
      done := marked.value;
    }
    assert notices[..|notices|] == notices;
    AllKnownSubset(done, live, rest);
    UnsettledSubset(done, live - NoticePackets(notices), rest);
    r := Some(done);
  }

  // ---------------------------------------------------------------- transport

  function DispositionOf(a: Tcp.Assignment): Disposition {
    match a
    case Assigned(flow, direction) => TcpAssigned(flow, direction)
    case Ambiguous(candidates) => TcpAmbiguous(candidates)
    case Unassigned(reason) => TcpUnassigned(reason)
  }

  ghost predicate TrackerReady(tracker: TcpTracker)
    reads tracker
  {
    tracker.limits.Valid() && TcpSafety.Consistent(tracker.State(), tracker.limits) && TcpSafety.AllSourced(tracker.flows)
  }

  lemma {:induction false} IngestFails(t: Tcp.Tracker, limits: Limits, q: Tcp.Query, packets: set<PacketId>)
    requires packets != {} && Tcp.Ingest(t, limits, q, packets).1.Err?
    ensures Tcp.Ingest(t, limits, q, packets).1.error.code == LimitExceeded
  {
    hide Tcp.Select, Tcp.Create, Tcp.Accept;
  }

  /** Hand a complete datagram to its transport; a segment that is assigned gives its packets to one flow. */
  method Deliver(tracker: TcpTracker, d: Datagram, ids: set<PacketId>, c: Captured, decode: Datagram -> Transport)
    returns (r: Result<Disposition>)
    requires TrackerReady(tracker) && Decodes(decode) && ids != {} && Packets(d.payload) <= ids
    modifies tracker
    ensures TrackerReady(tracker)
    ensures r.Ok? ==> r.value.Terminal()
    ensures r.Ok? && r.value.TcpAssigned? ==> Gains(old(tracker.flows), tracker.flows, r.value.flow, ids)
    ensures r.Ok? && !r.value.TcpAssigned? ==> tracker.flows == old(tracker.flows)
    ensures r.Err? ==> r.error.code == LimitExceeded || c.udp == Some(r.error)
  {
    hide TcpSafety.Consistent, TcpSafety.AllSourced, Tcp.Ingest, Packets, QueryFor;
    match decode(d) {
      case NoTransport(code) => r := Ok(Refused(code));
      case UdpDatagram => r := if c.udp.Some? then Err(c.udp.value) else Ok(UdpObserved);
      case TcpSegment(segment) =>
        ghost var before := tracker.State();
        ghost var q := QueryFor(d.scope, c.when, segment, tracker.limits, tracker.idleNs);
        var answer := tracker.IngestWithPackets(d.scope, ids, c.when, segment);
        QueryCarries(d.scope, c.when, segment, tracker.limits, tracker.idleNs);
        TcpSafety.IngestSourced(before, tracker.limits, q, ids);
        TcpSafety.OnlyAssignmentChanges(before, tracker.limits, q, ids);
        if answer.Err? {
          IngestFails(before, tracker.limits, q, ids);
          return Err(answer.error);
        }
        if answer.value.Assigned? {
          ghost var f := answer.value.flow;
          assert ids + Packets(segment.payload) == ids;
          assert Gains(before.flows, tracker.flows, f, ids);
        }
        r := Ok(DispositionOf(answer.value));
    }
  }

  // ---------------------------------------------------------------- one packet

  /** The only reasons for which the reassembler gives up: budgets, or evidence without a valid layout. */
  ghost predicate ResourceError(e: Error) {
    e.code == LimitExceeded || e == LAYOUT_ERROR
  }

  lemma {:induction false} PushFailsFor(r: Reassembler, limits: Limits, d: Datagram, frame: nat)
    requires limits.Valid()
    ensures Push(r, limits, d, frame).1.Err? ==> ResourceError(Push(r, limits, d, frame).1.error)
  {
    hide Offer, Open, Packets, Remove, Joined, PartsLength, Valid;
  }

  /** A packet stops the analysis only through the UDP application stage or an exhausted budget. */
  ghost predicate DispatchFails(c: Captured, failure: Failure) {
    match failure
    case TransportFailure(e) => e.code == LimitExceeded || c.udp == Some(e)
    case FragmentFailure(e) => ResourceError(e)
    case _ => false
  }

  method Settled(packets: seq<Observation>, ids: set<PacketId>, d: Disposition) returns (r: Step)
    requires Numbered(packets)
    ensures AllKnown(packets, ids) ==> r == Continue(Mark(packets, ids, d)) && SameIds(r.packets, packets)
    ensures !AllKnown(packets, ids) ==> r == Stop(PacketIdentity)
  {
    var marked := EachPacket(packets, ids, d);
    if marked.None? {
      return Stop(PacketIdentity);
    }
    r := Continue(marked.value);
  }

  /** What the reassembler holds between packets. */
  ghost predicate FragmentsReady(fragments: FragmentReassembler)
    reads fragments
  {
    fragments.limits.Valid() && Sound(fragments.State(), fragments.limits) && Apart(fragments.State())
  }

  /** The packets and flows of an analysis agree with what still waits. */
  ghost predicate Accounted(packets: seq<Observation>, flows: seq<Tcp.Flow>, live: set<PacketId>) {
    Conserved(packets, live) && Owns(packets, flows, live)
  }

  /** The newest packet, before anything was decided about it. */
  ghost predicate Newest(packets: seq<Observation>, id: PacketId, live: set<PacketId>) {
    && packets != [] && packets[|packets| - 1] == Observation(id, Waiting) && id !in live
    && Unsettled(packets[..|packets| - 1], live)
  }

  lemma {:induction false} FreshPayload(identity: seq<byte>, c: Captured, live: set<PacketId>)
    requires c.content.Network? && Decoded(c) && IdOf(identity, c) !in live
    ensures Packets(DatagramOf(identity, c).payload) !! live
  {
    hide Packets, DatagramOf;
    PayloadPackets(identity, c);
  }

  /** Decode the newest packet, offer it to the reassembler and settle what that decides. */
  method Dispatch(fragments: FragmentReassembler, tracker: TcpTracker, packets: seq<Observation>, identity: seq<byte>, c: Captured, decode: Datagram -> Transport)
    returns (r: Step)
    requires FragmentsReady(fragments) && TrackerReady(tracker) && Decoded(c) && Decodes(decode)
    requires Newest(packets, IdOf(identity, c), Live(fragments.State()))
    requires Accounted(packets, tracker.flows, Live(fragments.State()) + {IdOf(identity, c)})
    modifies fragments, tracker
    ensures FragmentsReady(fragments) && TrackerReady(tracker)
    ensures r.Stop? ==> DispatchFails(c, r.failure)
    ensures r.Continue? ==> SameIds(r.packets, packets) && Accounted(r.packets, tracker.flows, Live(fragments.State()))
  {
    hide Live, Sound, FragmentSets.Push, DatagramOf, Mark, NoticePackets, Decoded, Decodes, AllKnown, Conserved, Unsettled, Owns, Apart,
         TcpSafety.Consistent, TcpSafety.AllSourced, ChangedOnly, Packets, ResourceError, Gains;
    var id, n := IdOf(identity, c), |packets| - 1;
    ghost var start, flows := fragments.State(), tracker.flows;
    ghost var known := Live(start) + {id};
    ConservedNumbered(packets, known);
    if c.content.Undecodable? {
      SetLastRefused(packets, Live(start), id, Refused(c.content.code));
      LastChanges(packets, id, Refused(c.content.code), known);
      r := Continue(packets[n := Observation(id, Refused(c.content.code))]);
      OwnsChanged(packets, r.packets, flows, known, Live(start));
      return;
    }
    FreshPayload(identity, c, Live(start));
    PushApart(start, fragments.limits, DatagramOf(identity, c), c.frame);
    PushFailsFor(start, fragments.limits, DatagramOf(identity, c), c.frame);
    var outcome := fragments.Push(DatagramOf(identity, c), c.frame);
    if outcome.Err? {
      return Stop(FragmentFailure(outcome.error));
    }
    PushAccounts(start, fragments.limits, identity, c);
    ghost var live := Live(fragments.State());
    match outcome.value {
      case Pending =>
        SetLastWaiting(packets, known, id);
        LastChanges(packets, id, FragmentWaiting, known);
        r := Continue(packets[n := Observation(id, FragmentWaiting)]);
        OwnsChanged(packets, r.packets, flows, known, live);
      case Rejected(notice) =>
        SettleReturned(packets, known, notice.packets, FragmentIncomplete(notice.code), live);
        MarkChanges(packets, notice.packets, FragmentIncomplete(notice.code), known);
        r := Settled(packets, notice.packets, FragmentIncomplete(notice.code));
        OwnsChanged(packets, r.packets, flows, known, live);
      case Complete(datagram, ids) =>
        var contributors := if ids == {} then {id} else ids;
        ContributorsGone(start, fragments.State(), fragments.limits, identity, c, contributors);
        var answer := Deliver(tracker, datagram, contributors, c, decode);
        if answer.Err? {
          return Stop(TransportFailure(answer.error));
        }
        SettleReturned(packets, known, contributors, answer.value, live);
        r := Settled(packets, contributors, answer.value);
        if answer.value.TcpAssigned? {
          OwnsGained(packets, flows, tracker.flows, answer.value.flow, answer.value.direction, contributors, known, live);
        } else {
          MarkChanges(packets, contributors, answer.value, known);
          OwnsChanged(packets, r.packets, flows, known, live);
        }
    }
  }

  /** The packets of a completed datagram wait nowhere any more. */
  lemma {:induction false} ContributorsGone(r: Reassembler, after: Reassembler, limits: Limits, identity: seq<byte>, c: Captured, contributors: set<PacketId>)
    requires Sound(r, limits) && Apart(r) && c.content.Network? && Decoded(c) && IdOf(identity, c) !in Live(r)
    requires var (next, outcome) := Push(r, limits, DatagramOf(identity, c), c.frame);
             next == after && outcome.Ok? && outcome.value.Complete?
             && contributors == if outcome.value.packets == {} then {IdOf(identity, c)} else outcome.value.packets
    ensures contributors != {} && contributors !! Live(after)
    ensures Packets(Push(r, limits, DatagramOf(identity, c), c.frame).1.value.datagram.payload) <= contributors
  {
    hide Live, Packets, Sound, Push, DatagramOf, Apart;
    var d, id := DatagramOf(identity, c), IdOf(identity, c);
    FreshPayload(identity, c, Live(r));
    PushApart(r, limits, d, c.frame);
    PushAccounts(r, limits, identity, c);
    if Push(r, limits, d, c.frame).1.value.packets == {} {
      PacketsConserved(r, limits, d, c.frame);
      PayloadPackets(identity, c);
    }
  }

  // ---------------------------------------------------------------- the loop

  /** Each flow holds exactly the packets whose disposition names it. */
  ghost predicate Partitioned(packets: seq<Observation>, flows: seq<Tcp.Flow>) {
    && (forall f, i | 0 <= f < |flows| && 0 <= i < |packets| ::
          packets[i].id in flows[f].packets <==> InFlow(packets[i].disposition, f))
    && (forall f, id | 0 <= f < |flows| && id in flows[f].packets :: Known(packets, id))
  }

  lemma {:induction false} OwnsPartitions(packets: seq<Observation>, flows: seq<Tcp.Flow>, live: set<PacketId>)
    requires Owns(packets, flows, live) && Numbered(packets)
    ensures Partitioned(packets, flows)
  {
    forall f, i | 0 <= f < |flows| && 0 <= i < |packets|
      ensures packets[i].id in flows[f].packets <==> InFlow(packets[i].disposition, f)
    {
      if packets[i].id in flows[f].packets {
        assert Known(packets, packets[i].id);
      }
    }
  }

  lemma {:induction false} Begins(limits: Limits)
    ensures Accounted([], [], Live(NO_SETS)) && Apart(NO_SETS)
  {
    hide Live;
    NothingLive(limits);
  }

  lemma {:induction false} Arrives(packets: seq<Observation>, flows: seq<Tcp.Flow>, live: set<PacketId>, id: PacketId)
    requires Accounted(packets, flows, live) && id.frame == |packets| + 1
    ensures var more := packets + [Observation(id, Waiting)];
            Accounted(more, flows, live + {id}) && Newest(more, id, live)
  {
    hide Owns;
    Arrive(packets, live, id);
    OwnsArrival(packets, flows, live, id);
    var more := packets + [Observation(id, Waiting)];
    assert more[..|packets|] == packets;
    NewId(packets, live, id);
  }

  lemma {:induction false} NewId(packets: seq<Observation>, live: set<PacketId>, id: PacketId)
    requires AllKnown(packets, live) && id.frame == |packets| + 1
    ensures id !in live
  {
  }

  /** A failure names the packet that caused it. */
  ghost predicate FailsAt(captured: seq<Captured>, i: nat, failure: Failure) {
    i < |captured| && ((failure == FrameNumbering && captured[i].frame != i + 1) || DispatchFails(captured[i], failure))
  }

  /**
   The whole packet loop. Packet identities never miss and no packet is left without a final
   disposition, so neither internal check can fail on any capture; and every flow holds exactly the
   packets whose disposition names it, each accepted payload coming from packets of its own flow.
   */
  method Analyze(captured: seq<Captured>, identity: seq<byte>, limits: Limits, idleNs: i128, decode: Datagram -> Transport)
    returns (r: Analysis)
    requires Decodes(decode) && forall i | 0 <= i < |captured| :: Decoded(captured[i])
    ensures r == Failed(BadConfiguration) <==> !(limits.Valid() && idleNs > 0)
    ensures r.Failed? ==> !r.failure.PacketIdentity? && !r.failure.PacketConservation?
    ensures r.Failed? && r.failure != BadConfiguration ==> exists i: nat :: FailsAt(captured, i, r.failure)
    ensures r.Analyzed? ==>
              && |r.packets| == |captured|
              && (forall i | 0 <= i < |captured| :: captured[i].frame == i + 1)
              && (forall i | 0 <= i < |captured| :: r.packets[i].id == IdOf(identity, captured[i]))
              && (forall i | 0 <= i < |captured| :: r.packets[i].disposition.Terminal())
    ensures r.Analyzed? ==> Partitioned(r.packets, r.flows) && TcpSafety.AllSourced(r.flows)
    ensures r.Analyzed? ==> exists t: Tcp.Tracker :: t.flows == r.flows && TcpSafety.Consistent(t, limits)
  {
    hide Live, Sound, Conserved, NoticePackets, Decoded, Decodes, Survivors, Expired, Unsettled, Apart, Owns, ChangedOnly, Partitioned, Newest,
         DispatchFails, TcpSafety.Consistent, TcpSafety.AllSourced;
    var made := TcpTracker.New(limits, idleNs);
    if made.Err? {
      return Failed(BadConfiguration);
    }
    var tracker := made.value;
    TcpSafety.EmptyConsistent(limits);
    NoFlows();
    var fragments := new FragmentReassembler(limits);
    var packets: seq<Observation> := [];
    Begins(limits);
    for n := 0 to |captured|
      invariant fresh(fragments) && fresh(tracker) && fragments.limits == limits == tracker.limits
      invariant FragmentsReady(fragments) && TrackerReady(tracker)
      invariant |packets| == n && Accounted(packets, tracker.flows, Live(fragments.State()))
      invariant forall i | 0 <= i < n :: captured[i].frame == i + 1 && packets[i].id == IdOf(identity, captured[i])
    {
      var c := captured[n];
      ghost var before := Live(fragments.State());
      ExpiredApart(fragments.State(), limits, c.frame);
      var notices := fragments.Expire(c.frame);
      ghost var live := Live(fragments.State());
      var settled := SettleNotices(packets, notices, before, live);
      if settled.None? {
        return Failed(PacketIdentity);
      }
      OwnsChanged(packets, settled.value, tracker.flows, before, live);
      ChangedIds(packets, settled.value, before);
      packets := settled.value;
      if c.frame != |packets| + 1 {
        assert FailsAt(captured, n, FrameNumbering);
        return Failed(FrameNumbering);
      }
      var id := IdOf(identity, c);
      Arrives(packets, tracker.flows, live, id);
      var step := Dispatch(fragments, tracker, packets + [Observation(id, Waiting)], identity, c, decode);
      if step.Stop? {
        assert FailsAt(captured, n, step.failure);
        StopsFor(c, step.failure);
        return Failed(step.failure);
      }
      packets := step.packets;
    }
    var notices := fragments.Finish();
    var settled := SettleNotices(packets, notices, Live(fragments.State()), {});
    if settled.None? {
      return Failed(PacketIdentity);
    }
    OwnsChanged(packets, settled.value, tracker.flows, Live(fragments.State()), {});
    ChangedIds(packets, settled.value, Live(fragments.State()));
    packets := settled.value;
    AllSettled(packets);
    if exists i | 0 <= i < |packets| :: !packets[i].disposition.Terminal() {
      return Failed(PacketConservation);
    }
    ConservedNumbered(packets, {});
    OwnsPartitions(packets, tracker.flows, {});
    assert tracker.State().flows == tracker.flows;
    r := Analyzed(packets, tracker.flows);
  }

  lemma {:induction false} NoFlows()
    ensures TcpSafety.AllSourced([])
  {
  }

  lemma {:induction false} StopsFor(c: Captured, failure: Failure)
    requires DispatchFails(c, failure)
    ensures failure.TransportFailure? || failure.FragmentFailure?
  {
    hide ResourceError;
  }

  lemma {:induction false} ChangedIds(before: seq<Observation>, after: seq<Observation>, touched: set<PacketId>)
    requires ChangedOnly(before, after, touched)
    ensures |after| == |before| && forall i | 0 <= i < |before| :: after[i].id == before[i].id
  {
  }
}
