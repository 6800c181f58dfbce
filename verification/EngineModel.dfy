/**
 Packets and their dispositions. Every captured packet ends in exactly one place: refused, part of a
 datagram that never completed, observed without a connection, or owned by one TCP flow.
 */
module EngineModel {
  import opened Common
  import opened Provenance
  import opened FragmentSets
  import opened FragmentRuns
  import opened FragmentEngine
  import Tcp = TcpTracking

  datatype Disposition =
    | Waiting
    | FragmentWaiting
    | Refused(code: string)
    | FragmentIncomplete(reason: Code)
    | UdpObserved
    | TcpAssigned(flow: nat, direction: Direction)
    | TcpAmbiguous(flows: set<nat>)
    | TcpUnassigned(why: Tcp.Reason)
  {
    predicate Terminal() {
      !Waiting? && !FragmentWaiting?
    }
  }

  datatype Observation = Observation(id: PacketId, disposition: Disposition)

  /** What the wire decoder made of a packet; a network layer carries the packet bytes from start on. */
  datatype Content =
    | Undecodable(code: string)
    | Network(header: Datagram, data: seq<byte>, start: nat)

  /** What transport decoding makes of a complete datagram. */
  datatype Transport = NoTransport(code: string) | UdpDatagram | TcpSegment(segment: Tcp.Segment)

  /** One captured packet; `udp` is what the UDP application stage would fail with, if it does. */
  datatype Captured = Captured(frame: nat, recordOffset: nat, when: Option<i128>, content: Content, udp: Option<Error>)

  datatype Failure =
    | BadConfiguration
    | FrameNumbering
    | FragmentFailure(error: Error)
    | TransportFailure(error: Error)
    | PacketIdentity
    | PacketConservation

  datatype Analysis = Analyzed(packets: seq<Observation>, flows: seq<Tcp.Flow>) | Failed(failure: Failure)

  /** The packets after one step, or why the analysis stops. */
  datatype Step = Continue(packets: seq<Observation>) | Stop(failure: Failure)

  /** What the packet decoder promises: fragments are never empty. */
  ghost predicate Decoded(c: Captured) {
    c.content.Network? && c.content.header.fragment.Some? ==> c.content.data != []
  }

  /** What the transport decoder promises: a segment's payload is a part of its datagram's. */
  ghost predicate Decodes(decode: Datagram -> Transport) {
    forall d: Datagram | decode(d).TcpSegment? :: Packets(decode(d).segment.payload) <= Packets(d.payload)
  }

  function IdOf(identity: seq<byte>, c: Captured): PacketId {
    PacketId(identity, c.frame, c.recordOffset)
  }

  function DatagramOf(identity: seq<byte>, c: Captured): Datagram
    requires c.content.Network?
  {
    c.content.header.(payload := FromPacket(c.content.data, IdOf(identity, c), c.content.start))
  }

  ghost predicate Numbered(packets: seq<Observation>) {
    forall i | 0 <= i < |packets| :: packets[i].id.frame == i + 1
  }

  predicate Known(packets: seq<Observation>, id: PacketId) {
    1 <= id.frame <= |packets| && packets[id.frame - 1].id == id
  }

  ghost predicate AllKnown(packets: seq<Observation>, ids: set<PacketId>) {
    forall id | id in ids :: Known(packets, id)
  }

  /** Give every named packet the same disposition. */
  function Mark(packets: seq<Observation>, ids: set<PacketId>, d: Disposition): (r: seq<Observation>)
    ensures |r| == |packets|
    ensures forall i | 0 <= i < |packets| ::
              r[i] == if packets[i].id in ids then packets[i].(disposition := d) else packets[i]
  {
    seq(|packets|, i requires 0 <= i < |packets| =>
      if packets[i].id in ids then packets[i].(disposition := d) else packets[i])
  }

  /** Every packet without a final disposition is one of these. */
  ghost predicate Unsettled(packets: seq<Observation>, ids: set<PacketId>) {
    forall i | 0 <= i < |packets| :: !packets[i].disposition.Terminal() ==> packets[i].id in ids
  }

  /** The live fragment sets answer for every packet without a final disposition. */
  ghost predicate Conserved(packets: seq<Observation>, live: set<PacketId>) {
    Numbered(packets) && AllKnown(packets, live) && Unsettled(packets, live)
  }

  lemma {:induction false} MarkKeeps(packets: seq<Observation>, ids: set<PacketId>, d: Disposition, known: set<PacketId>, waiting: set<PacketId>)
    requires Numbered(packets) && AllKnown(packets, known) && Unsettled(packets, waiting) && d.Terminal()
    ensures Numbered(Mark(packets, ids, d)) && AllKnown(Mark(packets, ids, d), known)
    ensures Unsettled(Mark(packets, ids, d), waiting - ids)
  {
    var r := Mark(packets, ids, d);
    forall id | id in known ensures Known(r, id) {
      assert Known(packets, id);
    }
  }

  lemma {:induction false} SomeId(ids: set<PacketId>)
    requires ids != {}
    ensures exists id :: id in ids
  {
  }

  lemma {:induction false} MarkOne(packets: seq<Observation>, ids: set<PacketId>, id: PacketId, d: Disposition)
    requires Numbered(packets) && Known(packets, id)
    ensures var m := Mark(packets, ids, d);
            Mark(packets, ids + {id}, d) == m[id.frame - 1 := m[id.frame - 1].(disposition := d)]
  {
    var m := Mark(packets, ids, d);
    var r := m[id.frame - 1 := m[id.frame - 1].(disposition := d)];
    forall i | 0 <= i < |packets| ensures Mark(packets, ids + {id}, d)[i] == r[i] {
      assert packets[i].id == id ==> i == id.frame - 1;
    }
  }

  lemma {:induction false} MarkIds(packets: seq<Observation>, ids: set<PacketId>, d: Disposition)
    ensures |Mark(packets, ids, d)| == |packets|
    ensures forall i | 0 <= i < |packets| :: Mark(packets, ids, d)[i].id == packets[i].id
  {
  }

  lemma {:induction false} NoticeStep(notices: seq<Notice>, k: int, live: set<PacketId>)
    requires 0 <= k < |notices| && NoticePackets(notices) <= live
    ensures notices[k].packets <= live
    ensures live - NoticePackets(notices[..k]) - notices[k].packets == live - NoticePackets(notices[..k + 1])
  {
    assert notices[..k + 1] == notices[..k] + [notices[k]];
    NoticeSnoc(notices[..k], notices[k]);
  }

  lemma {:induction false} AllKnownSubset(packets: seq<Observation>, live: set<PacketId>, rest: set<PacketId>)
    requires AllKnown(packets, live) && rest <= live
    ensures AllKnown(packets, rest)
  {
  }

  lemma {:induction false} UnsettledSubset(packets: seq<Observation>, ids: set<PacketId>, more: set<PacketId>)
    requires Unsettled(packets, ids) && ids <= more
    ensures Unsettled(packets, more)
  {
  }

  // ---------------------------------------------------------------- one packet

  lemma {:induction false} Arrive(packets: seq<Observation>, live: set<PacketId>, id: PacketId)
    requires Conserved(packets, live) && id.frame == |packets| + 1
    ensures Conserved(packets + [Observation(id, Waiting)], live + {id})
  {
    var more := packets + [Observation(id, Waiting)];
    forall x | x in live + {id} ensures Known(more, x) {
      if x in live {
        assert Known(packets, x);
      }
    }
  }

  lemma {:induction false} PayloadPackets(identity: seq<byte>, c: Captured)
    requires c.content.Network? && Decoded(c)
    ensures Packets(DatagramOf(identity, c).payload) == if c.content.data == [] then {} else {IdOf(identity, c)}
    ensures DatagramOf(identity, c).fragment.Some? ==> Packets(DatagramOf(identity, c).payload) == {IdOf(identity, c)}
  {
    var e := DatagramOf(identity, c).payload;
    if c.content.data != [] {
      assert e.spans == [Span(0, |c.content.data|, IdOf(identity, c), c.content.start)];
      assert e.spans[0].packet in Packets(e);
    }
  }

  /** Settling the packets handed back leaves the live ones. */
  lemma {:induction false} SettleReturned(packets: seq<Observation>, known: set<PacketId>, ids: set<PacketId>, d: Disposition, live: set<PacketId>)
    requires Conserved(packets, known) && d.Terminal() && live <= known <= live + ids && ids <= known
    ensures AllKnown(packets, ids) && Conserved(Mark(packets, ids, d), live)
  {
    hide Mark;
    AllKnownSubset(packets, known, ids);
    MarkKeeps(packets, ids, d, known, known);
    AllKnownSubset(Mark(packets, ids, d), known, live);
    UnsettledSubset(Mark(packets, ids, d), known - ids, live);
  }

  /** What a push hands back, together with what stays live, is what was live and the new packet. */
  lemma {:induction false} PushAccounts(r: Reassembler, limits: Limits, identity: seq<byte>, c: Captured)
    requires Sound(r, limits) && c.content.Network? && Decoded(c)
    requires Push(r, limits, DatagramOf(identity, c), c.frame).1.Ok?
    ensures var (after, outcome) := Push(r, limits, DatagramOf(identity, c), c.frame);
            var id := IdOf(identity, c);
            && Live(after) + Returned(outcome.value) <= Live(r) + {id}
            && (outcome.value.Pending? ==> Live(after) == Live(r) + {id})
            && (outcome.value.Rejected? ==> Live(r) + {id} == Live(after) + Returned(outcome.value))
            && (outcome.value.Complete? ==>
                  Live(r) + {id} == Live(after) + (if Returned(outcome.value) == {} then {id} else Returned(outcome.value)))
  {
    hide Live, Packets, Sound, Push, DatagramOf;
    var d := DatagramOf(identity, c);
    PayloadPackets(identity, c);
    PacketsConserved(r, limits, d, c.frame);
    FragmentKept(identity, c);
    if d.fragment.None? {
      WholePush(r, limits, d, c.frame);
    }
  }

  lemma {:induction false} FragmentKept(identity: seq<byte>, c: Captured)
    requires c.content.Network?
    ensures DatagramOf(identity, c).fragment == c.content.header.fragment
  {
  }

  lemma {:induction false} WholePush(r: Reassembler, limits: Limits, d: Datagram, frame: nat)
    requires d.fragment.None? && Push(r, limits, d, frame).1.Ok?
    ensures Push(r, limits, d, frame) == (r, Ok(Complete(d, Packets(d.payload))))
  {
  }

  /** The newest packet may wait while a live set answers for it. */
  lemma {:induction false} SetLastWaiting(packets: seq<Observation>, live: set<PacketId>, id: PacketId)
    requires Conserved(packets, live) && packets != [] && packets[|packets| - 1].id == id && id in live
    ensures Conserved(packets[|packets| - 1 := Observation(id, FragmentWaiting)], live)
  {
    var more := packets[|packets| - 1 := Observation(id, FragmentWaiting)];
    forall x | x in live ensures Known(more, x) {
      assert Known(packets, x);
    }
  }

  ghost predicate SameIds(packets: seq<Observation>, other: seq<Observation>) {
    |packets| == |other| && forall i | 0 <= i < |packets| :: packets[i].id == other[i].id
  }

  lemma {:induction false} ConservedNumbered(packets: seq<Observation>, live: set<PacketId>)
    requires Conserved(packets, live)
    ensures Numbered(packets) && AllKnown(packets, live) && Unsettled(packets, live)
  {
  }

  lemma {:induction false} SetLastRefused(packets: seq<Observation>, live: set<PacketId>, id: PacketId, d: Disposition)
    requires packets != [] && packets[|packets| - 1].id == id && d.Terminal()
    requires Conserved(packets, live + {id}) && Unsettled(packets[..|packets| - 1], live)
    ensures Conserved(packets[|packets| - 1 := Observation(id, d)], live)
  {
    var n := |packets| - 1;
    var more := packets[n := Observation(id, d)];
    forall x | x in live ensures Known(more, x) {
      assert Known(packets, x);
    }
    forall i | 0 <= i < |more| && !more[i].disposition.Terminal() ensures more[i].id in live {
      assert more[i] == packets[..n][i];
    }
  }

  lemma {:induction false} AllSettled(packets: seq<Observation>)
    requires Conserved(packets, {})
    ensures forall i | 0 <= i < |packets| :: packets[i].disposition.Terminal()
  {
  }

  lemma {:induction false} NothingLive(limits: Limits)
    ensures Conserved([], Live(NO_SETS))
  {
    assert Live(NO_SETS) == {};
  }

  // ---------------------------------------------------------------- flows own their packets

  ghost predicate InFlow(d: Disposition, f: nat) {
    d.TcpAssigned? && d.flow == f
  }

  /** Each flow holds exactly the packets assigned to it, and none of them waits in a fragment set. */
  ghost predicate Owns(packets: seq<Observation>, flows: seq<Tcp.Flow>, live: set<PacketId>) {
    && (forall f, id | 0 <= f < |flows| && id in flows[f].packets ::
          Known(packets, id) && id !in live && InFlow(packets[id.frame - 1].disposition, f))
    && (forall i | 0 <= i < |packets| && packets[i].disposition.TcpAssigned? ::
          packets[i].disposition.flow < |flows| && packets[i].id in flows[packets[i].disposition.flow].packets)
  }

  /** Only touched packets changed, and not into assigned ones. */
  ghost predicate ChangedOnly(before: seq<Observation>, after: seq<Observation>, touched: set<PacketId>) {
    && SameIds(after, before)
    && (forall i | 0 <= i < |before| :: after[i] == before[i] || (before[i].id in touched && !after[i].disposition.TcpAssigned?))
  }

  lemma {:induction false} OwnsChanged(before: seq<Observation>, after: seq<Observation>, flows: seq<Tcp.Flow>, live: set<PacketId>, rest: set<PacketId>)
    requires Owns(before, flows, live) && ChangedOnly(before, after, live) && rest <= live
    ensures Owns(after, flows, rest)
  {
    forall f, id | 0 <= f < |flows| && id in flows[f].packets
      ensures Known(after, id) && id !in rest && InFlow(after[id.frame - 1].disposition, f)
    {
      assert Known(before, id) && id !in live;
      assert after[id.frame - 1] == before[id.frame - 1];
    }
  }

  lemma {:induction false} OwnsArrival(packets: seq<Observation>, flows: seq<Tcp.Flow>, live: set<PacketId>, id: PacketId)
    requires Owns(packets, flows, live) && id.frame == |packets| + 1
    ensures Owns(packets + [Observation(id, Waiting)], flows, live + {id})
  {
    var more := packets + [Observation(id, Waiting)];
    forall f, x | 0 <= f < |flows| && x in flows[f].packets
      ensures Known(more, x) && x !in live + {id} && InFlow(more[x.frame - 1].disposition, f)
    {
      assert Known(packets, x);
      assert more[x.frame - 1] == packets[x.frame - 1];
    }
  }

  lemma {:induction false} MarkChanges(packets: seq<Observation>, ids: set<PacketId>, d: Disposition, live: set<PacketId>)
    requires ids <= live && !d.TcpAssigned?
    ensures ChangedOnly(packets, Mark(packets, ids, d), live)
  {
  }

  lemma {:induction false} LastChanges(packets: seq<Observation>, id: PacketId, d: Disposition, live: set<PacketId>)
    requires packets != [] && packets[|packets| - 1].id == id && id in live && !d.TcpAssigned?
    ensures ChangedOnly(packets, packets[|packets| - 1 := Observation(id, d)], live)
  {
  }

  /** Flow f, perhaps new, gains these packets; every other flow is as it was. */
  ghost predicate Gains(flows: seq<Tcp.Flow>, more: seq<Tcp.Flow>, f: nat, ids: set<PacketId>) {
    && f < |more| && f <= |flows| && |more| == Max(|flows|, f + 1)
    && (forall i | 0 <= i < |flows| && i != f :: more[i] == flows[i])
    && more[f].packets == (if f < |flows| then flows[f].packets else {}) + ids
  }

  lemma {:induction false} OwnsGained(
      packets: seq<Observation>, flows: seq<Tcp.Flow>, more: seq<Tcp.Flow>, f: nat, direction: Direction, ids: set<PacketId>,
      live: set<PacketId>, rest: set<PacketId>)
    requires Owns(packets, flows, live) && Numbered(packets) && AllKnown(packets, ids) && ids <= live && rest <= live && rest !! ids
    requires Gains(flows, more, f, ids)
    ensures Owns(Mark(packets, ids, TcpAssigned(f, direction)), more, rest)
  {
    hide Mark;
    var after := Mark(packets, ids, TcpAssigned(f, direction));
    MarkedEach(packets, ids, TcpAssigned(f, direction));
    forall g, id | 0 <= g < |more| && id in more[g].packets
      ensures Known(after, id) && id !in rest && InFlow(after[id.frame - 1].disposition, g)
    {
      if g == f && id in ids {
        assert Known(packets, id);
      } else {
        assert g < |flows| && id in flows[g].packets;
        assert Known(packets, id) && id !in live;
      }
    }
  }

  lemma {:induction false} MarkedEach(packets: seq<Observation>, ids: set<PacketId>, d: Disposition)
    ensures |Mark(packets, ids, d)| == |packets|
    ensures forall i | 0 <= i < |packets| ::
              Mark(packets, ids, d)[i] == if packets[i].id in ids then packets[i].(disposition := d) else packets[i]
  {
  }
}
