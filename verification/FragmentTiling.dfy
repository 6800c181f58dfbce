/** The completion theorem for fragments that tile a datagram. */
module FragmentTiling {
  import opened Common
  import opened Provenance
  import opened FragmentSets
  import opened FragmentParts
  import opened FragmentSafety
  import opened FragmentOrder
  import opened Permutations

  // ---------------------------------------------------------------- lengths

  lemma {:induction false} LengthBelow(ds: seq<Datagram>, total: nat, ipv6: bool, k: nat, m: nat)
    requires Tiles(ds, total, ipv6) && k <= m <= |ds|
    ensures LengthTo(ds, k) <= LengthTo(ds, m) && (k < m ==> LengthTo(ds, k) < LengthTo(ds, m))
    decreases m - k
  {
    hide Overlap;
    if k < m {
      LengthBelow(ds, total, ipv6, k, m - 1);
      assert Tile(ds[m - 1], total, ipv6);
      TileFacts(ds[m - 1], total, ipv6);
    }
  }

  lemma {:induction false} CollectedEnds(t: FragmentSet, ds: seq<Datagram>, k: nat, total: nat, ipv6: bool, j: int)
    requires Tiles(ds, total, ipv6) && k <= |ds| && Collected(t, ds, k, total) && 0 <= j < |t.parts|
    ensures t.parts[j].start < t.parts[j].End() <= total && (t.parts[j].more <==> t.parts[j].End() < total)
    ensures exists i :: 0 <= i < k && t.parts[j] == PartOf(ds[i])
  {
    hide Overlap, PartOk, PartsLength;
    var p := t.parts[j];
    assert p in t.parts;
    var i :| 0 <= i < k && p == PartOf(ds[i]);
    assert Tile(ds[i], total, ipv6);
    TileFacts(ds[i], total, ipv6);
  }

  lemma {:induction false} CollectedEndsBy(t: FragmentSet, ds: seq<Datagram>, k: nat, total: nat, ipv6: bool)
    requires Tiles(ds, total, ipv6) && k <= |ds| && Collected(t, ds, k, total)
    ensures EndsBy(t.parts, total)
  {
    hide Collected, Tiles;
    forall j | 0 <= j < |t.parts| ensures t.parts[j].start < t.parts[j].End() <= total {
      CollectedEnds(t, ds, k, total, ipv6, j);
    }
  }

  lemma {:induction false} CollectedFacts(t: FragmentSet, ds: seq<Datagram>, k: nat, total: nat)
    requires AllFragments(ds) && k <= |ds| && Collected(t, ds, k, total)
    ensures !t.poisoned && SortedParts(t.parts) && AllDisjoint(t.parts) && PartsOk(t.parts)
    ensures PartsLength(t.parts) == LengthTo(ds, k) && OffsetZeroOwns(t, ds, k)
    ensures t.end.Some? ==> t.end.value == total
    ensures t.end.None? ==> forall i | 0 <= i < k :: PartOf(ds[i]).more
  {
    hide SortedParts, AllDisjoint, PartsOk, PartsLength, LengthTo, OffsetZeroOwns;
  }

  /** The parts cover the datagram exactly when every tile has arrived. */
  lemma {:induction false} CoveredAtLast(t: FragmentSet, ds: seq<Datagram>, k: nat, total: nat, ipv6: bool)
    requires Tiles(ds, total, ipv6) && 0 < k <= |ds| && Collected(t, ds, k, total)
    ensures FragmentSafety.Covered(t) <==> k == |ds|
  {
    hide Collected, Cursor, PartsLength, AllDisjoint, SortedParts, EndsBy, OffsetZeroOwns, PartsOk;
    CollectedFacts(t, ds, k, total);
    CollectedEndsBy(t, ds, k, total, ipv6);
    LengthBelow(ds, total, ipv6, k, |ds|);
    CoveredByLength(t.parts, total);
    if k == |ds| {
      LengthBelow(ds, total, ipv6, 0, k);
      TerminalSeen(t, ds, total, ipv6);
    }
  }

  lemma {:induction false} TerminalSeen(t: FragmentSet, ds: seq<Datagram>, total: nat, ipv6: bool)
    requires Tiles(ds, total, ipv6) && 0 < total && Collected(t, ds, |ds|, total)
    ensures t.end == Some(total)
  {
    hide Collected, PartsLength, AllDisjoint, SortedParts, OffsetZeroOwns, PartsOk, EndsBy;
    CollectedFacts(t, ds, |ds|, total);
    CollectedEndsBy(t, ds, |ds|, total, ipv6);
    LengthPrefix(t.parts, |t.parts|);
    assert t.parts[..|t.parts|] == t.parts;
    var n := |t.parts| - 1;
    StartsExactly(t.parts, n, total);
    CollectedEnds(t, ds, |ds|, total, ipv6, n);
  }

  // ---------------------------------------------------------------- the completed set

  lemma {:induction false} FirstTile(t: FragmentSet, ds: seq<Datagram>, total: nat, ipv6: bool) returns (i: nat)
    requires Tiles(ds, total, ipv6) && 0 < total && Collected(t, ds, |ds|, total)
    ensures i < |ds| && ds[i].fragment.value.offset == 0
    ensures t.template.protocol == ds[i].protocol && t.template.headerLength == ds[i].headerLength
    ensures total + Overhead(t.template, ipv6) <= MAX_DATAGRAM
  {
    hide Collected, PartsLength, AllDisjoint, SortedParts, PartsOk, EndsBy;
    CollectedFacts(t, ds, |ds|, total);
    CollectedEndsBy(t, ds, |ds|, total, ipv6);
    LengthPrefix(t.parts, |t.parts|);
    assert t.parts[..|t.parts|] == t.parts;
    StartsExactly(t.parts, 0, total);
    CollectedEnds(t, ds, |ds|, total, ipv6, 0);
    i :| 0 <= i < |ds| && t.parts[0] == PartOf(ds[i]);
    assert Tile(ds[i], total, ipv6);
  }

  lemma {:induction false} DisjointCompatible(parts: seq<Part>, ipv6: bool)
    requires AllDisjoint(parts)
    ensures AllCompatible(parts, ipv6)
  {
    hide Overlap, Window;
  }

  lemma {:induction false} CollectedReady(t: FragmentSet, ds: seq<Datagram>, total: nat, ipv6: bool)
    requires Tiles(ds, total, ipv6) && 0 < |ds| && Collected(t, ds, |ds|, total)
    ensures ReadyOk(t, ipv6) && t.end == Some(total)
  {
    hide Collected, PartsLength, AllDisjoint, SortedParts, PartsOk, Overlap, Reach, Contiguous, AllCompatible, Overhead;
    CollectedFacts(t, ds, |ds|, total);
    LengthBelow(ds, total, ipv6, 0, |ds|);
    TerminalSeen(t, ds, total, ipv6);
    var i := FirstTile(t, ds, total, ipv6);
    DisjointCompatible(t.parts, ipv6);
    forall j | 0 <= j < |t.parts| ensures !Outside(t.parts[j], total) {
      CollectedEnds(t, ds, |ds|, total, ipv6, j);
    }
    CollectedEndsBy(t, ds, |ds|, total, ipv6);
    LengthPrefix(t.parts, |t.parts|);
    assert t.parts[..|t.parts|] == t.parts;
    ReachExactly(t.parts, |t.parts|, total);
  }

  // ---------------------------------------------------------------- the run

  lemma {:induction false} OfferNext(t: FragmentSet, ds: seq<Datagram>, k: nat, total: nat, ipv6: bool)
    requires Tiles(ds, total, ipv6) && k < |ds| && Collected(t, ds, k, total)
    ensures var step := Offer(t, ds[k], ds[k].fragment.value, t.packets + Packets(ds[k].payload));
            && step.set_ == After(t, ds[k])
            && (if k + 1 < |ds| then step.SetPending? else step.SetReady?)
  {
    hide Collected, Insert, Verdict, TemplateAfter, EndAfter, Packets, Overhead, Overlap, LengthTo;
    var d, u := ds[k], After(t, ds[k]);
    NextAccepted(t, ds, k, total, ipv6);
    VerdictIgnores(t, t.packets + Packets(d.payload), PartOf(d), ipv6);
    AfterCollected(t, ds, k, total, ipv6);
    CoveredAtLast(u, ds, k + 1, total, ipv6);
    CollectedFacts(t, ds, k, total);
    TileIs(ds, total, ipv6, k);
    if k + 1 == |ds| {
      LengthBelow(ds, total, ipv6, 0, |ds|);
      LengthNone(ds);
      var i := FirstTile(u, ds, total, ipv6);
      CollectedReady(u, ds, total, ipv6);
    }
  }

  lemma {:induction false} LengthNone(ds: seq<Datagram>)
    ensures LengthTo(ds, 0) == 0
  {
  }

  lemma {:induction false} TileIs(ds: seq<Datagram>, total: nat, ipv6: bool, k: nat)
    requires Tiles(ds, total, ipv6) && k < |ds|
    ensures Tile(ds[k], total, ipv6) && ds[k].ipv6 == ipv6
  {
    hide Overlap;
  }

  lemma {:induction false} VerdictIgnores(t: FragmentSet, packets: set<PacketId>, p: Part, ipv6: bool)
    ensures Verdict(t.(packets := packets), p, ipv6) == Verdict(t, p, ipv6)
    ensures EndAfter(t.(packets := packets), p) == EndAfter(t, p)
  {
    hide OverlapVerdict;
  }

  lemma {:induction false} NothingCollected(ds: seq<Datagram>, total: nat, frame: nat)
    requires AllFragments(ds) && |ds| > 0
    ensures Collected(NewSet(ds[0], frame), ds, 0, total)
  {
  }

  /** The packets of the first k fragments. */
  ghost function PacketsOfAll(ds: seq<Datagram>, k: nat): set<PacketId>
    requires k <= |ds|
  {
    if k == 0 then {} else PacketsOfAll(ds, k - 1) + Packets(ds[k - 1].payload)
  }

  /** Sticky flags and identity of the template after the first k fragments. */
  ghost predicate TemplateOf(t: Datagram, ds: seq<Datagram>, k: nat)
    requires k <= |ds| && 0 < |ds|
  {
    && t.scope == ds[0].scope && t.source == ds[0].source && t.destination == ds[0].destination && t.ipv6 == ds[0].ipv6
    && t.ipChecksum == (if exists i | 0 <= i < k :: ds[i].ipChecksum == ChecksumInvalid then ChecksumInvalid else ds[0].ipChecksum)
    && t.context == (if exists i | 0 <= i < k :: ds[i].context == Unsupported then Unsupported else ds[0].context)
  }

  lemma {:induction false} TemplateStep(t: Datagram, ds: seq<Datagram>, k: nat, offset: nat)
    requires k < |ds| && TemplateOf(t, ds, k)
    ensures TemplateOf(TemplateAfter(t, ds[k], offset), ds, k + 1)
  {
    assert (exists i | 0 <= i < k + 1 :: ds[i].ipChecksum == ChecksumInvalid)
      <==> ds[k].ipChecksum == ChecksumInvalid || exists i | 0 <= i < k :: ds[i].ipChecksum == ChecksumInvalid;
    assert (exists i | 0 <= i < k + 1 :: ds[i].context == Unsupported)
      <==> ds[k].context == Unsupported || exists i | 0 <= i < k :: ds[i].context == Unsupported;
  }

  /** What a set knows after the first k tiles. */
  ghost predicate Progress(t: FragmentSet, ds: seq<Datagram>, k: nat, total: nat, frame: nat)
    requires AllFragments(ds) && k <= |ds| && 0 < |ds|
  {
    && Collected(t, ds, k, total) && TemplateOf(t.template, ds, k)
    && t.packets == PacketsOfAll(ds, k) && t.firstFrame == frame && |t.parts| == k
  }

  lemma {:induction false} ProgressStep(t: FragmentSet, ds: seq<Datagram>, k: nat, total: nat, frame: nat, ipv6: bool)
    requires Tiles(ds, total, ipv6) && k < |ds| && Progress(t, ds, k, total, frame)
    ensures Progress(After(t, ds[k]), ds, k + 1, total, frame)
  {
    hide Collected, TemplateOf, Packets, Insert, TemplateAfter, EndAfter, Overlap, LengthTo;
    AfterCollected(t, ds, k, total, ipv6);
    TemplateStep(t.template, ds, k, ds[k].fragment.value.offset);
    InsertIndex(t.parts, PartOf(ds[k]), 0);
  }

  /**
   Disjoint fragments that tile a datagram, in whatever order they arrive: every proper prefix is
   pending and exactly the last one completes the set.
   */
  lemma {:induction false} TilingCompletes(ds: seq<Datagram>, total: nat, ipv6: bool, frame: nat, k: nat)
    requires Tiles(ds, total, ipv6) && 0 < |ds| && k <= |ds|
    ensures var step := OfferUpTo(NewSet(ds[0], frame), ds, k);
            && (if k < |ds| then step.SetPending? else step.SetReady? && ReadyOk(step.set_, ipv6) && step.set_.end == Some(total))
            && Progress(step.set_, ds, k, total, frame)
  {
    hide Collected, TemplateOf, Packets, Offer, After, ReadyOk, NewSet, Overlap, LengthTo, PacketsOfAll;
    if k == 0 {
      NothingCollected(ds, total, frame);
      NothingTemplate(ds, frame);
    } else {
      TilingCompletes(ds, total, ipv6, frame, k - 1);
      var t := OfferUpTo(NewSet(ds[0], frame), ds, k - 1).set_;
      OfferNext(t, ds, k - 1, total, ipv6);
      ProgressStep(t, ds, k - 1, total, frame, ipv6);
      if k == |ds| {
        CollectedReady(After(t, ds[k - 1]), ds, total, ipv6);
      }
    }
  }

  lemma {:induction false} NothingTemplate(ds: seq<Datagram>, frame: nat)
    requires |ds| > 0
    ensures TemplateOf(NewSet(ds[0], frame).template, ds, 0)
    ensures NewSet(ds[0], frame).packets == PacketsOfAll(ds, 0) && NewSet(ds[0], frame).firstFrame == frame
    ensures NewSet(ds[0], frame).parts == []
  {
  }

  // ---------------------------------------------------------------- the same datagram in every order

  lemma {:induction false} JoinedCanonical(parts: seq<Part>, k: nat)
    requires k <= |parts| && PartsOk(parts) && Contiguous(parts, k)
    requires forall i | 0 <= i < |parts| :: Canonical(parts[i].bytes)
    ensures Canonical(Joined(parts, k))
  {
    hide Tiled, Slice, Append, Reach, Coalesced;
    if k == 0 {
      NothingCoalesced(parts);
    } else {
      hide Joined;
      ContiguousPrefix(parts, k);
      JoinedCanonical(parts, k - 1);
      JoinedSize(parts, k - 1);
      var p, before := parts[k - 1], Joined(parts, k - 1);
      assert PartOk(p) && p.start <= Reach(parts, k - 1);
      JoinedStep(parts, k);
      if |before.data| - p.start < |p.bytes.data| {
        SliceCanonical(p.bytes, |before.data| - p.start, |p.bytes.data|);
        AppendCanonical(before, Slice(p.bytes, |before.data| - p.start, |p.bytes.data|).value, MAX_DATAGRAM);
      }
    }
  }

  lemma {:induction false} NothingCoalesced(parts: seq<Part>)
    ensures Joined(parts, 0) == EMPTY && Canonical(EMPTY)
  {
  }

  /** Every byte of the completed payload, with its origin, is the one its only tile carries. */
  lemma {:induction false} TilingPayload(s: FragmentSet, ds: seq<Datagram>, total: nat, ipv6: bool, i: int, x: int)
    requires Tiles(ds, total, ipv6) && Collected(s, ds, |ds|, total) && ReadyOk(s, ipv6) && s.end == Some(total)
    requires 0 <= i < |ds| && Holds(PartOf(ds[i]), x)
    ensures var payload := Joined(s.parts, |s.parts|);
            && Valid(payload) && |payload.data| == total && 0 <= x < total && Valid(ds[i].payload)
            && At(payload, x) == At(ds[i].payload, x - ds[i].fragment.value.offset)
  {
    hide Collected, Tiled, At, Joined, Reach, Contiguous, SortedParts, AllCompatible, LengthTo, EndConsistent, Overlap, Tile;
    TileIs(ds, total, ipv6, i);
    TileFacts(ds[i], total, ipv6);
    JoinedSize(s.parts, |s.parts|);
    JoinedOrigins(s.parts, |s.parts|, x);
    var j :| 0 <= j < |s.parts| && Holds(s.parts[j], x)
      && At(s.parts[j].bytes, x - s.parts[j].start) == At(Joined(s.parts, |s.parts|), x);
    CollectedEnds(s, ds, |ds|, total, ipv6, j);
    var m :| 0 <= m < |ds| && s.parts[j] == PartOf(ds[m]);
    OneTileAt(ds, total, ipv6, m, i, x);
  }

  /** Two tiles that hold one position are the same tile. */
  lemma {:induction false} OneTileAt(ds: seq<Datagram>, total: nat, ipv6: bool, i: int, j: int, x: int)
    requires Tiles(ds, total, ipv6) && 0 <= i < |ds| && 0 <= j < |ds| && Holds(PartOf(ds[i]), x) && Holds(PartOf(ds[j]), x)
    ensures i == j
  {
    hide LengthTo, Tile;
  }

  /** Some tile holds each position below the total. */
  lemma {:induction false} TileAt(s: FragmentSet, ds: seq<Datagram>, total: nat, ipv6: bool, x: int) returns (i: int)
    requires Tiles(ds, total, ipv6) && Collected(s, ds, |ds|, total) && ReadyOk(s, ipv6) && s.end == Some(total)
    requires 0 <= x < total
    ensures 0 <= i < |ds| && Holds(PartOf(ds[i]), x)
  {
    hide Collected, Tile, Overlap, Tiled, At, Joined, Reach, Contiguous, SortedParts, AllCompatible, LengthTo, EndConsistent, PartOk;
    JoinedOrigins(s.parts, |s.parts|, x);
    var j :| 0 <= j < |s.parts| && Holds(s.parts[j], x);
    CollectedEnds(s, ds, |ds|, total, ipv6, j);
    i :| 0 <= i < |ds| && s.parts[j] == PartOf(ds[i]);
  }

  /** All fragments of one original datagram, each with evidence in reachable form. */
  ghost predicate OneDatagram(ds: seq<Datagram>) {
    && AllFragments(ds) && 0 < |ds|
    && (forall i | 0 <= i < |ds| :: Canonical(ds[i].payload))
    && (forall i | 0 <= i < |ds| :: SameFlow(ds[i], ds[0]))
  }

  ghost predicate SameFlow(d: Datagram, e: Datagram) {
    d.fragment.Some? && e.fragment.Some? && KeyFor(d, d.fragment.value) == KeyFor(e, e.fragment.value)
  }

  /** The datagram a completed set turns into. */
  function Result(s: FragmentSet): Datagram {
    s.template.(payload := Joined(s.parts, |s.parts|), fragment := None)
  }

  ghost predicate SameMembers(ds: seq<Datagram>, es: seq<Datagram>) {
    forall d :: d in ds <==> d in es
  }

  lemma {:induction false} PayloadsEqual(s: FragmentSet, t: FragmentSet, ds: seq<Datagram>, es: seq<Datagram>, total: nat, ipv6: bool)
    requires Tiles(ds, total, ipv6) && Collected(s, ds, |ds|, total) && ReadyOk(s, ipv6) && s.end == Some(total)
    requires Tiles(es, total, ipv6) && Collected(t, es, |es|, total) && ReadyOk(t, ipv6) && t.end == Some(total)
    requires OneDatagram(ds) && OneDatagram(es) && SameMembers(ds, es)
    ensures Joined(s.parts, |s.parts|) == Joined(t.parts, |t.parts|)
  {
    hide Tiles, Collected, Canonical, Tiled, Joined, Reach, Contiguous, SortedParts, AllCompatible, EndConsistent, At;
    var a, b := Joined(s.parts, |s.parts|), Joined(t.parts, |t.parts|);
    PartsCanonical(s, ds, total, ipv6);
    PartsCanonical(t, es, total, ipv6);
    JoinedSize(s.parts, |s.parts|);
    JoinedSize(t.parts, |t.parts|);
    forall x | 0 <= x < total ensures View(a)[x] == View(b)[x] {
      var i := TileAt(s, ds, total, ipv6, x);
      TilingPayload(s, ds, total, ipv6, i, x);
      assert ds[i] in es;
      var j :| 0 <= j < |es| && es[j] == ds[i];
      TilingPayload(t, es, total, ipv6, j, x);
    }
    assert View(a) == View(b);
    CanonicalUnique(a, b);
  }

  lemma {:induction false} PartsCanonical(s: FragmentSet, ds: seq<Datagram>, total: nat, ipv6: bool)
    requires Tiles(ds, total, ipv6) && Collected(s, ds, |ds|, total) && ReadyOk(s, ipv6) && OneDatagram(ds)
    ensures Canonical(Joined(s.parts, |s.parts|))
  {
    hide Tiles, Collected, Canonical, Joined, Reach, Contiguous, SortedParts, AllCompatible, EndConsistent;
    forall j | 0 <= j < |s.parts| ensures Canonical(s.parts[j].bytes) {
      CollectedEnds(s, ds, |ds|, total, ipv6, j);
      var i :| 0 <= i < |ds| && s.parts[j] == PartOf(ds[i]);
    }
    JoinedCanonical(s.parts, |s.parts|);
  }

  lemma {:induction false} PacketsIn(ds: seq<Datagram>, k: nat, p: PacketId)
    requires k <= |ds|
    ensures p in PacketsOfAll(ds, k) <==> exists i :: 0 <= i < k && p in Packets(ds[i].payload)
  {
    hide Packets;
    if k > 0 {
      PacketsIn(ds, k - 1, p);
    }
  }

  lemma {:induction false} PacketsEqual(ds: seq<Datagram>, es: seq<Datagram>)
    requires SameMembers(ds, es)
    ensures PacketsOfAll(ds, |ds|) == PacketsOfAll(es, |es|)
  {
    hide Packets, PacketsOfAll;
    forall p ensures p in PacketsOfAll(ds, |ds|) <==> p in PacketsOfAll(es, |es|) {
      PacketsIn(ds, |ds|, p);
      PacketsIn(es, |es|, p);
      if i :| 0 <= i < |ds| && p in Packets(ds[i].payload) {
        assert ds[i] in es;
      }
      if i :| 0 <= i < |es| && p in Packets(es[i].payload) {
        assert es[i] in ds;
      }
    }
  }

  /**
   Two arrival orders of one tiling give the same datagram and the same packets. The header checksum
   state is the one field the first arrival decides, so the datagrams are equal exactly when an invalid
   checksum was seen or both first fragments carry the same state.
   */
  lemma {:induction false} ArrivalOrderIrrelevant(ds: seq<Datagram>, es: seq<Datagram>, total: nat, ipv6: bool, f: nat, g: nat)
    requires Tiles(ds, total, ipv6) && OneDatagram(ds) && multiset(ds) == multiset(es)
    ensures Tiles(es, total, ipv6) && OneDatagram(es)
    ensures var s, t := OfferUpTo(NewSet(ds[0], f), ds, |ds|), OfferUpTo(NewSet(es[0], g), es, |es|);
            && s.SetReady? && t.SetReady? && s.set_.packets == t.set_.packets
            && Result(s.set_).(ipChecksum := Result(t.set_).ipChecksum) == Result(t.set_)
            && (Result(s.set_) == Result(t.set_) <==>
                  (exists d :: d in ds && d.ipChecksum == ChecksumInvalid) || ds[0].ipChecksum == es[0].ipChecksum)
  {
    hide *;
    MembersPermuted(ds, es);
    TilesPermuted(ds, es, total, ipv6);
    OneDatagramIs(ds);
    OneDatagramPermuted(ds, es);
    OneDatagramIs(es);
    TilingCompletes(ds, total, ipv6, f, |ds|);
    TilingCompletes(es, total, ipv6, g, |es|);
    var s, t := OfferUpTo(NewSet(ds[0], f), ds, |ds|).set_, OfferUpTo(NewSet(es[0], g), es, |es|).set_;
    ProgressIs(s, ds, total, f);
    ProgressIs(t, es, total, g);
    PayloadsEqual(s, t, ds, es, total, ipv6);
    PacketsEqual(ds, es);
    LengthPositive(ds, total, ipv6);
    var i := FirstTile(s, ds, total, ipv6);
    var j := FirstTile(t, es, total, ipv6);
    ZeroTileShared(ds, es, total, ipv6, i, j);
    TemplatesEqual(s.template, t.template, ds, es);
    ResultsEqual(s, t);
  }

  /** One half of a sixteen-byte IPv4 datagram, as a caller of the reassembler could make it. */
  function Half(second: bool, state: ChecksumState): Datagram {
    var packet := PacketId([], if second then 2 else 1, 0);
    Datagram(Scope(0, 0, None, []), 1, 2, 17, false, 20, Some(FragmentInfo(7, if second then 8 else 0, !second)),
             FromPacket([0, 0, 0, 0, 0, 0, 0, 0], packet, 34), state, BaseAddresses)
  }

  lemma {:induction false} HalfFacts(second: bool, state: ChecksumState)
    ensures Tile(Half(second, state), 16, false) && Canonical(Half(second, state).payload)
    ensures PartOf(Half(second, state)).start == (if second then 8 else 0) && |Half(second, state).payload.data| == 8
  {
    hide Tiled, Coalesced;
    FromPacketView([0, 0, 0, 0, 0, 0, 0, 0], PacketId([], if second then 2 else 1, 0), 34);
  }

  /**
   Made by hand, with an unchecked and a valid header, two halves show that the datagram can follow
   the arrival order: the halves tile it, both orders complete, and the results differ.
   */
  lemma {:induction false} ChecksumFollowsArrival()
    ensures var ds, es := [Half(false, ChecksumUnchecked), Half(true, ChecksumValid)], [Half(true, ChecksumValid), Half(false, ChecksumUnchecked)];
            && Tiles(ds, 16, false) && OneDatagram(ds) && multiset(ds) == multiset(es) && AllFragments(es)
            && OfferUpTo(NewSet(ds[0], 1), ds, 2).SetReady? && OfferUpTo(NewSet(es[0], 1), es, 2).SetReady?
            && Result(OfferUpTo(NewSet(ds[0], 1), ds, 2).set_) != Result(OfferUpTo(NewSet(es[0], 1), es, 2).set_)
  {
    var a, b := Half(false, ChecksumUnchecked), Half(true, ChecksumValid);
    var ds, es := [a, b], [b, a];
    HalvesTile();
    assert multiset(ds) == multiset{a, b} && multiset(es) == multiset{a, b};
    hide Tiles, OneDatagram, OfferUpTo, NewSet, Result;
    ArrivalOrderIrrelevant(ds, es, 16, false, 1, 1);
    OneDatagramIs(es);
    assert forall d :: d in ds ==> d.ipChecksum != ChecksumInvalid;
  }

  lemma {:induction false} HalvesTile()
    ensures var ds := [Half(false, ChecksumUnchecked), Half(true, ChecksumValid)];
            Tiles(ds, 16, false) && OneDatagram(ds)
  {
    hide Tile, Canonical;
    var ds := [Half(false, ChecksumUnchecked), Half(true, ChecksumValid)];
    HalfFacts(false, ChecksumUnchecked);
    HalfFacts(true, ChecksumValid);
    assert AllFragments(ds);
    assert LengthTo(ds, 1) == 8;
    assert LengthTo(ds, 2) == 16;
  }

  /** What the decoders record: IPv4 headers are checked, IPv6 headers have no checksum. */
  ghost predicate DecodedChecksum(d: Datagram) {
    if d.ipv6 then d.ipChecksum == ChecksumAbsent else d.ipChecksum == ChecksumValid || d.ipChecksum == ChecksumInvalid
  }

  /** So decoded fragments that tile a datagram give the identical datagram in every arrival order. */
  lemma {:induction false} DecodedOrderIrrelevant(ds: seq<Datagram>, es: seq<Datagram>, total: nat, ipv6: bool, f: nat, g: nat)
    requires Tiles(ds, total, ipv6) && OneDatagram(ds) && multiset(ds) == multiset(es)
    requires forall i | 0 <= i < |ds| :: DecodedChecksum(ds[i])
    ensures Tiles(es, total, ipv6) && OneDatagram(es)
    ensures var s, t := OfferUpTo(NewSet(ds[0], f), ds, |ds|), OfferUpTo(NewSet(es[0], g), es, |es|);
            s.SetReady? && t.SetReady? && s.set_.packets == t.set_.packets && Result(s.set_) == Result(t.set_)
  {
    hide Tiles, OfferUpTo, NewSet, Result, SameMembers;
    ArrivalOrderIrrelevant(ds, es, total, ipv6, f, g);
    MembersPermuted(ds, es);
    FirstsAgree(ds, es);
  }

  lemma {:induction false} FirstsAgree(ds: seq<Datagram>, es: seq<Datagram>)
    requires OneDatagram(ds) && OneDatagram(es) && SameMembers(ds, es) && forall i | 0 <= i < |ds| :: DecodedChecksum(ds[i])
    ensures (exists d :: d in ds && d.ipChecksum == ChecksumInvalid) || ds[0].ipChecksum == es[0].ipChecksum
  {
    hide Canonical;
    assert es[0] in ds && ds[0] in ds;
    var m :| 0 <= m < |ds| && ds[m] == es[0];
    assert SameFlow(ds[m], ds[0]);
  }

  lemma {:induction false} OneDatagramIs(ds: seq<Datagram>)
    requires OneDatagram(ds)
    ensures AllFragments(ds) && 0 < |ds|
  {
    hide Canonical;
  }

  lemma {:induction false} ProgressIs(s: FragmentSet, ds: seq<Datagram>, total: nat, frame: nat)
    requires AllFragments(ds) && 0 < |ds| && Progress(s, ds, |ds|, total, frame)
    ensures Collected(s, ds, |ds|, total) && TemplateOf(s.template, ds, |ds|) && s.packets == PacketsOfAll(ds, |ds|)
  {
    hide Collected, TemplateOf;
  }

  lemma {:induction false} LengthPositive(ds: seq<Datagram>, total: nat, ipv6: bool)
    requires Tiles(ds, total, ipv6) && 0 < |ds|
    ensures 0 < total
  {
    LengthBelow(ds, total, ipv6, 0, |ds|);
  }

  /** Only one tile can stand at offset zero. */
  lemma {:induction false} ZeroTileShared(ds: seq<Datagram>, es: seq<Datagram>, total: nat, ipv6: bool, i: nat, j: nat)
    requires Tiles(ds, total, ipv6) && Tiles(es, total, ipv6) && SameMembers(ds, es) && i < |ds| && j < |es|
    requires ds[i].fragment.value.offset == 0 && es[j].fragment.value.offset == 0
    ensures ds[i] == es[j]
  {
    hide LengthTo;
    assert es[j] in ds;
    var m :| 0 <= m < |ds| && ds[m] == es[j];
    TileIs(ds, total, ipv6, m);
    TileIs(ds, total, ipv6, i);
    TileFacts(ds[m], total, ipv6);
    TileFacts(ds[i], total, ipv6);
    OneTileAt(ds, total, ipv6, m, i, 0);
  }

  lemma {:induction false} TemplatesEqual(s: Datagram, t: Datagram, ds: seq<Datagram>, es: seq<Datagram>)
    requires 0 < |ds| && 0 < |es| && OneDatagram(ds) && SameMembers(ds, es)
    requires TemplateOf(s, ds, |ds|) && TemplateOf(t, es, |es|)
    ensures s.scope == t.scope && s.source == t.source && s.destination == t.destination && s.ipv6 == t.ipv6
    ensures s.context == t.context
    ensures s.ipChecksum == t.ipChecksum <==>
              (exists d :: d in ds && d.ipChecksum == ChecksumInvalid) || ds[0].ipChecksum == es[0].ipChecksum
  {
    hide Canonical;
    assert es[0] in ds;
    var m :| 0 <= m < |ds| && ds[m] == es[0];
    assert SameFlow(ds[m], ds[0]);
    FlagShared(ds, es);
    FlagShared(es, ds);
    if exists d :: d in ds && d.ipChecksum == ChecksumInvalid {
      var d :| d in ds && d.ipChecksum == ChecksumInvalid;
      var n :| 0 <= n < |ds| && ds[n] == d;
    }
  }

  lemma {:induction false} FlagShared(ds: seq<Datagram>, es: seq<Datagram>)
    requires SameMembers(ds, es)
    ensures (exists i | 0 <= i < |ds| :: ds[i].ipChecksum == ChecksumInvalid) ==> exists i | 0 <= i < |es| :: es[i].ipChecksum == ChecksumInvalid
    ensures (exists i | 0 <= i < |ds| :: ds[i].context == Unsupported) ==> exists i | 0 <= i < |es| :: es[i].context == Unsupported
  {
    if i :| 0 <= i < |ds| && ds[i].ipChecksum == ChecksumInvalid {
      assert ds[i] in es;
    }
    if i :| 0 <= i < |ds| && ds[i].context == Unsupported {
      assert ds[i] in es;
    }
  }

  lemma {:induction false} ResultsEqual(s: FragmentSet, t: FragmentSet)
    requires Joined(s.parts, |s.parts|) == Joined(t.parts, |t.parts|)
    requires s.template.scope == t.template.scope && s.template.source == t.template.source
    requires s.template.destination == t.template.destination && s.template.ipv6 == t.template.ipv6
    requires s.template.context == t.template.context
    requires s.template.protocol == t.template.protocol && s.template.headerLength == t.template.headerLength
    ensures Result(s).(ipChecksum := Result(t).ipChecksum) == Result(t)
    ensures Result(s) == Result(t) <==> s.template.ipChecksum == t.template.ipChecksum
  {
    hide Joined;
  }

  // ---------------------------------------------------------------- permutations

  lemma {:induction false} MembersPermuted(ds: seq<Datagram>, es: seq<Datagram>)
    requires multiset(ds) == multiset(es)
    ensures SameMembers(ds, es) && |ds| == |es|
  {
    assert |multiset(ds)| == |ds| && |multiset(es)| == |es|;
    forall d ensures d in ds <==> d in es {
      assert d in ds <==> d in multiset(ds);
      assert d in es <==> d in multiset(es);
    }
  }

  lemma {:induction false} OneDatagramPermuted(ds: seq<Datagram>, es: seq<Datagram>)
    requires OneDatagram(ds) && SameMembers(ds, es) && |ds| == |es|
    ensures OneDatagram(es)
  {
    hide Canonical, KeyFor;
    forall i | 0 <= i < |es| ensures Canonical(es[i].payload) && SameFlow(es[i], ds[0]) {
      assert es[i] in ds;
    }
    assert es[0] in ds;
  }

  lemma {:induction false} LengthWithout(ds: seq<Datagram>, j: nat, k: nat)
    requires j < k <= |ds| && |Without(ds, j)| == |ds| - 1
    ensures LengthTo(ds, k) == LengthTo(Without(ds, j), k - 1) + |ds[j].payload.data|
  {
    hide Without;
    var rest := Without(ds, j);
    if k == j + 1 {
      forall i | 0 <= i < j ensures ds[i] == rest[i] {
        WithoutAt(ds, j, i);
      }
      LengthAlike(ds, rest, j);
    } else {
      LengthWithout(ds, j, k - 1);
      WithoutAt(ds, j, k - 2);
    }
  }

  lemma {:induction false} LengthAlike(ds: seq<Datagram>, es: seq<Datagram>, k: nat)
    requires k <= |ds| && k <= |es| && forall i | 0 <= i < k :: ds[i] == es[i]
    ensures LengthTo(ds, k) == LengthTo(es, k)
  {
    if k > 0 {
      LengthAlike(ds, es, k - 1);
    }
  }

  lemma {:induction false} LengthPermuted(ds: seq<Datagram>, es: seq<Datagram>)
    requires multiset(ds) == multiset(es)
    ensures |ds| == |es| && LengthTo(ds, |ds|) == LengthTo(es, |es|)
    decreases |ds|
  {
    hide Without, LengthTo;
    SameLength(ds, es);
    if ds == [] {
      LengthNone(ds);
      LengthNone(es);
    } else {
      var n := |ds| - 1;
      var j := Place(ds, es, n);
      WithoutBoth(ds, n, es, j);
      WithoutSize(ds, n);
      WithoutSize(es, j);
      LengthWithout(es, j, |es|);
      LengthWithout(ds, n, |ds|);
      LengthPermuted(Without(ds, n), Without(es, j));
    }
  }

  lemma {:induction false} WithoutSize(ds: seq<Datagram>, j: int)
    requires 0 <= j < |ds|
    ensures |Without(ds, j)| == |ds| - 1
  {
  }

  lemma {:induction false} TilesPermuted(ds: seq<Datagram>, es: seq<Datagram>, total: nat, ipv6: bool)
    requires Tiles(ds, total, ipv6) && multiset(ds) == multiset(es)
    ensures Tiles(es, total, ipv6)
  {
    hide Overlap, LengthTo, Tile;
    MembersPermuted(ds, es);
    LengthPermuted(ds, es);
    forall i | 0 <= i < |es| ensures es[i].fragment.Some? && Tile(es[i], total, ipv6) {
      assert es[i] in ds;
    }
    forall i, j | 0 <= i < |es| && 0 <= j < |es| && i != j ensures !Overlap(PartOf(es[i]), PartOf(es[j])) {
      var a, b := TwoPlaces(es, ds, Min(i, j), Max(i, j));
    }
  }
}
