/** Fragments that tile a datagram complete it in every arrival order, with the same payload. */
module FragmentOrder {
  import opened Common
  import opened Provenance
  import opened FragmentSets
  import opened FragmentParts
  import opened FragmentSafety

  ghost predicate AllFragments(ds: seq<Datagram>) {
    forall i | 0 <= i < |ds| :: ds[i].fragment.Some?
  }

  function PartOf(d: Datagram): Part
    requires d.fragment.Some?
  {
    Part(d.fragment.value.offset, d.fragment.value.more, d.payload)
  }

  /** Offer the first k fragments to a set, one after the other. */
  function OfferUpTo(s: FragmentSet, ds: seq<Datagram>, k: nat): SetStep
    requires AllFragments(ds) && k <= |ds|
  {
    if k == 0 then SetPending(s)
    else match OfferUpTo(s, ds, k - 1)
      case SetPending(t) => Offer(t, ds[k - 1], ds[k - 1].fragment.value, t.packets + Packets(ds[k - 1].payload))
      case SetRejected(t, code) => SetRejected(t, code)
      case SetReady(t) => SetReady(t)
  }

  function LengthTo(ds: seq<Datagram>, k: nat): nat
    requires k <= |ds|
  {
    if k == 0 then 0 else LengthTo(ds, k - 1) + |ds[k - 1].payload.data|
  }

  ghost predicate Tile(d: Datagram, total: nat, ipv6: bool) {
    && d.fragment.Some? && d.ipv6 == ipv6 && PartOk(PartOf(d))
    && PartOf(d).End() <= total && (PartOf(d).more <==> PartOf(d).End() < total)
    && (PartOf(d).start == 0 ==> total + Overhead(d, ipv6) <= MAX_DATAGRAM)
  }

  /** Pairwise disjoint fragments that together make up a datagram of the given length. */
  ghost predicate Tiles(ds: seq<Datagram>, total: nat, ipv6: bool) {
    && AllFragments(ds)
    && total <= MAX_DATAGRAM
    && (forall i | 0 <= i < |ds| :: Tile(ds[i], total, ipv6))
    && (forall i, j | 0 <= i < |ds| && 0 <= j < |ds| && i != j :: !Overlap(PartOf(ds[i]), PartOf(ds[j])))
    && LengthTo(ds, |ds|) == total
  }

  // ---------------------------------------------------------------- disjoint parts

  ghost predicate AllDisjoint(parts: seq<Part>) {
    forall i, j | 0 <= i < j < |parts| :: !Overlap(parts[i], parts[j])
  }

  function PartsLengthTo(parts: seq<Part>, k: nat): nat
    requires k <= |parts|
  {
    if k == 0 then 0 else PartsLengthTo(parts, k - 1) + |parts[k - 1].bytes.data|
  }

  lemma {:induction false} LengthPrefix(parts: seq<Part>, k: nat)
    requires k <= |parts|
    ensures PartsLengthTo(parts, k) == PartsLength(parts[..k])
  {
    if k > 0 {
      LengthPrefix(parts, k - 1);
      assert parts[..k][..k - 1] == parts[..k - 1];
    }
  }

  lemma {:induction false} ReachAtMostLength(parts: seq<Part>, k: nat)
    requires k <= |parts| && Contiguous(parts, k)
    ensures Reach(parts, k) <= PartsLengthTo(parts, k)
  {
    if k > 0 {
      ReachAtMostLength(parts, k - 1);
      assert parts[k - 1].start <= Reach(parts, k - 1);
    }
  }

  /** Sorted disjoint parts start no earlier than the bytes before them. */
  lemma {:induction false} StartsAfter(parts: seq<Part>, k: nat)
    requires k < |parts| && SortedParts(parts) && AllDisjoint(parts)
    requires forall i | 0 <= i < |parts| :: parts[i].start < parts[i].End()
    ensures PartsLengthTo(parts, k) <= parts[k].start
  {
    if k > 0 {
      StartsAfter(parts, k - 1);
      assert !Overlap(parts[k - 1], parts[k]);
      assert parts[k - 1].start <= parts[k].start;
    }
  }

  /** If they also fill the total exactly, no part leaves a hole. */
  lemma {:induction false} StartsExactly(parts: seq<Part>, k: nat, total: nat)
    requires k < |parts| && SortedParts(parts) && AllDisjoint(parts)
    requires EndsBy(parts, total) && PartsLengthTo(parts, |parts|) == total
    ensures parts[k].start == PartsLengthTo(parts, k)
  {
    StartsAfter(parts, k);
    RoomBehind(parts, k, total);
  }

  lemma {:induction false} RoomBehind(parts: seq<Part>, k: nat, total: nat)
    requires k < |parts| && SortedParts(parts) && AllDisjoint(parts) && EndsBy(parts, total)
    ensures parts[k].start + (PartsLengthTo(parts, |parts|) - PartsLengthTo(parts, k)) <= total
    decreases |parts| - k
  {
    if k + 1 < |parts| {
      RoomBehind(parts, k + 1, total);
      assert !Overlap(parts[k], parts[k + 1]);
      assert parts[k].start <= parts[k + 1].start;
      assert PartsLengthTo(parts, k + 1) == PartsLengthTo(parts, k) + |parts[k].bytes.data|;
    }
  }

  lemma {:induction false} ReachExactly(parts: seq<Part>, k: nat, total: nat)
    requires k <= |parts| && SortedParts(parts) && AllDisjoint(parts)
    requires EndsBy(parts, total) && PartsLengthTo(parts, |parts|) == total
    ensures Contiguous(parts, k) && Reach(parts, k) == PartsLengthTo(parts, k)
  {
    hide SortedParts, AllDisjoint, EndsBy, Contiguous, Reach, PartsLengthTo;
    if k == 0 {
      NoneReached(parts);
    } else {
      ReachExactly(parts, k - 1, total);
      StartsExactly(parts, k - 1, total);
      ReachStep(parts, k);
    }
  }

  lemma {:induction false} NoneReached(parts: seq<Part>)
    ensures Contiguous(parts, 0) && Reach(parts, 0) == PartsLengthTo(parts, 0)
  {
  }

  lemma {:induction false} ReachStep(parts: seq<Part>, k: nat)
    requires 0 < k <= |parts| && Contiguous(parts, k - 1) && parts[k - 1].start == Reach(parts, k - 1) == PartsLengthTo(parts, k - 1)
    ensures Contiguous(parts, k) && Reach(parts, k) == PartsLengthTo(parts, k)
  {
    forall i | 0 <= i < k ensures parts[i].start <= Reach(parts, i) {
    }
  }

  /** Disjoint parts cover the datagram exactly when their lengths add up to it. */
  lemma {:induction false} CoveredByLength(parts: seq<Part>, total: nat)
    requires SortedParts(parts) && AllDisjoint(parts) && EndsBy(parts, total) && PartsLength(parts) <= total
    ensures Cursor(parts, 0, 0) == total <==> PartsLength(parts) == total
  {
    LengthPrefix(parts, |parts|);
    assert parts[..|parts|] == parts;
    CursorCovers(parts, 0, total);
    if PartsLength(parts) == total {
      ReachExactly(parts, |parts|, total);
    } else if Contiguous(parts, |parts|) {
      ReachAtMostLength(parts, |parts|);
    }
  }

  // ---------------------------------------------------------------- collecting tiles

  ghost predicate Collected(t: FragmentSet, ds: seq<Datagram>, k: nat, total: nat)
    requires AllFragments(ds) && k <= |ds|
  {
    && !t.poisoned && SortedParts(t.parts) && AllDisjoint(t.parts) && PartsOk(t.parts)
    && (forall p | p in t.parts :: exists i | 0 <= i < k :: p == PartOf(ds[i]))
    && (forall i | 0 <= i < k :: PartOf(ds[i]) in t.parts)
    && PartsLength(t.parts) == LengthTo(ds, k)
    && (t.end.Some? ==> t.end.value == total)
    && (t.end.None? ==> forall i | 0 <= i < k :: PartOf(ds[i]).more)
    && OffsetZeroOwns(t, ds, k)
  }

  /** Protocol and header length are those of the offset-zero fragment, once it has arrived. */
  ghost predicate OffsetZeroOwns(t: FragmentSet, ds: seq<Datagram>, k: nat)
    requires AllFragments(ds) && k <= |ds|
  {
    forall i | 0 <= i < k && ds[i].fragment.value.offset == 0 ::
      t.template.protocol == ds[i].protocol && t.template.headerLength == ds[i].headerLength
  }

  lemma {:induction false} NoOverlapVerdict(parts: seq<Part>, p: Part, ipv6: bool, k: nat)
    requires k <= |parts| && forall i | 0 <= i < k :: !Overlap(parts[i], p)
    ensures OverlapVerdict(parts, p, ipv6, k, None) == None
  {
    if k > 0 {
      NoOverlapVerdict(parts, p, ipv6, k - 1);
    }
  }

  /** The next tile overlaps nothing collected so far. */
  lemma {:induction false} NextDisjoint(t: FragmentSet, ds: seq<Datagram>, k: nat, total: nat, ipv6: bool, j: int)
    requires Tiles(ds, total, ipv6) && k < |ds| && Collected(t, ds, k, total) && 0 <= j < |t.parts|
    ensures !Overlap(t.parts[j], PartOf(ds[k])) && Tile(ds[k], total, ipv6)
    ensures t.parts[j].start < t.parts[j].End() <= total && (t.parts[j].more <==> t.parts[j].End() < total)
  {
    hide Overlap, PartOk;
    var p := t.parts[j];
    assert p in t.parts;
    var i :| 0 <= i < k && p == PartOf(ds[i]);
    assert Tile(ds[i], total, ipv6);
    PartBounds(p);
  }

  lemma {:induction false} NextAccepted(t: FragmentSet, ds: seq<Datagram>, k: nat, total: nat, ipv6: bool)
    requires Tiles(ds, total, ipv6) && k < |ds| && Collected(t, ds, k, total)
    ensures Verdict(t, PartOf(ds[k]), ipv6) == None
    ensures EndAfter(t, PartOf(ds[k])).Some? ==> EndAfter(t, PartOf(ds[k])).value == total
  {
    hide Overlap, Collected, OverlapVerdict;
    var p := PartOf(ds[k]);
    assert Tile(ds[k], total, ipv6);
    PartBounds(p);
    forall j | 0 <= j < |t.parts| ensures !Overlap(t.parts[j], p) && !Outside(t.parts[j], total) {
      NextDisjoint(t, ds, k, total, ipv6, j);
    }
    NoOverlapVerdict(t.parts, p, ipv6, |t.parts|);
    EndIs(t, ds, k, total);
  }

  lemma {:induction false} EndIs(t: FragmentSet, ds: seq<Datagram>, k: nat, total: nat)
    requires AllFragments(ds) && k <= |ds| && Collected(t, ds, k, total)
    ensures t.end.Some? ==> t.end.value == total
  {
  }

  /** The set after the next tile, before the coverage check. */
  function After(t: FragmentSet, d: Datagram): FragmentSet
    requires d.fragment.Some?
  {
    t.(packets := t.packets + Packets(d.payload),
       template := TemplateAfter(t.template, d, d.fragment.value.offset),
       end := EndAfter(t, PartOf(d)),
       parts := Insert(t.parts, PartOf(d)))
  }

  lemma {:induction false} AfterCollected(t: FragmentSet, ds: seq<Datagram>, k: nat, total: nat, ipv6: bool)
    requires Tiles(ds, total, ipv6) && k < |ds| && Collected(t, ds, k, total)
    ensures Collected(After(t, ds[k]), ds, k + 1, total)
  {
    hide Overlap, PartOk, Insert, PartsLength, Packets, Tile, OffsetZeroOwns;
    var p, u := PartOf(ds[k]), After(t, ds[k]);
    assert Tile(ds[k], total, ipv6);
    assert PartOk(p) && (p.more <==> p.End() < total) && p.End() <= total by {
      TileFacts(ds[k], total, ipv6);
    }
    InsertSorted(t.parts, p);
    InsertOk(t.parts, p, ipv6);
    InsertLength(t.parts, p);
    InsertDisjoint(t, ds, k, total, ipv6);
    forall x ensures x in u.parts <==> x == p || x in t.parts {
      InsertMember(t.parts, p, x);
    }
    OffsetZeroNext(t, ds, k, total, ipv6);
  }

  lemma {:induction false} TileFacts(d: Datagram, total: nat, ipv6: bool)
    requires Tile(d, total, ipv6)
    ensures d.fragment.Some? && PartOk(PartOf(d)) && PartOf(d).End() <= total && (PartOf(d).more <==> PartOf(d).End() < total)
    ensures d.ipv6 == ipv6 && PartOf(d).start < PartOf(d).End()
  {
    PartBounds(PartOf(d));
  }

  lemma {:induction false} InsertDisjoint(t: FragmentSet, ds: seq<Datagram>, k: nat, total: nat, ipv6: bool)
    requires Tiles(ds, total, ipv6) && k < |ds| && Collected(t, ds, k, total)
    ensures AllDisjoint(Insert(t.parts, PartOf(ds[k])))
  {
    hide Overlap, PartOk, Insert, InsertAt;
    var p, r := PartOf(ds[k]), Insert(t.parts, PartOf(ds[k]));
    InsertIndex(t.parts, p, 0);
    forall i, j | 0 <= i < j < |r| ensures !Overlap(r[i], r[j]) {
      InsertIndex(t.parts, p, i);
      InsertIndex(t.parts, p, j);
      if r[i] == p && r[j] != p {
        NextDisjoint(t, ds, k, total, ipv6, j - 1);
        OverlapSymmetric(r[j], p);
      } else if i == InsertAt(t.parts, p.start) {
        NextDisjoint(t, ds, k, total, ipv6, j - 1);
        OverlapSymmetric(r[j], p);
      } else if j == InsertAt(t.parts, p.start) {
        NextDisjoint(t, ds, k, total, ipv6, i);
      }
    }
  }

  lemma {:induction false} OverlapSymmetric(p: Part, q: Part)
    ensures Overlap(p, q) <==> Overlap(q, p)
  {
  }

  lemma {:induction false} OffsetZeroNext(t: FragmentSet, ds: seq<Datagram>, k: nat, total: nat, ipv6: bool)
    requires Tiles(ds, total, ipv6) && k < |ds| && OffsetZeroOwns(t, ds, k)
    ensures OffsetZeroOwns(After(t, ds[k]), ds, k + 1)
  {
    forall i | 0 <= i < k && ds[i].fragment.value.offset == 0 ensures ds[k].fragment.value.offset != 0 {
      assert Tile(ds[i], total, ipv6) && Tile(ds[k], total, ipv6);
      TileFacts(ds[i], total, ipv6);
      TileFacts(ds[k], total, ipv6);
      assert !Overlap(PartOf(ds[i]), PartOf(ds[k]));
    }
  }
}
