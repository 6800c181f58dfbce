/** Position-level theorems about the sweep: what is a gap, what is a conflict, which bytes are read. */
module StreamTheorems {
  import opened Common
  import opened Boundaries
  import opened Provenance
  import opened StreamSweep

  function ByteAt(s: Segment, p: int): byte
    requires Covers(s, p)
  {
    s.bytes.data[p - s.start]
  }

  /** Two captured segments hold different bytes at p. */
  ghost predicate DisagreeAt(segs: seq<Segment>, p: int) {
    exists i, j | 0 <= i < |segs| && 0 <= j < |segs| ::
      Covers(segs[i], p) && Covers(segs[j], p) && ByteAt(segs[i], p) != ByteAt(segs[j], p)
  }

  ghost predicate CellDisagrees(segs: seq<Segment>, bs: seq<int>, k: nat)
    requires k + 1 < |bs|
  {
    exists p | bs[k] <= p < bs[k + 1] :: DisagreeAt(segs, p)
  }

  lemma {:induction false} RawDiffer(s: Segment, t: Segment, a: int, b: int) returns (p: int)
    requires s.start <= a < b <= s.End() && t.start <= a && b <= t.End()
    requires Raw(s, a, b) != Raw(t, a, b)
    ensures a <= p < b && ByteAt(s, p) != ByteAt(t, p)
  {
    var x, y := Raw(s, a, b), Raw(t, a, b);
    assert |x| == |y| == b - a;
    assert exists q :: 0 <= q < b - a && x[q] != y[q];
    var q :| 0 <= q < b - a && x[q] != y[q];
    p := a + q;
  }

  lemma {:induction false} RawSame(s: Segment, t: Segment, a: int, b: int, p: int)
    requires s.start <= a <= p < b <= s.End() && t.start <= a && b <= t.End()
    requires Raw(s, a, b) == Raw(t, a, b)
    ensures ByteAt(s, p) == ByteAt(t, p)
  {
    assert Raw(s, a, b)[p - a] == s.bytes.data[p - s.start];
    assert Raw(t, a, b)[p - a] == t.bytes.data[p - t.start];
  }

  /** A cell is reported as a conflict exactly when two segments differ somewhere inside it. */
  lemma {:induction false} ConflictMeans(segs: seq<Segment>, policy: OverlapPolicy, bs: seq<int>, k: nat)
    requires Bounded(segs, bs) && k + 1 < |bs|
    ensures CellConflicts(segs, policy, bs[k], bs[k + 1]) <==> CellDisagrees(segs, bs, k)
  {
    var a, b := bs[k], bs[k + 1];
    if CellConflicts(segs, policy, a, b) {
      ConflictWitness(segs, policy, bs, k);
    }
    if CellDisagrees(segs, bs, k) {
      var p :| a <= p < b && DisagreeAt(segs, p);
      var i, j :| 0 <= i < |segs| && 0 <= j < |segs|
        && Covers(segs[i], p) && Covers(segs[j], p) && ByteAt(segs[i], p) != ByteAt(segs[j], p);
      WitnessConflicts(segs, policy, bs, k, i, j, p);
    }
  }

  lemma {:induction false} ConflictWitness(segs: seq<Segment>, policy: OverlapPolicy, bs: seq<int>, k: nat)
    requires Bounded(segs, bs) && k + 1 < |bs| && CellConflicts(segs, policy, bs[k], bs[k + 1])
    ensures CellDisagrees(segs, bs, k)
  {
    hide Raw;
    var a, b := bs[k], bs[k + 1];
    var active := Active(segs, a);
    var chosen := Choose(policy, active);
    var i :| i in active && Raw(segs[i], a, b) != Raw(segs[chosen], a, b);
    CellUniform(segs, bs, k, i, a);
    CellUniform(segs, bs, k, chosen, a);
    var p := RawDiffer(segs[i], segs[chosen], a, b);
    CellUniform(segs, bs, k, i, p);
    CellUniform(segs, bs, k, chosen, p);
    assert DisagreeAt(segs, p);
  }

  lemma {:induction false} WitnessConflicts(segs: seq<Segment>, policy: OverlapPolicy, bs: seq<int>, k: nat, i: int, j: int, p: int)
    requires Bounded(segs, bs) && k + 1 < |bs| && bs[k] <= p < bs[k + 1]
    requires 0 <= i < |segs| && 0 <= j < |segs|
    requires Covers(segs[i], p) && Covers(segs[j], p) && ByteAt(segs[i], p) != ByteAt(segs[j], p)
    ensures CellConflicts(segs, policy, bs[k], bs[k + 1])
  {
    hide Raw, ByteAt;
    var a, b := bs[k], bs[k + 1];
    CellUniform(segs, bs, k, i, p);
    CellUniform(segs, bs, k, j, p);
    var active := Active(segs, a);
    assert i in active && j in active;
    if Raw(segs[i], a, b) == Raw(segs[j], a, b) {
      RawSame(segs[i], segs[j], a, b, p);
    }
    var chosen := Choose(policy, active);
    assert Raw(segs[i], a, b) != Raw(segs[chosen], a, b) || Raw(segs[j], a, b) != Raw(segs[chosen], a, b);
  }

  function ConflictOf(segs: seq<Segment>, bs: seq<int>, m: nat): Conflict
    requires m + 1 < |bs|
  {
    Conflict(bs[m], bs[m + 1], CellPackets(segs, bs[m], bs[m + 1]))
  }

  ghost predicate ConflictCell(segs: seq<Segment>, policy: OverlapPolicy, bs: seq<int>, k: nat, c: Conflict)
    requires k < |bs|
  {
    exists m: nat | m < k :: CellConflicts(segs, policy, bs[m], bs[m + 1]) && c == ConflictOf(segs, bs, m)
  }

  /** The conflict list names exactly the conflicting cells. */
  lemma {:induction false} ConflictsSound(segs: seq<Segment>, policy: OverlapPolicy, bs: seq<int>, k: nat, c: Conflict)
    requires k < |bs|
    ensures c in ConflictsTo(segs, policy, bs, k) <==> ConflictCell(segs, policy, bs, k, c)
  {
    hide CellConflicts, CellPackets;
    if k > 0 {
      ConflictsSound(segs, policy, bs, k - 1, c);
      if ConflictCell(segs, policy, bs, k, c) {
        var m: nat :| m < k && CellConflicts(segs, policy, bs[m], bs[m + 1]) && c == ConflictOf(segs, bs, m);
        assert m < k - 1 ==> ConflictCell(segs, policy, bs, k - 1, c);
      }
    }
  }

  /** A conflict lists exactly the packets whose bytes some segment placed inside it. */
  lemma {:induction false} ConflictPacketsExact(segs: seq<Segment>, bs: seq<int>, k: nat, packet: PacketId)
    requires WellFormed(segs) && Bounded(segs, bs) && k + 1 < |bs|
    ensures packet in CellPackets(segs, bs[k], bs[k + 1])
       <==> exists i, q :: 0 <= i < |segs| && bs[k] <= q < bs[k + 1] && PlacedBy(segs, i, q, packet)
  {
    hide WindowPackets, At, Tiled;
    var a, b := bs[k], bs[k + 1];
    if packet in CellPackets(segs, a, b) {
      var i :| i in Active(segs, a) && packet in SegmentPackets(segs[i], a, b);
      CellUniform(segs, bs, k, i, a);
      var s := segs[i];
      WindowPacketsExact(s.bytes, a - s.start, b - s.start);
      var x :| a - s.start <= x < b - s.start && At(s.bytes, x).origin.packet == packet;
      assert PlacedBy(segs, i, s.start + x, packet);
    }
    if exists i, q :: 0 <= i < |segs| && a <= q < b && PlacedBy(segs, i, q, packet) {
      var i, q :| 0 <= i < |segs| && a <= q < b && PlacedBy(segs, i, q, packet);
      CellUniform(segs, bs, k, i, q);
      var s := segs[i];
      WindowPacketsExact(s.bytes, a - s.start, b - s.start);
      assert packet in SegmentPackets(s, a, b);
    }
  }

  ghost predicate PlacedBy(segs: seq<Segment>, i: int, q: int, packet: PacketId)
    requires WellFormed(segs) && 0 <= i < |segs|
  {
    Covers(segs[i], q) && At(segs[i].bytes, q - segs[i].start).origin.packet == packet
  }

  // ---------------------------------------------------------------- positions

  ghost predicate InConflict(conflicts: seq<Conflict>, p: int) {
    exists c | 0 <= c < |conflicts| :: conflicts[c].start <= p < conflicts[c].end
  }

  /** Cells do not overlap. */
  lemma {:induction false} CellUnique(bs: seq<int>, k: int, m: int, p: int)
    requires Ascending(bs) && CellHolds(bs, k, p) && CellHolds(bs, m, p)
    ensures k == m
  {
  }

  lemma {:induction false} VerdictAt(segs: seq<Segment>, policy: OverlapPolicy, bs: seq<int>, k: nat, p: int, verdict: Cell -> bool)
    requires Ascending(bs) && CellHolds(bs, k, p)
    ensures InCellOf(segs, policy, bs, |bs| - 1, p, verdict) <==> verdict(CellAt(segs, policy, bs[k], bs[k + 1]))
  {
    hide CellAt;
    if InCellOf(segs, policy, bs, |bs| - 1, p, verdict) {
      var m :| 0 <= m < |bs| - 1 && CellHolds(bs, m, p) && verdict(CellAt(segs, policy, bs[m], bs[m + 1]));
      CellUnique(bs, k, m, p);
    }
  }

  lemma {:induction false} ConflictAt(segs: seq<Segment>, policy: OverlapPolicy, bs: seq<int>, k: nat, p: int)
    requires Ascending(bs) && CellHolds(bs, k, p)
    ensures InConflict(ConflictsTo(segs, policy, bs, |bs| - 1), p) <==> CellConflicts(segs, policy, bs[k], bs[k + 1])
  {
    hide CellConflicts, CellPackets;
    var n := |bs| - 1;
    var list := ConflictsTo(segs, policy, bs, n);
    if InConflict(list, p) {
      var c :| 0 <= c < |list| && list[c].start <= p < list[c].end;
      ConflictsSound(segs, policy, bs, n, list[c]);
      var m: nat :| m < n && CellConflicts(segs, policy, bs[m], bs[m + 1]) && list[c] == ConflictOf(segs, bs, m);
      assert CellHolds(bs, m, p);
      CellUnique(bs, k, m, p);
    }
    if CellConflicts(segs, policy, bs[k], bs[k + 1]) {
      ConflictsSound(segs, policy, bs, n, ConflictOf(segs, bs, k));
      var c :| 0 <= c < |list| && list[c] == ConflictOf(segs, bs, k);
    }
  }

  /**
   What the finished sweep says about one position of the span: it is a chunk byte, a missing
   byte or a rejected byte, never two of these; missing means uncovered; a rejected byte lies in a
   conflict and only exists under the rejecting policy; a disagreement always lies in a conflict.
   */
  ghost predicate PositionSettled(segs: seq<Segment>, policy: OverlapPolicy, chunks: seq<Chunk>, gaps: seq<Gap>,
                                  conflicts: seq<Conflict>, p: int)
  {
    && (InChunk(chunks, p) <==> !InGap(gaps, p, MissingBytes) && !InGap(gaps, p, ConflictingBytes))
    && !(InGap(gaps, p, MissingBytes) && InGap(gaps, p, ConflictingBytes))
    && (InGap(gaps, p, MissingBytes) <==> Active(segs, p) == {})
    && (InGap(gaps, p, ConflictingBytes) <==> policy == RejectConflict && InConflict(conflicts, p))
    && (DisagreeAt(segs, p) ==> InConflict(conflicts, p))
  }

  lemma {:induction false} PositionsSettled(segs: seq<Segment>, policy: OverlapPolicy, bs: seq<int>, p: int)
    requires WellFormed(segs) && Bounded(segs, bs) && |bs| >= 2
    requires bs[|bs| - 1] - bs[0] <= USIZE_MAX && bs[0] <= p < bs[|bs| - 1]
    ensures var n := |bs| - 1;
            PositionSettled(segs, policy, ChunksTo(segs, policy, bs, n), GapsTo(segs, policy, bs, n),
                            ConflictsTo(segs, policy, bs, n), p)
  {
    hide ChunksTo, GapsTo, ConflictsTo, InChunk, InGap, InConflict, ChunkOk, InCellOf, WellFormed, DisagreeAt, Active;
    var n := |bs| - 1;
    var k := CellOf(bs, p, n);
    ChunksSound(segs, policy, bs, n);
    GapsSound(segs, policy, bs, n);
    VerdictAt(segs, policy, bs, k, p, IsEmitted);
    VerdictAt(segs, policy, bs, k, p, IsMissing);
    VerdictAt(segs, policy, bs, k, p, IsRejected);
    ConflictAt(segs, policy, bs, k, p);
    ConflictMeans(segs, policy, bs, k);
    ActiveUniform(segs, bs, k, p);
  }
}
