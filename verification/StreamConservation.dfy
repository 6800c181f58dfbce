/** Conservation of retained bytes, and independence of arrival order under the rejecting policy. */
module StreamConservation {
  import opened Common
  import opened Boundaries
  import opened Provenance
  import opened StreamSweep
  import opened StreamTheorems

  function TotalBytes(segs: seq<Segment>): nat {
    if segs == [] then 0 else TotalBytes(segs[..|segs| - 1]) + |segs[|segs| - 1].bytes.data|
  }

  function ChunkBytes(chunks: seq<Chunk>): nat {
    if chunks == [] then 0 else ChunkBytes(chunks[..|chunks| - 1]) + |chunks[|chunks| - 1].bytes.data|
  }

  /** Covered byte positions of the first k cells, counted once per covering segment. */
  ghost function CoverTo(segs: seq<Segment>, bs: seq<int>, k: nat): int
    requires k < |bs|
  {
    if k == 0 then 0
    else CoverTo(segs, bs, k - 1) + CoverBytes(segs, bs[k - 1], bs[k])
  }

  ghost function CoverBytes(segs: seq<Segment>, a: int, b: int): int {
    Scaled(|Active(segs, a)|, b - a)
  }

  ghost function OverlapTo(s: Segment, bs: seq<int>, k: nat): int
    requires k < |bs|
  {
    if k == 0 then 0
    else OverlapTo(s, bs, k - 1) + if Covers(s, bs[k - 1]) then bs[k] - bs[k - 1] else 0
  }

  lemma {:induction false} ActiveSnoc(segs: seq<Segment>, p: int)
    requires segs != []
    ensures var init, last := segs[..|segs| - 1], segs[|segs| - 1];
            |Active(segs, p)| == |Active(init, p)| + if Covers(last, p) then 1 else 0
  {
    var init, last := segs[..|segs| - 1], segs[|segs| - 1];
    var n := |init|;
    assert n !in Active(init, p);
    if Covers(last, p) {
      assert Active(segs, p) == Active(init, p) + {n};
    } else {
      assert Active(segs, p) == Active(init, p);
    }
  }

  lemma {:induction false} CoverSnoc(segs: seq<Segment>, bs: seq<int>, k: nat)
    requires segs != [] && k < |bs|
    ensures CoverTo(segs, bs, k) == CoverTo(segs[..|segs| - 1], bs, k) + OverlapTo(segs[|segs| - 1], bs, k)
  {
    if k > 0 {
      hide Active, Covers, Scaled;
      CoverSnoc(segs, bs, k - 1);
      ActiveSnoc(segs, bs[k - 1]);
      OneMore(|Active(segs[..|segs| - 1], bs[k - 1])|, bs[k] - bs[k - 1]);
    }
  }

  function Clamp(s: Segment, x: int): int {
    Max(s.start, Min(x, s.End()))
  }

  lemma {:induction false} OverlapTelescopes(s: Segment, bs: seq<int>, k: nat)
    requires Ascending(bs) && k < |bs| && s.start in bs && s.End() in bs
    ensures OverlapTo(s, bs, k) == Clamp(s, bs[k]) - Clamp(s, bs[0])
  {
    if k > 0 {
      OverlapTelescopes(s, bs, k - 1);
      NoBoundaryInside(bs, k - 1, s.start);
      NoBoundaryInside(bs, k - 1, s.End());
    }
  }

  /** Summed over all cells, the covering segments account for every retained byte exactly once. */
  lemma {:induction false} CoverCountsBytes(segs: seq<Segment>, bs: seq<int>)
    requires Bounded(segs, bs) && |bs| > 0
    ensures CoverTo(segs, bs, |bs| - 1) == TotalBytes(segs)
  {
    hide CoverTo, OverlapTo, Covers;
    var n := |bs| - 1;
    if segs == [] {
      NothingCovered(bs, n);
    } else {
      var init, last := segs[..|segs| - 1], segs[|segs| - 1];
      CoverCountsBytes(init, bs);
      CoverSnoc(segs, bs, n);
      OverlapTelescopes(last, bs, n);
      WithinEnds(bs, last.start);
      WithinEnds(bs, last.End());
    }
  }

  lemma {:induction false} WithinEnds(bs: seq<int>, x: int)
    requires Ascending(bs) && x in bs
    ensures |bs| > 0 && bs[0] <= x <= bs[|bs| - 1]
  {
    var j :| 0 <= j < |bs| && bs[j] == x;
  }

  lemma {:induction false} NothingCovered(bs: seq<int>, k: nat)
    requires k < |bs|
    ensures CoverTo([], bs, k) == 0
  {
    if k > 0 {
      NothingCovered(bs, k - 1);
      assert Active([], bs[k - 1]) == {};
    }
  }

  /** Without a conflict every covering segment but the chosen one is an echo. */
  lemma {:induction false} EchoesCount(segs: seq<Segment>, policy: OverlapPolicy, a: int, b: int)
    requires !CellConflicts(segs, policy, a, b)
    ensures |Active(segs, a)| == |Echoes(segs, policy, a, b)| + if Active(segs, a) == {} then 0 else 1
  {
    var active := Active(segs, a);
    if active != {} {
      var chosen := Choose(policy, active);
      assert !Disagree(segs, active, chosen, a, b);
      assert Echoes(segs, policy, a, b) == active - {chosen};
    }
  }

  lemma {:induction false} EmitBytes(chunks: seq<Chunk>, a: int, e: Evidence)
    ensures ChunkBytes(Emit(chunks, a, e)) == ChunkBytes(chunks) + |e.data|
  {
    var r := Emit(chunks, a, e);
    var n := |chunks|;
    if chunks != [] && chunks[n - 1].End() == a {
      assert r[..|r| - 1] == chunks[..n - 1];
    } else {
      assert r[..|r| - 1] == chunks;
    }
  }

  ghost predicate NoConflictTo(segs: seq<Segment>, policy: OverlapPolicy, bs: seq<int>, k: nat)
    requires k < |bs|
  {
    forall m | 0 <= m < k :: !CellConflicts(segs, policy, bs[m], bs[m + 1])
  }

  lemma {:induction false} NoConflicts(segs: seq<Segment>, policy: OverlapPolicy, bs: seq<int>, k: nat)
    requires k < |bs|
    ensures ConflictsTo(segs, policy, bs, k) == [] <==> NoConflictTo(segs, policy, bs, k)
  {
    hide CellConflicts, CellPackets;
    if k > 0 {
      NoConflicts(segs, policy, bs, k - 1);
      assert NoConflictTo(segs, policy, bs, k) ==> !CellConflicts(segs, policy, bs[k - 1], bs[k - 1 + 1]);
    }
  }

  ghost function EmittedBytes(segs: seq<Segment>, policy: OverlapPolicy, a: int, b: int): int {
    if CellAt(segs, policy, a, b).Emitted? then b - a else 0
  }

  lemma {:induction false} CellSplits(segs: seq<Segment>, policy: OverlapPolicy, bs: seq<int>, k: nat)
    requires k + 1 < |bs| && !CellConflicts(segs, policy, bs[k], bs[k + 1])
    ensures CoverBytes(segs, bs[k], bs[k + 1])
         == EmittedBytes(segs, policy, bs[k], bs[k + 1]) + EchoBytes(segs, policy, bs[k], bs[k + 1])
  {
    hide Echoes, Active, CellConflicts, Disagree, Choose, CellAt, Scaled;
    var a, b := bs[k], bs[k + 1];
    EchoesCount(segs, policy, a, b);
    NotRejected(segs, policy, a, b);
    MissingMeansEmpty(segs, policy, a, b);
    OneMore(|Echoes(segs, policy, a, b)|, b - a);
  }

  lemma {:induction false} MissingMeansEmpty(segs: seq<Segment>, policy: OverlapPolicy, a: int, b: int)
    ensures CellAt(segs, policy, a, b).Missing? <==> Active(segs, a) == {}
  {
  }

  lemma {:induction false} ChunkBytesStep(segs: seq<Segment>, policy: OverlapPolicy, bs: seq<int>, k: nat)
    requires WellFormed(segs) && Bounded(segs, bs) && 0 < k < |bs|
    ensures ChunkBytes(ChunksTo(segs, policy, bs, k))
         == ChunkBytes(ChunksTo(segs, policy, bs, k - 1)) + EmittedBytes(segs, policy, bs[k - 1], bs[k])
  {
    hide CellAt, ChunkBytes, Emit, Part, PartOk, Active, WellFormed, Bounded;
    CellChosen(segs, policy, bs, k - 1);
    var cell := CellAt(segs, policy, bs[k - 1], bs[k]);
    if cell.Emitted? {
      EmitBytes(ChunksTo(segs, policy, bs, k - 1), bs[k - 1], Part(segs[cell.chosen], bs[k - 1], bs[k]));
    }
  }

  /** Cell by cell, covered bytes split into emitted bytes and echoes. */
  lemma {:induction false} CellsConserve(segs: seq<Segment>, policy: OverlapPolicy, bs: seq<int>, k: nat)
    requires WellFormed(segs) && Bounded(segs, bs) && k < |bs| && NoConflictTo(segs, policy, bs, k)
    ensures CoverTo(segs, bs, k)
         == ChunkBytes(ChunksTo(segs, policy, bs, k)) + DuplicatesTo(segs, policy, bs, k)
  {
    hide CoverBytes, EchoBytes, CellConflicts, EmittedBytes, WellFormed, Bounded, CellAt;
    if k == 0 {
      assert ChunkBytes([]) == 0;
    } else {
      hide ChunksTo, ChunkBytes;
      CellsConserve(segs, policy, bs, k - 1);
      ChunkBytesStep(segs, policy, bs, k);
      assert !CellConflicts(segs, policy, bs[k - 1], bs[k - 1 + 1]);
      CellSplits(segs, policy, bs, k - 1);
    }
  }

  lemma {:induction false} NotRejected(segs: seq<Segment>, policy: OverlapPolicy, a: int, b: int)
    ensures !CellConflicts(segs, policy, a, b) ==> !CellAt(segs, policy, a, b).Rejected?
    ensures policy == RejectConflict && CellAt(segs, policy, a, b).Emitted? ==> !CellConflicts(segs, policy, a, b)
  {
  }

  /** With no conflict, retained bytes are exactly the chunk bytes plus the observed duplicates. */
  lemma {:induction false} RetainedConserved(segs: seq<Segment>, policy: OverlapPolicy, bs: seq<int>)
    requires WellFormed(segs) && Bounded(segs, bs) && |bs| > 0
    requires ConflictsTo(segs, policy, bs, |bs| - 1) == []
    ensures TotalBytes(segs)
         == ChunkBytes(ChunksTo(segs, policy, bs, |bs| - 1)) + DuplicatesTo(segs, policy, bs, |bs| - 1)
  {
    hide *;
    NoConflicts(segs, policy, bs, |bs| - 1);
    CellsConserve(segs, policy, bs, |bs| - 1);
    CoverCountsBytes(segs, bs);
  }

  // ---------------------------------------------------------------- arrival order

  /** The same segments in another arrival order. */
  ghost predicate Permuted(segs: seq<Segment>, other: seq<Segment>) {
    multiset(segs) == multiset(other)
  }

  lemma {:induction false} PermutedIndex(segs: seq<Segment>, other: seq<Segment>, i: int) returns (j: int)
    requires Permuted(segs, other) && 0 <= i < |segs|
    ensures 0 <= j < |other| && other[j] == segs[i]
  {
    assert segs[i] in multiset(segs);
    assert segs[i] in other;
    j :| 0 <= j < |other| && other[j] == segs[i];
  }

  lemma {:induction false} PermutedShape(segs: seq<Segment>, other: seq<Segment>, bs: seq<int>)
    requires Permuted(segs, other)
    ensures WellFormed(segs) ==> WellFormed(other)
    ensures Bounded(segs, bs) ==> Bounded(other, bs)
  {
    hide Tiled;
    forall j | 0 <= j < |other| ensures other[j] in segs {
      var i := PermutedIndex(other, segs, j);
    }
  }

  lemma {:induction false} PermutedActive(segs: seq<Segment>, other: seq<Segment>, p: int)
    requires Permuted(segs, other) && Active(segs, p) != {}
    ensures Active(other, p) != {}
  {
    var i := Choose(FirstObserved, Active(segs, p));
    var j := PermutedIndex(segs, other, i);
    assert j in Active(other, p);
  }

  lemma {:induction false} PermutedDisagree(segs: seq<Segment>, other: seq<Segment>, p: int)
    requires Permuted(segs, other) && DisagreeAt(segs, p)
    ensures DisagreeAt(other, p)
  {
    var i, j :| 0 <= i < |segs| && 0 <= j < |segs|
      && Covers(segs[i], p) && Covers(segs[j], p) && ByteAt(segs[i], p) != ByteAt(segs[j], p);
    var x := PermutedIndex(segs, other, i);
    var y := PermutedIndex(segs, other, j);
    assert Covers(other[x], p) && Covers(other[y], p) && ByteAt(other[x], p) != ByteAt(other[y], p);
  }

  lemma {:induction false} PermutedConflict(segs: seq<Segment>, other: seq<Segment>, policy: OverlapPolicy, bs: seq<int>, k: nat)
    requires Permuted(segs, other) && Bounded(segs, bs) && Bounded(other, bs) && k + 1 < |bs|
    requires CellConflicts(segs, policy, bs[k], bs[k + 1])
    ensures CellConflicts(other, policy, bs[k], bs[k + 1])
  {
    hide CellConflicts, DisagreeAt, Permuted, Bounded;
    ConflictMeans(segs, policy, bs, k);
    ConflictMeans(other, policy, bs, k);
    var p :| bs[k] <= p < bs[k + 1] && DisagreeAt(segs, p);
    PermutedDisagree(segs, other, p);
  }

  lemma {:induction false} PermutedPackets(segs: seq<Segment>, other: seq<Segment>, a: int, b: int)
    requires Permuted(segs, other)
    ensures CellPackets(segs, a, b) <= CellPackets(other, a, b)
  {
    hide SegmentPackets, Permuted;
    forall packet | packet in CellPackets(segs, a, b) ensures packet in CellPackets(other, a, b) {
      var i :| i in Active(segs, a) && packet in SegmentPackets(segs[i], a, b);
      var j := PermutedIndex(segs, other, i);
      assert j in Active(other, a) && packet in SegmentPackets(other[j], a, b);
    }
  }

  /** In a cell without conflict the emitted bytes do not depend on which segment is chosen. */
  lemma {:induction false} PermutedPart(segs: seq<Segment>, other: seq<Segment>, policy: OverlapPolicy, a: int, b: int)
    requires Permuted(segs, other) && !CellConflicts(segs, policy, a, b)
    requires Active(segs, a) != {} && Active(other, a) != {}
    ensures Part(segs[Choose(policy, Active(segs, a))], a, b).data == Part(other[Choose(policy, Active(other, a))], a, b).data
  {
    hide Permuted;
    PermutedSymmetric(segs, other);
    var j := Choose(policy, Active(other, a));
    var i := PermutedIndex(other, segs, j);
    assert i in Active(segs, a);
    assert !Disagree(segs, Active(segs, a), Choose(policy, Active(segs, a)), a, b);
    assert Raw(segs[i], a, b) == Raw(segs[Choose(policy, Active(segs, a))], a, b);
  }

  /** Offsets and bytes of the chunks, without their provenance. */
  ghost predicate SameBytes(c: seq<Chunk>, d: seq<Chunk>) {
    |c| == |d| && forall i | 0 <= i < |c| :: c[i].offset == d[i].offset && c[i].bytes.data == d[i].bytes.data
  }

  lemma {:induction false} EmitSameBytes(c: seq<Chunk>, d: seq<Chunk>, a: int, e: Evidence, f: Evidence)
    requires SameBytes(c, d) && e.data == f.data
    ensures SameBytes(Emit(c, a, e), Emit(d, a, f))
  {
  }

  lemma {:induction false} PermutedCell(segs: seq<Segment>, other: seq<Segment>, bs: seq<int>, k: nat)
    requires Permuted(segs, other) && Bounded(segs, bs) && Bounded(other, bs) && k + 1 < |bs|
    ensures var c := CellAt(segs, RejectConflict, bs[k], bs[k + 1]);
            var d := CellAt(other, RejectConflict, bs[k], bs[k + 1]);
            && (c.Missing? <==> d.Missing?) && (c.Rejected? <==> d.Rejected?)
            && (c.Emitted? ==>
                  0 <= c.chosen < |segs| && 0 <= d.chosen < |other|
                  && Part(segs[c.chosen], bs[k], bs[k + 1]).data == Part(other[d.chosen], bs[k], bs[k + 1]).data)
    ensures CellConflicts(segs, RejectConflict, bs[k], bs[k + 1]) <==> CellConflicts(other, RejectConflict, bs[k], bs[k + 1])
    ensures CellPackets(segs, bs[k], bs[k + 1]) == CellPackets(other, bs[k], bs[k + 1])
  {
    hide Permuted, Part, Disagree, CellPackets;
    var a, b := bs[k], bs[k + 1];
    assert Permuted(other, segs) by {
      PermutedSymmetric(segs, other);
    }
    PermutedPackets(segs, other, a, b);
    PermutedPackets(other, segs, a, b);
    if CellConflicts(segs, RejectConflict, a, b) {
      PermutedConflict(segs, other, RejectConflict, bs, k);
    }
    if CellConflicts(other, RejectConflict, a, b) {
      PermutedConflict(other, segs, RejectConflict, bs, k);
    }
    if Active(segs, a) != {} {
      PermutedActive(segs, other, a);
    }
    if Active(other, a) != {} {
      PermutedActive(other, segs, a);
    }
    if Active(segs, a) != {} && !CellConflicts(segs, RejectConflict, a, b) {
      PermutedPart(segs, other, RejectConflict, a, b);
    }
  }

  lemma {:induction false} PermutedSymmetric(segs: seq<Segment>, other: seq<Segment>)
    requires Permuted(segs, other)
    ensures Permuted(other, segs)
  {
  }

  lemma {:induction false} NoChunks(segs: seq<Segment>, other: seq<Segment>, bs: seq<int>)
    requires 0 < |bs|
    ensures SameBytes(ChunksTo(segs, RejectConflict, bs, 0), ChunksTo(other, RejectConflict, bs, 0))
  {
  }

  lemma {:induction false} ChunksPermuted(segs: seq<Segment>, other: seq<Segment>, bs: seq<int>, k: nat)
    requires Permuted(segs, other) && Bounded(segs, bs) && Bounded(other, bs) && k < |bs|
    ensures SameBytes(ChunksTo(segs, RejectConflict, bs, k), ChunksTo(other, RejectConflict, bs, k))
  {
    hide *;
    if k == 0 {
      NoChunks(segs, other, bs);
    } else {
      ChunksPermuted(segs, other, bs, k - 1);
      ChunksStep(segs, RejectConflict, bs, k);
      ChunksStep(other, RejectConflict, bs, k);
      PermutedCell(segs, other, bs, k - 1);
      var c, d := CellAt(segs, RejectConflict, bs[k - 1], bs[k]), CellAt(other, RejectConflict, bs[k - 1], bs[k]);
      if c.Emitted? {
        EmitSameBytes(ChunksTo(segs, RejectConflict, bs, k - 1), ChunksTo(other, RejectConflict, bs, k - 1), bs[k - 1],
                      Part(segs[c.chosen], bs[k - 1], bs[k]), Part(other[d.chosen], bs[k - 1], bs[k]));
      }
    }
  }

  /** Rejecting conflicts, the arrival order of the segments changes nothing but provenance. */
  lemma {:induction false} OrderIrrelevant(segs: seq<Segment>, other: seq<Segment>, bs: seq<int>, k: nat)
    requires Permuted(segs, other) && Bounded(segs, bs) && Bounded(other, bs) && k < |bs|
    ensures SameBytes(ChunksTo(segs, RejectConflict, bs, k), ChunksTo(other, RejectConflict, bs, k))
    ensures GapsTo(segs, RejectConflict, bs, k) == GapsTo(other, RejectConflict, bs, k)
    ensures ConflictsTo(segs, RejectConflict, bs, k) == ConflictsTo(other, RejectConflict, bs, k)
  {
    hide Permuted, Bounded, CellAt, CellConflicts, CellPackets, Part, ChunksTo, SameBytes;
    ChunksPermuted(segs, other, bs, k);
    if k > 0 {
      OrderIrrelevant(segs, other, bs, k - 1);
      PermutedCell(segs, other, bs, k - 1);
    }
  }

  lemma {:induction false} TotalWithout(segs: seq<Segment>, j: int)
    requires 0 <= j < |segs|
    ensures TotalBytes(segs) == TotalBytes(segs[..j] + segs[j + 1..]) + |segs[j].bytes.data|
  {
    var rest := segs[..j] + segs[j + 1..];
    if j == |segs| - 1 {
      assert rest == segs[..j];
    } else {
      var init := segs[..|segs| - 1];
      TotalWithout(init, j);
      assert rest[..|rest| - 1] == init[..j] + init[j + 1..];
    }
  }

  lemma {:induction false} TotalPermuted(segs: seq<Segment>, other: seq<Segment>)
    requires Permuted(segs, other)
    ensures TotalBytes(segs) == TotalBytes(other)
  {
    assert |multiset(segs)| == |segs| && |multiset(other)| == |other|;
    if segs != [] {
      var init, last := segs[..|segs| - 1], segs[|segs| - 1];
      assert segs == init + [last];
      var j := PermutedIndex(segs, other, |segs| - 1);
      var rest := other[..j] + other[j + 1..];
      assert other == other[..j] + [other[j]] + other[j + 1..];
      assert multiset(other) == multiset(rest) + multiset{last};
      assert multiset(segs) == multiset(init) + multiset{last};
      assert multiset(init) == multiset(segs) - multiset{last};
      assert multiset(rest) == multiset(other) - multiset{last};
      TotalWithout(other, j);
      TotalPermuted(init, rest);
    }
  }

  lemma {:induction false} SameBytesCount(c: seq<Chunk>, d: seq<Chunk>)
    requires SameBytes(c, d)
    ensures ChunkBytes(c) == ChunkBytes(d)
  {
    if c != [] {
      SameBytesCount(c[..|c| - 1], d[..|d| - 1]);
    }
  }

  /** Without conflicts even the duplicate count is the same in every arrival order. */
  lemma {:induction false} DuplicatesPermuted(segs: seq<Segment>, other: seq<Segment>, bs: seq<int>)
    requires Permuted(segs, other) && WellFormed(segs) && Bounded(segs, bs) && |bs| > 0
    requires ConflictsTo(segs, RejectConflict, bs, |bs| - 1) == []
    ensures DuplicatesTo(segs, RejectConflict, bs, |bs| - 1) == DuplicatesTo(other, RejectConflict, bs, |bs| - 1)
  {
    hide *;
    var n := |bs| - 1;
    PermutedShape(segs, other, bs);
    OrderIrrelevant(segs, other, bs, n);
    RetainedConserved(segs, RejectConflict, bs);
    RetainedConserved(other, RejectConflict, bs);
    TotalPermuted(segs, other);
    SameBytesCount(ChunksTo(segs, RejectConflict, bs, n), ChunksTo(other, RejectConflict, bs, n));
  }
}
