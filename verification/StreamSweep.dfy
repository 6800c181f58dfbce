/**
 What sweeping a set of placed segments means, cell by cell: between two neighbouring
 boundaries the covering segments do not change, so each cell is a gap, a rejected
 conflict, or a piece of a chunk. The lemmas lift the cells to single positions.
 */
module StreamSweep {
  import opened Common
  import opened Boundaries
  import opened Provenance

  datatype OverlapPolicy = RejectConflict | FirstObserved | LastObserved

  /** Captured bytes placed at a stream offset. */
  datatype Segment = Segment(start: int, bytes: Evidence) {
    function End(): int {
      start + |bytes.data|
    }
  }

  datatype Chunk = Chunk(offset: int, bytes: Evidence) {
    function End(): int {
      offset + |bytes.data|
    }
  }

  datatype GapReason = MissingBytes | ConflictingBytes

  datatype Gap = Gap(start: int, end: int, reason: GapReason)

  datatype Conflict = Conflict(start: int, end: int, packets: set<PacketId>)

  ghost predicate WellFormed(segs: seq<Segment>) {
    forall i | 0 <= i < |segs| :: Valid(segs[i].bytes)
  }

  predicate Covers(s: Segment, p: int) {
    s.start <= p < s.End()
  }

  /** The indices of the segments that hold position p, in arrival order. */
  function Active(segs: seq<Segment>, p: int): set<int> {
    set i | 0 <= i < |segs| && Covers(segs[i], p)
  }

  /** Which covering segment a policy reads. */
  function Choose(policy: OverlapPolicy, active: set<int>): (i: int)
    requires active != {}
    ensures i in active
  {
    if policy == LastObserved then Greatest(active) else Least(active)
  }

  /** The bytes a segment gives to [a, b). */
  function Raw(s: Segment, a: int, b: int): seq<byte> {
    if s.start <= a <= b <= s.End() then s.bytes.data[a - s.start..b - s.start] else []
  }

  predicate Disagree(segs: seq<Segment>, active: set<int>, chosen: int, a: int, b: int)
    requires forall i | i in active :: 0 <= i < |segs|
    requires chosen in active
  {
    exists i | i in active :: Raw(segs[i], a, b) != Raw(segs[chosen], a, b)
  }

  datatype Cell =
    | Missing
    | Rejected
    | Emitted(chosen: int, conflict: bool)

  /** What the sweep does with the bytes between two neighbouring boundaries. */
  function CellAt(segs: seq<Segment>, policy: OverlapPolicy, a: int, b: int): Cell {
    var active := Active(segs, a);
    if active == {} then Missing
    else
      var chosen := Choose(policy, active);
      var conflict := Disagree(segs, active, chosen, a, b);
      if conflict && policy == RejectConflict then Rejected else Emitted(chosen, conflict)
  }

  /** The part of the chosen segment that fills [a, b). */
  function Part(s: Segment, a: int, b: int): Evidence {
    if s.start <= a <= b <= s.End()
    then Evidence(s.bytes.data[a - s.start..b - s.start], SliceSpans(s.bytes.spans, a - s.start, b - s.start), true)
    else EMPTY
  }

  /** Extend the last chunk when it ends where the new bytes begin; otherwise open a chunk. */
  function Emit(chunks: seq<Chunk>, a: int, bytes: Evidence): seq<Chunk> {
    if chunks != [] && chunks[|chunks| - 1].End() == a then
      var last := chunks[|chunks| - 1];
      var joined := Evidence(last.bytes.data + bytes.data,
                             AppendSpans(last.bytes.spans, |last.bytes.data|, bytes.spans), true);
      chunks[..|chunks| - 1] + [Chunk(last.offset, joined)]
    else chunks + [Chunk(a, bytes)]
  }

  function ChunksTo(segs: seq<Segment>, policy: OverlapPolicy, bs: seq<int>, k: nat): seq<Chunk>
    requires k < |bs|
  {
    if k == 0 then []
    else
      var before := ChunksTo(segs, policy, bs, k - 1);
      match CellAt(segs, policy, bs[k - 1], bs[k])
      case Emitted(chosen, _) =>
        if 0 <= chosen < |segs| then Emit(before, bs[k - 1], Part(segs[chosen], bs[k - 1], bs[k])) else before
      case _ => before
  }

  function GapsTo(segs: seq<Segment>, policy: OverlapPolicy, bs: seq<int>, k: nat): seq<Gap>
    requires k < |bs|
  {
    if k == 0 then []
    else
      var before := GapsTo(segs, policy, bs, k - 1);
      match CellAt(segs, policy, bs[k - 1], bs[k])
      case Missing => before + [Gap(bs[k - 1], bs[k], MissingBytes)]
      case Rejected => before + [Gap(bs[k - 1], bs[k], ConflictingBytes)]
      case Emitted(_, _) => before
  }

  /** Every packet that contributed a byte of [a, b) to a covering segment. */
  function CellPackets(segs: seq<Segment>, a: int, b: int): set<PacketId> {
    set i, p | i in Active(segs, a) && p in SegmentPackets(segs[i], a, b) :: p
  }

  function SegmentPackets(s: Segment, a: int, b: int): set<PacketId> {
    if s.start <= a <= b then WindowPackets(s.bytes.spans, a - s.start, b - s.start) else {}
  }

  predicate CellConflicts(segs: seq<Segment>, policy: OverlapPolicy, a: int, b: int) {
    match CellAt(segs, policy, a, b)
    case Missing => false
    case Rejected => true
    case Emitted(_, conflict) => conflict
  }

  function ConflictsTo(segs: seq<Segment>, policy: OverlapPolicy, bs: seq<int>, k: nat): seq<Conflict>
    requires k < |bs|
  {
    if k == 0 then []
    else
      var before := ConflictsTo(segs, policy, bs, k - 1);
      if CellConflicts(segs, policy, bs[k - 1], bs[k])
      then before + [Conflict(bs[k - 1], bs[k], CellPackets(segs, bs[k - 1], bs[k]))]
      else before
  }

  /** The other covering segments that repeat the chosen bytes of the cell. */
  function Echoes(segs: seq<Segment>, policy: OverlapPolicy, a: int, b: int): set<int> {
    var active := Active(segs, a);
    if active == {} then {}
    else
      var chosen := Choose(policy, active);
      set i | i in active && i != chosen && Raw(segs[i], a, b) == Raw(segs[chosen], a, b)
  }

  function EchoBytes(segs: seq<Segment>, policy: OverlapPolicy, a: int, b: int): int {
    Scaled(|Echoes(segs, policy, a, b)|, b - a)
  }

  /** n segments times the width of a cell. */
  function Scaled(n: int, width: int): int {
    n * width
  }

  lemma {:induction false} OneMore(n: int, width: int)
    ensures Scaled(0, width) == 0
    ensures Scaled(n + 1, width) == Scaled(n, width) + width
  {
  }

  function DuplicatesTo(segs: seq<Segment>, policy: OverlapPolicy, bs: seq<int>, k: nat): int
    requires k < |bs|
  {
    if k == 0 then 0
    else
      DuplicatesTo(segs, policy, bs, k - 1) + EchoBytes(segs, policy, bs[k - 1], bs[k])
  }

  /** The boundaries include both ends of every segment. */
  ghost predicate Bounded(segs: seq<Segment>, bs: seq<int>) {
    Ascending(bs) && forall i | 0 <= i < |segs| :: segs[i].start in bs && segs[i].End() in bs
  }

  // ---------------------------------------------------------------- one cell

  /** Inside a cell nothing starts or ends: whoever covers its first byte covers all of it. */
  lemma {:induction false} CellUniform(segs: seq<Segment>, bs: seq<int>, k: nat, i: nat, p: int)
    requires Bounded(segs, bs) && k + 1 < |bs| && i < |segs| && bs[k] <= p < bs[k + 1]
    ensures Covers(segs[i], p) <==> Covers(segs[i], bs[k])
    ensures Covers(segs[i], bs[k]) ==> bs[k + 1] <= segs[i].End()
  {
    NoBoundaryInside(bs, k, segs[i].start);
    NoBoundaryInside(bs, k, segs[i].End());
  }

  lemma {:induction false} NoBoundaryInside(bs: seq<int>, k: nat, x: int)
    requires Ascending(bs) && k + 1 < |bs| && x in bs
    ensures x <= bs[k] || bs[k + 1] <= x
  {
    var j :| 0 <= j < |bs| && bs[j] == x;
    assert j < k ==> bs[j] < bs[k];
    assert k + 1 < j ==> bs[k + 1] < bs[j];
  }

  lemma {:induction false} ActiveUniform(segs: seq<Segment>, bs: seq<int>, k: nat, p: int)
    requires Bounded(segs, bs) && k + 1 < |bs| && bs[k] <= p < bs[k + 1]
    ensures Active(segs, p) == Active(segs, bs[k])
  {
    forall i | 0 <= i < |segs| ensures Covers(segs[i], p) <==> Covers(segs[i], bs[k]) {
      CellUniform(segs, bs, k, i, p);
    }
  }

  /** The byte and origin the policy reads at a covered position, with no mention of cells. */
  ghost function SpecAt(segs: seq<Segment>, policy: OverlapPolicy, p: int): Observed
    requires WellFormed(segs) && Active(segs, p) != {}
  {
    var s := segs[Choose(policy, Active(segs, p))];
    At(s.bytes, p - s.start)
  }

  ghost predicate PartOk(segs: seq<Segment>, policy: OverlapPolicy, a: int, b: int, e: Evidence)
    requires WellFormed(segs)
  {
    && Valid(e) && |e.data| == b - a
    && forall p | a <= p < b :: Active(segs, p) != {} && At(e, p - a) == SpecAt(segs, policy, p)
  }

  lemma {:induction false} PartReadsSpec(segs: seq<Segment>, policy: OverlapPolicy, bs: seq<int>, k: nat)
    requires WellFormed(segs) && Bounded(segs, bs) && k + 1 < |bs| && Active(segs, bs[k]) != {}
    ensures var chosen := Choose(policy, Active(segs, bs[k]));
            PartOk(segs, policy, bs[k], bs[k + 1], Part(segs[chosen], bs[k], bs[k + 1]))
  {
    hide Part, Tiled, At, Choose;
    var a, b := bs[k], bs[k + 1];
    var chosen := Choose(policy, Active(segs, a));
    CellUniform(segs, bs, k, chosen, a);
    PartShape(segs[chosen], a, b);
    forall p | a <= p < b
      ensures Active(segs, p) != {} && At(Part(segs[chosen], a, b), p - a) == SpecAt(segs, policy, p)
    {
      ActiveUniform(segs, bs, k, p);
      PartAt(segs[chosen], a, b, p);
    }
  }

  lemma {:induction false} PartShape(s: Segment, a: int, b: int)
    requires Valid(s.bytes) && s.start <= a <= b <= s.End()
    ensures Valid(Part(s, a, b)) && |Part(s, a, b).data| == b - a
  {
    hide SliceSpans, Tiled;
    SliceValid(s.bytes, a - s.start, b - s.start);
  }

  lemma {:induction false} PartAt(s: Segment, a: int, b: int, p: int)
    requires Valid(s.bytes) && Valid(Part(s, a, b)) && s.start <= a <= p < b <= s.End()
    ensures At(Part(s, a, b), p - a) == At(s.bytes, p - s.start)
  {
    hide SliceSpans, Tiled, Locate, At;
    SliceAt(s.bytes, Part(s, a, b), a - s.start, b - s.start, p - a);
  }

  // ---------------------------------------------------------------- chunks

  ghost predicate ChunkOk(segs: seq<Segment>, policy: OverlapPolicy, c: Chunk)
    requires WellFormed(segs)
  {
    |c.bytes.data| > 0 && PartOk(segs, policy, c.offset, c.End(), c.bytes)
  }

  /** Chunks inside [lo, hi], in order, each separated from the next. */
  ghost predicate Separated(chunks: seq<Chunk>, lo: int, hi: int) {
    && (forall c | 0 <= c < |chunks| :: lo <= chunks[c].offset < chunks[c].End() <= hi)
    && (forall c, d | 0 <= c < d < |chunks| :: chunks[c].End() < chunks[d].offset)
  }

  ghost predicate InChunk(chunks: seq<Chunk>, p: int) {
    exists c | 0 <= c < |chunks| :: chunks[c].offset <= p < chunks[c].End()
  }

  lemma {:induction false} JoinParts(segs: seq<Segment>, policy: OverlapPolicy, a: int, b: int, c: int, e: Evidence, f: Evidence)
    requires WellFormed(segs) && a <= b <= c && c - a <= USIZE_MAX
    requires PartOk(segs, policy, a, b, e) && PartOk(segs, policy, b, c, f)
    ensures PartOk(segs, policy, a, c, Evidence(e.data + f.data, AppendSpans(e.spans, |e.data|, f.spans), true))
  {
    var limit := c - a;
    var r := Evidence(e.data + f.data, AppendSpans(e.spans, |e.data|, f.spans), true);
    AppendValid(e, f, limit);
    forall p | a <= p < c
      ensures Active(segs, p) != {} && At(r, p - a) == SpecAt(segs, policy, p)
    {
      AppendAt(e, f, r, limit, p - a);
      if p < b {
        assert At(e, p - a) == SpecAt(segs, policy, p);
      } else {
        assert At(f, p - b) == SpecAt(segs, policy, p);
      }
    }
  }

  /** Emitting one cell keeps every chunk right and adds exactly the cell's positions. */
  lemma {:induction false} EmitOk(segs: seq<Segment>, policy: OverlapPolicy, chunks: seq<Chunk>,
                                  lo: int, a: int, b: int, e: Evidence)
    requires WellFormed(segs) && lo <= a < b && b - lo <= USIZE_MAX
    requires Separated(chunks, lo, a) && AllChunksOk(segs, policy, chunks)
    requires PartOk(segs, policy, a, b, e) && |e.data| == b - a
    ensures Separated(Emit(chunks, a, e), lo, b)
    ensures AllChunksOk(segs, policy, Emit(chunks, a, e))
    ensures forall p :: InChunk(Emit(chunks, a, e), p) <==> InChunk(chunks, p) || a <= p < b
  {
    hide AppendSpans, Tiled, Locate, PartOk;
    var r := Emit(chunks, a, e);
    var n := |chunks|;
    if chunks != [] && chunks[n - 1].End() == a {
      var last := chunks[n - 1];
      assert ChunkOk(segs, policy, last);
      JoinParts(segs, policy, last.offset, a, b, last.bytes, e);
      EmitExtends(chunks, r, a, b);
      assert ChunkOk(segs, policy, r[n - 1]);
    } else {
      EmitOpens(chunks, r, a, b);
    }
  }

  lemma {:induction false} EmitExtends(chunks: seq<Chunk>, r: seq<Chunk>, a: int, b: int)
    requires chunks != [] && chunks[|chunks| - 1].End() == a < b && |r| == |chunks|
    requires chunks[|chunks| - 1].offset < a
    requires r[..|r| - 1] == chunks[..|r| - 1]
    requires r[|r| - 1].offset == chunks[|r| - 1].offset && r[|r| - 1].End() == b
    ensures forall p :: InChunk(r, p) <==> InChunk(chunks, p) || a <= p < b
    ensures forall c | 0 <= c < |r| - 1 :: r[c] == chunks[c]
  {
    var n := |chunks| - 1;
    assert forall c | 0 <= c < n :: r[c] == r[..n][c] == chunks[..n][c] == chunks[c];
    forall p ensures InChunk(r, p) <==> InChunk(chunks, p) || a <= p < b {
      if InChunk(chunks, p) {
        var c :| 0 <= c < |chunks| && chunks[c].offset <= p < chunks[c].End();
        assert r[c].offset <= p < r[c].End();
      }
      if a <= p < b {
        assert r[n].offset <= p < r[n].End();
      }
      if InChunk(r, p) {
        var c :| 0 <= c < |r| && r[c].offset <= p < r[c].End();
        if p < a {
          assert chunks[c].offset <= p < chunks[c].End();
        }
      }
    }
  }

  lemma {:induction false} EmitOpens(chunks: seq<Chunk>, r: seq<Chunk>, a: int, b: int)
    requires |r| == |chunks| + 1 && r[..|chunks|] == chunks
    requires r[|chunks|].offset == a && r[|chunks|].End() == b
    ensures forall p :: InChunk(r, p) <==> InChunk(chunks, p) || a <= p < b
    ensures forall c | 0 <= c < |chunks| :: r[c] == chunks[c]
  {
    var n := |chunks|;
    assert forall c | 0 <= c < n :: r[c] == r[..n][c] == chunks[c];
    forall p ensures InChunk(r, p) <==> InChunk(chunks, p) || a <= p < b {
      if InChunk(chunks, p) {
        var c :| 0 <= c < |chunks| && chunks[c].offset <= p < chunks[c].End();
        assert r[c].offset <= p < r[c].End();
      }
      if a <= p < b {
        assert r[n].offset <= p < r[n].End();
      }
      if InChunk(r, p) {
        var c :| 0 <= c < |r| && r[c].offset <= p < r[c].End();
        if c < n {
          assert chunks[c].offset <= p < chunks[c].End();
        }
      }
    }
  }

  ghost predicate CellHolds(bs: seq<int>, m: int, p: int) {
    0 <= m && m + 1 < |bs| && bs[m] <= p < bs[m + 1]
  }

  /** p lies in one of the first k cells, and that cell satisfies the sweep's verdict. */
  ghost predicate InCellOf(segs: seq<Segment>, policy: OverlapPolicy, bs: seq<int>, k: nat, p: int, verdict: Cell -> bool) {
    exists m | 0 <= m < k :: CellHolds(bs, m, p) && verdict(CellAt(segs, policy, bs[m], bs[m + 1]))
  }

  const IsEmitted: Cell -> bool := (c: Cell) => c.Emitted?

  lemma {:induction false} InCellStep(segs: seq<Segment>, policy: OverlapPolicy, bs: seq<int>, k: nat, p: int, verdict: Cell -> bool)
    requires 0 < k < |bs|
    ensures InCellOf(segs, policy, bs, k, p, verdict)
       <==> (InCellOf(segs, policy, bs, k - 1, p, verdict)
             || (bs[k - 1] <= p < bs[k] && verdict(CellAt(segs, policy, bs[k - 1], bs[k]))))
  {
    hide CellAt;
    if InCellOf(segs, policy, bs, k, p, verdict) {
      var m :| 0 <= m < k && CellHolds(bs, m, p) && verdict(CellAt(segs, policy, bs[m], bs[m + 1]));
    }
    if bs[k - 1] <= p < bs[k] && verdict(CellAt(segs, policy, bs[k - 1], bs[k])) {
      assert CellHolds(bs, k - 1, p);
    }
  }

  lemma {:induction false} ChunksStep(segs: seq<Segment>, policy: OverlapPolicy, bs: seq<int>, k: nat)
    requires 0 < k < |bs|
    ensures var cell := CellAt(segs, policy, bs[k - 1], bs[k]);
            var before := ChunksTo(segs, policy, bs, k - 1);
            ChunksTo(segs, policy, bs, k) ==
              if cell.Emitted? && 0 <= cell.chosen < |segs|
              then Emit(before, bs[k - 1], Part(segs[cell.chosen], bs[k - 1], bs[k])) else before
  {
  }

  ghost predicate AllChunksOk(segs: seq<Segment>, policy: OverlapPolicy, chunks: seq<Chunk>)
    requires WellFormed(segs)
  {
    forall c | 0 <= c < |chunks| :: ChunkOk(segs, policy, chunks[c])
  }

  /** The chunks hold exactly the positions of the emitted cells among the first k. */
  ghost predicate HoldEmitted(segs: seq<Segment>, policy: OverlapPolicy, bs: seq<int>, k: nat, chunks: seq<Chunk>) {
    forall p :: InChunk(chunks, p) <==> InCellOf(segs, policy, bs, k, p, IsEmitted)
  }

  lemma {:induction false} HoldEmittedStep(segs: seq<Segment>, policy: OverlapPolicy, bs: seq<int>, k: nat,
                                           before: seq<Chunk>, after: seq<Chunk>)
    requires 0 < k < |bs| && HoldEmitted(segs, policy, bs, k - 1, before)
    requires forall p ::
               InChunk(after, p) <==>
               InChunk(before, p) || (bs[k - 1] <= p < bs[k] && CellAt(segs, policy, bs[k - 1], bs[k]).Emitted?)
    ensures HoldEmitted(segs, policy, bs, k, after)
  {
    hide InChunk, InCellOf, CellAt;
    forall p ensures InChunk(after, p) <==> InCellOf(segs, policy, bs, k, p, IsEmitted) {
      InCellStep(segs, policy, bs, k, p, IsEmitted);
    }
  }

  /** Chunks are separated, read the policy's choice everywhere, and hold exactly the emitted cells. */
  lemma {:induction false} ChunksSound(segs: seq<Segment>, policy: OverlapPolicy, bs: seq<int>, k: nat)
    requires WellFormed(segs) && Bounded(segs, bs) && k < |bs| && bs[k] - bs[0] <= USIZE_MAX
    ensures Separated(ChunksTo(segs, policy, bs, k), bs[0], bs[k])
    ensures AllChunksOk(segs, policy, ChunksTo(segs, policy, bs, k))
    ensures HoldEmitted(segs, policy, bs, k, ChunksTo(segs, policy, bs, k))
  {
    hide *;
    if k == 0 {
      NoCells(segs, policy, bs);
    } else {
      var a, b := bs[k - 1], bs[k];
      AscendingAt(bs, k);
      BoundedAscends(segs, bs);
      ChunksSound(segs, policy, bs, k - 1);
      ChunksStep(segs, policy, bs, k);
      CellChosen(segs, policy, bs, k - 1);
      var before, after := ChunksTo(segs, policy, bs, k - 1), ChunksTo(segs, policy, bs, k);
      var cell := CellAt(segs, policy, a, b);
      if cell.Emitted? {
        EmitOk(segs, policy, before, bs[0], a, b, Part(segs[cell.chosen], a, b));
      } else {
        SeparatedWiden(before, bs[0], a, b);
      }
      HoldEmittedStep(segs, policy, bs, k, before, after);
    }
  }

  lemma {:induction false} BoundedAscends(segs: seq<Segment>, bs: seq<int>)
    requires Bounded(segs, bs)
    ensures Ascending(bs)
  {
  }

  lemma {:induction false} AscendingAt(bs: seq<int>, k: nat)
    ensures Ascending(bs) && 0 < k < |bs| ==> bs[0] <= bs[k - 1] < bs[k]
  {
  }

  lemma {:induction false} SeparatedWiden(chunks: seq<Chunk>, lo: int, a: int, b: int)
    requires Separated(chunks, lo, a) && a <= b
    ensures Separated(chunks, lo, b)
  {
  }

  lemma {:induction false} NoCells(segs: seq<Segment>, policy: OverlapPolicy, bs: seq<int>)
    requires WellFormed(segs) && |bs| > 0
    ensures ChunksTo(segs, policy, bs, 0) == [] && GapsTo(segs, policy, bs, 0) == []
    ensures Separated([], bs[0], bs[0]) && AllChunksOk(segs, policy, []) && HoldEmitted(segs, policy, bs, 0, [])
  {
  }

  lemma {:induction false} CellChosen(segs: seq<Segment>, policy: OverlapPolicy, bs: seq<int>, k: nat)
    requires WellFormed(segs) && Bounded(segs, bs) && k + 1 < |bs|
    ensures var cell := CellAt(segs, policy, bs[k], bs[k + 1]);
            && (cell.Missing? <==> Active(segs, bs[k]) == {})
            && (cell.Emitted? ==>
                  0 <= cell.chosen < |segs|
                  && cell.chosen in Active(segs, bs[k])
                  && PartOk(segs, policy, bs[k], bs[k + 1], Part(segs[cell.chosen], bs[k], bs[k + 1]))
                  && |Part(segs[cell.chosen], bs[k], bs[k + 1]).data| == bs[k + 1] - bs[k])
  {
    if Active(segs, bs[k]) != {} {
      PartReadsSpec(segs, policy, bs, k);
    }
  }

  // ---------------------------------------------------------------- gaps

  ghost predicate InGap(gaps: seq<Gap>, p: int, reason: GapReason) {
    exists g | 0 <= g < |gaps| :: gaps[g].start <= p < gaps[g].end && gaps[g].reason == reason
  }

  ghost predicate GapsOrdered(gaps: seq<Gap>, lo: int, hi: int) {
    && (forall g | 0 <= g < |gaps| :: lo <= gaps[g].start < gaps[g].end <= hi)
    && (forall g, h | 0 <= g < h < |gaps| :: gaps[g].end <= gaps[h].start)
  }

  const IsMissing: Cell -> bool := (c: Cell) => c.Missing?
  const IsRejected: Cell -> bool := (c: Cell) => c.Rejected?

  lemma {:induction false} GapSnoc(gaps: seq<Gap>, g: Gap, p: int, reason: GapReason)
    ensures InGap(gaps + [g], p, reason)
       <==> (InGap(gaps, p, reason) || (g.start <= p < g.end && g.reason == reason))
  {
    var r := gaps + [g];
    if InGap(gaps, p, reason) {
      var h :| 0 <= h < |gaps| && gaps[h].start <= p < gaps[h].end && gaps[h].reason == reason;
      assert r[h] == gaps[h];
    }
    if g.start <= p < g.end && g.reason == reason {
      assert r[|gaps|] == g;
    }
  }

  /** Gaps are ordered and hold exactly the uncovered and the rejected cells, each under its reason. */
  lemma {:induction false} GapsSound(segs: seq<Segment>, policy: OverlapPolicy, bs: seq<int>, k: nat)
    requires Ascending(bs) && k < |bs|
    ensures GapsOrdered(GapsTo(segs, policy, bs, k), bs[0], bs[k])
    ensures forall p :: InGap(GapsTo(segs, policy, bs, k), p, MissingBytes) <==> InCellOf(segs, policy, bs, k, p, IsMissing)
    ensures forall p :: InGap(GapsTo(segs, policy, bs, k), p, ConflictingBytes) <==> InCellOf(segs, policy, bs, k, p, IsRejected)
  {
    hide CellAt, InCellOf, InGap;
    if k == 0 {
      NoGaps(segs, policy, bs);
    } else {
      GapsSound(segs, policy, bs, k - 1);
      assert bs[0] <= bs[k - 1] < bs[k];
      forall p
        ensures InGap(GapsTo(segs, policy, bs, k), p, MissingBytes) <==> InCellOf(segs, policy, bs, k, p, IsMissing)
        ensures InGap(GapsTo(segs, policy, bs, k), p, ConflictingBytes) <==> InCellOf(segs, policy, bs, k, p, IsRejected)
      {
        GapsStep(segs, policy, bs, k, p, MissingBytes, IsMissing);
        GapsStep(segs, policy, bs, k, p, ConflictingBytes, IsRejected);
      }
    }
  }

  lemma {:induction false} NoGaps(segs: seq<Segment>, policy: OverlapPolicy, bs: seq<int>)
    ensures forall p, reason :: !InGap([], p, reason)
    ensures forall p, verdict :: !InCellOf(segs, policy, bs, 0, p, verdict)
  {
  }

  lemma {:induction false} GapsStep(segs: seq<Segment>, policy: OverlapPolicy, bs: seq<int>, k: nat, p: int,
                                    reason: GapReason, verdict: Cell -> bool)
    requires 0 < k < |bs|
    requires verdict == match reason case MissingBytes => IsMissing case ConflictingBytes => IsRejected
    requires InGap(GapsTo(segs, policy, bs, k - 1), p, reason) <==> InCellOf(segs, policy, bs, k - 1, p, verdict)
    ensures InGap(GapsTo(segs, policy, bs, k), p, reason) <==> InCellOf(segs, policy, bs, k, p, verdict)
  {
    hide CellAt, InCellOf, InGap;
    InCellStep(segs, policy, bs, k, p, verdict);
    var before := GapsTo(segs, policy, bs, k - 1);
    GapSnoc(before, Gap(bs[k - 1], bs[k], MissingBytes), p, reason);
    GapSnoc(before, Gap(bs[k - 1], bs[k], ConflictingBytes), p, reason);
  }
}
