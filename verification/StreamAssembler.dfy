/**
 Placing captured payload in sequence space and finishing one direction of a connection.
 The assembler keeps the source's fields; `finish` runs the boundary-event sweep.
 */
module StreamAssembly {
  import opened Common
  import opened Boundaries
  import opened Provenance
  import opened StreamSweep
  import opened StreamTheorems
  import opened StreamConservation

  const HALF_SPACE: int := 0x8000_0000

  /** Signed distance between two wrapping sequence numbers, when it is unique. */
  function SequenceDelta(sequence: u32, anchor: u32): Result<int> {
    var delta := Wrap32(sequence - anchor);
    if delta == HALF_SPACE then Err(Error(SequenceAmbiguous, "sequence"))
    else Ok(if delta < HALF_SPACE then delta else delta - MODULUS)
  }

  /** The distance is the only offset inside the half space that leads from anchor to sequence. */
  lemma {:induction false} DeltaUnique(sequence: u32, anchor: u32, d: int)
    requires -HALF_SPACE < d < HALF_SPACE
    ensures SequenceDelta(sequence, anchor) == Ok(d) <==> Wrap32(anchor + d) == sequence
  {
    var x := sequence - anchor;
    assert (anchor + d) % MODULUS == sequence ==> x == d || x == d + MODULUS || x == d - MODULUS;
    assert x >= 0 ==> Wrap32(x) == x;
    assert x < 0 ==> Wrap32(x) == x + MODULUS;
  }

  /** Exactly the antipodal number has no distance. */
  lemma {:induction false} DeltaAmbiguous(sequence: u32, anchor: u32)
    ensures SequenceDelta(sequence, anchor).Err? <==> sequence == Wrap32(anchor + HALF_SPACE)
  {
    var x := sequence - anchor;
    assert x >= 0 ==> Wrap32(x) == x;
    assert x < 0 ==> Wrap32(x) == x + MODULUS;
  }

  datatype Assembly = Assembly(
    base: Option<u32>,
    anchored: bool,
    segments: seq<Segment>,
    min: int,
    max: int,
    fin: Option<int>,
    retained: nat)

  function NewAssembly(syn: Option<u32>): Assembly {
    Assembly(if syn.Some? then Some(Wrap32(syn.value + 1)) else None, syn.Some?, [], 0, 0, None, 0)
  }

  ghost predicate SegmentFits(a: Assembly, s: Segment) {
    && Valid(s.bytes) && s.bytes.data != []
    && a.min <= s.start < HALF_SPACE && -HALF_SPACE < s.start
    && s.End() <= a.max
    && (a.anchored ==> 0 <= s.start)
  }

  /** What every reachable assembler satisfies. */
  ghost predicate Sound(a: Assembly, limits: Limits) {
    && (forall i | 0 <= i < |a.segments| :: SegmentFits(a, a.segments[i]))
    && a.min <= 0 <= a.max && -HALF_SPACE < a.min
    && a.max - a.min <= Max(0, limits.maxStreamSpan)
    && a.retained == TotalBytes(a.segments) <= limits.maxRetainedPayload
    && |a.segments| <= limits.maxSegmentsPerFlow
    && ((a.anchored || a.segments != [] || a.fin.Some?) ==> a.base.Some?)
    && (a.fin.Some? ==> -HALF_SPACE < a.fin.value < HALF_SPACE)
    && (!limits.Valid() ==> a.segments == [])
  }

  function PushSpec(a: Assembly, limits: Limits, sequence: u32, bytes: Evidence): Result<Assembly> {
    if !limits.Valid() then Err(LIMITS_ERROR)
    else if bytes.data == [] then Ok(a)
    else if !Valid(bytes) then Err(LAYOUT_ERROR)
    else if a.retained + |bytes.data| > limits.maxRetainedPayload then Err(Limit("stream_retained_payload"))
    else if |a.segments| >= limits.maxSegmentsPerFlow then Err(Limit("stream_segments"))
    else
      var base := if a.base.Some? then a.base.value else sequence;
      var start :- SequenceDelta(sequence, base);
      var low, high := Min(a.min, start), Max(a.max, start + |bytes.data|);
      if high - low > limits.maxStreamSpan then Err(Limit("stream_span"))
      else if a.anchored && start < 0 then Err(Error(SequenceAmbiguous, "sequence"))
      else Ok(a.(base := Some(base), segments := a.segments + [Segment(start, bytes)],
                 min := low, max := high, retained := a.retained + |bytes.data|))
  }

  function EndSpec(a: Assembly, limits: Limits, sequence: u32): Result<Assembly> {
    if !limits.Valid() then Err(LIMITS_ERROR)
    else
      var base := if a.base.Some? then a.base.value else sequence;
      var end :- SequenceDelta(sequence, base);
      if end < a.min || end - a.min > limits.maxStreamSpan then Err(Limit("fin_sequence"))
      else if a.fin.Some? && a.fin.value != end then Err(Error(SequenceAmbiguous, "fin_sequence"))
      else Ok(a.(base := Some(base), fin := Some(end)))
  }

  lemma {:induction false} PushSound(a: Assembly, limits: Limits, sequence: u32, bytes: Evidence)
    requires Sound(a, limits) && PushSpec(a, limits, sequence, bytes).Ok?
    ensures Sound(PushSpec(a, limits, sequence, bytes).value, limits)
  {
    hide Tiled;
    var r := PushSpec(a, limits, sequence, bytes).value;
    if bytes.data != [] {
      var last := r.segments[|r.segments| - 1];
      assert r.segments[..|r.segments| - 1] == a.segments;
      assert SegmentFits(r, last);
      forall i | 0 <= i < |a.segments| ensures SegmentFits(r, a.segments[i]) {
        assert SegmentFits(a, a.segments[i]);
      }
    }
  }

  lemma {:induction false} EndSound(a: Assembly, limits: Limits, sequence: u32)
    requires Sound(a, limits) && EndSpec(a, limits, sequence).Ok?
    ensures Sound(EndSpec(a, limits, sequence).value, limits)
  {
    hide Tiled;
    var r := EndSpec(a, limits, sequence).value;
    forall i | 0 <= i < |a.segments| ensures SegmentFits(r, a.segments[i]) {
      assert SegmentFits(a, a.segments[i]);
    }
  }

  // ---------------------------------------------------------------- finish

  datatype StreamResult = StreamResult(
    base: Option<u32>,
    anchored: bool,
    chunks: seq<Chunk>,
    gaps: seq<Gap>,
    conflicts: seq<Conflict>,
    duplicates: int)

  /** The boundary positions: both ends of every segment, the SYN anchor and the FIN. */
  function Cuts(segs: seq<Segment>, anchored: bool, fin: Option<int>): set<int> {
    (set i | 0 <= i < |segs| :: segs[i].start) + (set i | 0 <= i < |segs| :: segs[i].End())
    + (if anchored then {0} else {}) + (if fin.Some? then {fin.value} else {})
  }

  function BoundariesOf(a: Assembly): seq<int> {
    Sorted(Cuts(a.segments, a.anchored, a.fin))
  }

  /** What finishing yields: only payload beyond an observed FIN is refused. */
  function FinishSpec(a: Assembly, limits: Limits, policy: OverlapPolicy): Result<StreamResult> {
    if !limits.Valid() then Err(LIMITS_ERROR)
    else if a.segments == [] then
      Ok(StreamResult(a.base, a.anchored, [],
                      if a.anchored && a.fin.Some? && a.fin.value > 0 then [Gap(0, a.fin.value, MissingBytes)] else [],
                      [], 0))
    else if a.fin.Some? && a.max > a.fin.value then Err(Error(SequenceAmbiguous, "fin_sequence"))
    else Ok(SweepAll(a, policy))
  }

  /** The sweep over all cells between the boundaries. */
  function SweepAll(a: Assembly, policy: OverlapPolicy): StreamResult
    requires a.segments != []
  {
    var bs := BoundariesOf(a);
    CutsNonempty(a);
    var n := |bs| - 1;
    StreamResult(a.base, a.anchored, ChunksTo(a.segments, policy, bs, n), GapsTo(a.segments, policy, bs, n),
                 ConflictsTo(a.segments, policy, bs, n), DuplicatesTo(a.segments, policy, bs, n))
  }

  lemma {:induction false} CutsNonempty(a: Assembly)
    requires a.segments != []
    ensures |BoundariesOf(a)| > 0
  {
    assert a.segments[0].start in BoundariesOf(a);
  }

  lemma {:induction false} CutsBound(a: Assembly, limits: Limits)
    requires Sound(a, limits) && a.segments != [] && limits.Valid()
    ensures var bs := BoundariesOf(a);
            && WellFormed(a.segments) && Bounded(a.segments, bs) && |bs| >= 2
            && bs[|bs| - 1] - bs[0] <= USIZE_MAX
  {
    hide Tiled, Sorted, Cuts, Sound, SegmentFits;
    var bs := BoundariesOf(a);
    forall i | 0 <= i < |a.segments|
      ensures Valid(a.segments[i].bytes) && a.segments[i].start in bs && a.segments[i].End() in bs
    {
      SegmentCuts(a, limits, i);
    }
    SegmentCuts(a, limits, 0);
    CutInRange(a, limits, bs[0]);
    CutInRange(a, limits, bs[|bs| - 1]);
  }

  lemma {:induction false} SegmentCuts(a: Assembly, limits: Limits, i: int)
    requires Sound(a, limits) && 0 <= i < |a.segments|
    ensures var s := a.segments[i];
            && Valid(s.bytes) && s.start < s.End()
            && s.start in Cuts(a.segments, a.anchored, a.fin)
            && s.End() in Cuts(a.segments, a.anchored, a.fin)
  {
    hide Tiled;
    assert SegmentFits(a, a.segments[i]);
  }

  lemma {:induction false} CutInRange(a: Assembly, limits: Limits, x: int)
    requires Sound(a, limits) && limits.Valid() && x in Cuts(a.segments, a.anchored, a.fin)
    ensures -HALF_SPACE < x < 2 * HALF_SPACE
  {
    hide Tiled;
    if i :| 0 <= i < |a.segments| && (a.segments[i].start == x || a.segments[i].End() == x) {
      assert SegmentFits(a, a.segments[i]);
    }
  }

  /**
   The finished stream, position by position. Chunks are separated and in order, gaps are in order,
   both stay inside the span; every position of the span is settled; every chunk byte, with its
   origin, is the one the policy reads among the covering segments.
   */
  lemma {:induction false} FinishReconstructs(a: Assembly, limits: Limits, policy: OverlapPolicy)
    requires Sound(a, limits) && a.segments != [] && FinishSpec(a, limits, policy).Ok?
    ensures WellFormed(a.segments)
    ensures var r := FinishSpec(a, limits, policy).value;
            var bs := BoundariesOf(a);
            && |bs| >= 2
            && Separated(r.chunks, bs[0], bs[|bs| - 1])
            && GapsOrdered(r.gaps, bs[0], bs[|bs| - 1])
            && AllChunksOk(a.segments, policy, r.chunks)
            && forall p | bs[0] <= p < bs[|bs| - 1] ::
                 PositionSettled(a.segments, policy, r.chunks, r.gaps, r.conflicts, p)
  {
    hide ChunksTo, GapsTo, ConflictsTo, DuplicatesTo, PositionSettled, AllChunksOk, Separated, GapsOrdered,
         WellFormed, Bounded, Sound, BoundariesOf, HoldEmitted, InGap;
    CutsBound(a, limits);
    BoundedAscends(a.segments, BoundariesOf(a));
    var bs := BoundariesOf(a);
    ChunksSound(a.segments, policy, bs, |bs| - 1);
    GapsSound(a.segments, policy, bs, |bs| - 1);
    forall p | bs[0] <= p < bs[|bs| - 1]
      ensures var r := FinishSpec(a, limits, policy).value;
              PositionSettled(a.segments, policy, r.chunks, r.gaps, r.conflicts, p)
    {
      PositionsSettled(a.segments, policy, bs, p);
    }
  }

  /** With no conflict, every retained byte is either in a chunk or counted as a duplicate. */
  lemma {:induction false} FinishConserves(a: Assembly, limits: Limits, policy: OverlapPolicy)
    requires Sound(a, limits) && a.segments != [] && FinishSpec(a, limits, policy).Ok?
    requires FinishSpec(a, limits, policy).value.conflicts == []
    ensures var r := FinishSpec(a, limits, policy).value;
            a.retained == ChunkBytes(r.chunks) + r.duplicates
  {
    hide ChunksTo, GapsTo, ConflictsTo, DuplicatesTo, WellFormed, Bounded, BoundariesOf, ChunkBytes;
    CutsBound(a, limits);
    RetainedConserved(a.segments, policy, BoundariesOf(a));
  }
}
