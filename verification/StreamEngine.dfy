/** The stream assembler as the program runs it: in-place fields, an event map and an active set. */
module StreamEngine {
  import opened Common
  import opened Boundaries
  import opened Provenance
  import opened StreamSweep
  import opened StreamConservation
  import opened StreamAssembly

  /** The segments that start and end at one boundary. */
  datatype Event = Event(starts: seq<int>, ends: seq<int>)

  ghost predicate EventOk(segs: seq<Segment>, n: int, x: int, e: Event)
    requires 0 <= n <= |segs|
  {
    && (forall i :: i in e.starts <==> 0 <= i < n && segs[i].start == x)
    && (forall i :: i in e.ends <==> 0 <= i < n && segs[i].End() == x)
  }

  /** The events recorded after the first n segments. */
  ghost predicate EventsOk(segs: seq<Segment>, n: int, events: map<int, Event>)
    requires 0 <= n <= |segs|
  {
    && (forall x | x in events :: EventOk(segs, n, x, events[x]))
    && (forall i | 0 <= i < n :: segs[i].start in events && segs[i].End() in events)
  }

  function Entry(events: map<int, Event>, x: int): Event {
    if x in events then events[x] else Event([], [])
  }

  /** Record that segment n starts and ends at its two boundaries. */
  function Record(events: map<int, Event>, n: int, s: Segment): map<int, Event> {
    var first := Entry(events, s.start);
    var middle := events[s.start := Event(first.starts + [n], first.ends)];
    var second := Entry(middle, s.End());
    middle[s.End() := Event(second.starts, second.ends + [n])]
  }

  /** Make sure a boundary has an event, possibly an empty one. */
  function Touch(events: map<int, Event>, at: Option<int>): map<int, Event> {
    if at.Some? then events[at.value := Entry(events, at.value)] else events
  }

  method BuildEvents(segs: seq<Segment>, anchored: bool, fin: Option<int>) returns (events: map<int, Event>)
    requires forall i | 0 <= i < |segs| :: segs[i].start < segs[i].End()
    ensures EventsOk(segs, |segs|, events)
    ensures events.Keys == Cuts(segs, anchored, fin)
  {
    hide EventsOk, EventOk, Record, Touch;
    events := map[];
    NoEvents(segs);
    var n := 0;
    while n < |segs|
      invariant 0 <= n <= |segs|
      invariant EventsOk(segs, n, events)
      invariant events.Keys == EndpointsTo(segs, n)
    {
      RecordStep(segs, n, events);
      events := Record(events, n, segs[n]);
      n := n + 1;
    }
    var anchor := if anchored then Some(0) else None;
    TouchStep(segs, events, anchor);
    events := Touch(events, anchor);
    TouchStep(segs, events, fin);
    events := Touch(events, fin);
  }

  ghost function EndpointsTo(segs: seq<Segment>, n: int): set<int>
    requires 0 <= n <= |segs|
  {
    (set i | 0 <= i < n :: segs[i].start) + (set i | 0 <= i < n :: segs[i].End())
  }

  lemma {:induction false} NoEvents(segs: seq<Segment>)
    ensures EventsOk(segs, 0, map[]) && EndpointsTo(segs, 0) == {}
  {
  }

  lemma {:induction false} RecordStep(segs: seq<Segment>, n: int, events: map<int, Event>)
    requires 0 <= n < |segs| && EventsOk(segs, n, events) && segs[n].start < segs[n].End()
    ensures EventsOk(segs, n + 1, Record(events, n, segs[n]))
    ensures Record(events, n, segs[n]).Keys == events.Keys + {segs[n].start, segs[n].End()}
    ensures EndpointsTo(segs, n + 1) == EndpointsTo(segs, n) + {segs[n].start, segs[n].End()}
  {
    hide EventOk;
    var after := Record(events, n, segs[n]);
    forall x | x in after ensures EventOk(segs, n + 1, x, after[x]) {
      EntryOk(segs, n, events, x);
      RecordAt(segs, n, events, x);
    }
  }

  lemma {:induction false} RecordAt(segs: seq<Segment>, n: int, events: map<int, Event>, x: int)
    requires 0 <= n < |segs| && segs[n].start < segs[n].End() && EventOk(segs, n, x, Entry(events, x))
    ensures EventOk(segs, n + 1, x, Entry(Record(events, n, segs[n]), x))
  {
    var s, e := segs[n], Entry(events, x);
    assert Entry(Record(events, n, s), x)
        == Event(e.starts + (if s.start == x then [n] else []), e.ends + (if s.End() == x then [n] else []));
  }

  lemma {:induction false} EntryOk(segs: seq<Segment>, n: int, events: map<int, Event>, x: int)
    requires 0 <= n <= |segs| && EventsOk(segs, n, events)
    ensures EventOk(segs, n, x, Entry(events, x))
  {
  }

  /** An empty event at the SYN anchor or the FIN changes nothing that is recorded. */
  lemma {:induction false} TouchStep(segs: seq<Segment>, events: map<int, Event>, at: Option<int>)
    requires EventsOk(segs, |segs|, events)
    ensures EventsOk(segs, |segs|, Touch(events, at))
    ensures Touch(events, at).Keys == events.Keys + if at.Some? then {at.value} else {}
  {
    if at.Some? {
      EntryOk(segs, |segs|, events, at.value);
    }
  }

  // ---------------------------------------------------------------- one cell

  ghost predicate AnyDiffers(segs: seq<Segment>, done: set<int>, selected: seq<byte>, a: int, b: int)
    requires forall i | i in done :: 0 <= i < |segs|
  {
    exists i | i in done :: Raw(segs[i], a, b) != selected
  }

  ghost function EchoesIn(segs: seq<Segment>, done: set<int>, chosen: int, selected: seq<byte>, a: int, b: int): set<int>
    requires forall i | i in done :: 0 <= i < |segs|
  {
    set i | i in done && i != chosen && Raw(segs[i], a, b) == selected
  }

  ghost function PacketsIn(segs: seq<Segment>, done: set<int>, a: int, b: int): set<PacketId>
    requires forall i | i in done :: 0 <= i < |segs|
  {
    set i, p | i in done && p in SegmentPackets(segs[i], a, b) :: p
  }

  lemma {:induction false} CompareStep(segs: seq<Segment>, done: set<int>, i: int, chosen: int, selected: seq<byte>, a: int, b: int)
    requires (forall j | j in done :: 0 <= j < |segs|) && i !in done && 0 <= i < |segs|
    ensures AnyDiffers(segs, done + {i}, selected, a, b)
       <==> AnyDiffers(segs, done, selected, a, b) || Raw(segs[i], a, b) != selected
    ensures |EchoesIn(segs, done + {i}, chosen, selected, a, b)|
         == |EchoesIn(segs, done, chosen, selected, a, b)|
            + if i != chosen && Raw(segs[i], a, b) == selected then 1 else 0
    ensures PacketsIn(segs, done + {i}, a, b) == PacketsIn(segs, done, a, b) + SegmentPackets(segs[i], a, b)
  {
    hide Raw, SegmentPackets;
    var more := EchoesIn(segs, done + {i}, chosen, selected, a, b);
    var fewer := EchoesIn(segs, done, chosen, selected, a, b);
    if i != chosen && Raw(segs[i], a, b) == selected {
      assert more == fewer + {i};
    } else {
      assert more == fewer;
    }
    if AnyDiffers(segs, done, selected, a, b) {
      var j :| j in done && Raw(segs[j], a, b) != selected;
      assert j in done + {i};
    }
    if Raw(segs[i], a, b) != selected {
      assert i in done + {i};
    }
  }

  lemma {:induction false} CompareDone(segs: seq<Segment>, policy: OverlapPolicy, a: int, b: int)
    requires Active(segs, a) != {}
    ensures var active := Active(segs, a);
            var chosen := Choose(policy, active);
            var selected := Raw(segs[chosen], a, b);
            && (AnyDiffers(segs, active, selected, a, b) <==> Disagree(segs, active, chosen, a, b))
            && Scaled(|EchoesIn(segs, active, chosen, selected, a, b)|, b - a) == EchoBytes(segs, policy, a, b)
            && PacketsIn(segs, active, a, b) == CellPackets(segs, a, b)
  {
    hide Raw, SegmentPackets, Choose;
    var active := Active(segs, a);
    var chosen := Choose(policy, active);
    assert EchoesIn(segs, active, chosen, Raw(segs[chosen], a, b), a, b) == Echoes(segs, policy, a, b);
  }

  lemma {:induction false} CompareStart(segs: seq<Segment>, chosen: int, selected: seq<byte>, a: int, b: int)
    ensures !AnyDiffers(segs, {}, selected, a, b)
    ensures EchoesIn(segs, {}, chosen, selected, a, b) == {} && PacketsIn(segs, {}, a, b) == {}
  {
  }

  lemma {:induction false} ActiveIndices(segs: seq<Segment>, a: int, b: int)
    requires a < b && forall i | i in Active(segs, a) :: 0 <= i < |segs| && b <= segs[i].End()
    ensures forall i | i in Active(segs, a) :: |Raw(segs[i], a, b)| == b - a
  {
  }

  /** Compare every covering segment with the chosen one. */
  method CompareCell(segs: seq<Segment>, policy: OverlapPolicy, active: set<int>, chosen: int, a: int, b: int)
    returns (conflict: bool, duplicates: int, packets: set<PacketId>)
    requires active == Active(segs, a) && active != {} && chosen == Choose(policy, active) && a < b
    requires forall i | i in active :: 0 <= i < |segs| && b <= segs[i].End()
    ensures conflict == Disagree(segs, active, chosen, a, b)
    ensures duplicates == EchoBytes(segs, policy, a, b)
    ensures packets == CellPackets(segs, a, b)
  {
    hide *;
    ActiveIndices(segs, a, b);
    var selected := Raw(segs[chosen], a, b);
    conflict, duplicates, packets := false, 0, {};
    CompareStart(segs, chosen, selected, a, b);
    OneMore(0, b - a);
    CompareDone(segs, policy, a, b);
    var todo := active;
    ghost var done: set<int> := {};
    while todo != {}
      invariant todo <= active && done == active - todo
      invariant conflict <==> AnyDiffers(segs, done, selected, a, b)
      invariant duplicates == Scaled(|EchoesIn(segs, done, chosen, selected, a, b)|, b - a)
      invariant packets == PacketsIn(segs, done, a, b)
      decreases todo
    {
      Inhabited(todo);
      var i :| i in todo;
      var raw := Raw(segs[i], a, b);
      CompareStep(segs, done, i, chosen, selected, a, b);
      OneMore(|EchoesIn(segs, done, chosen, selected, a, b)|, b - a);
      if raw != selected {
        conflict := true;
      }
      if i != chosen && raw == selected {
        duplicates := duplicates + |raw|;
      }
      packets := packets + SegmentPackets(segs[i], a, b);
      todo := todo - {i};
      done := done + {i};
    }
    assert done == active;
  }

  // ---------------------------------------------------------------- the sweep

  /** The segments open just before a boundary: begun earlier and not ended earlier. */
  ghost function OpenBefore(segs: seq<Segment>, x: int): set<int> {
    set i | 0 <= i < |segs| && segs[i].start < x <= segs[i].End()
  }

  /** Retire the segments that end here, admit those that start here. */
  lemma {:induction false} ActiveUpdate(segs: seq<Segment>, e: Event, x: int)
    requires EventOk(segs, |segs|, x, e)
    requires forall i | 0 <= i < |segs| :: segs[i].start < segs[i].End()
    ensures OpenBefore(segs, x) - (set i | i in e.ends) + (set i | i in e.starts) == Active(segs, x)
  {
  }

  lemma {:induction false} OpenAtNext(segs: seq<Segment>, bs: seq<int>, k: nat)
    requires Bounded(segs, bs) && k + 1 < |bs|
    ensures OpenBefore(segs, bs[k + 1]) == Active(segs, bs[k])
  {
    forall i | 0 <= i < |segs| ensures i in OpenBefore(segs, bs[k + 1]) <==> i in Active(segs, bs[k]) {
      NoBoundaryInside(bs, k, segs[i].start);
      NoBoundaryInside(bs, k, segs[i].End());
    }
  }

  lemma {:induction false} NoneOpenAtFirst(segs: seq<Segment>, bs: seq<int>)
    requires Bounded(segs, bs) && |bs| > 0
    ensures OpenBefore(segs, bs[0]) == {}
  {
    forall i | 0 <= i < |segs| ensures bs[0] <= segs[i].start {
      WithinEnds(bs, segs[i].start);
    }
  }

  /** The chunk an emitted cell would extend never exceeds the stream span. */
  lemma {:induction false} ExtensionFits(segs: seq<Segment>, policy: OverlapPolicy, chunk: Chunk, low: int, high: int, b: int)
    requires WellFormed(segs) && ChunkOk(segs, policy, chunk) && b <= high
    requires forall i | 0 <= i < |segs| :: low <= segs[i].start
    ensures b - chunk.offset <= high - low
  {
    hide At, Tiled, Valid, Choose;
    assert Active(segs, chunk.offset) != {};
    var i := Choose(FirstObserved, Active(segs, chunk.offset));
    assert low <= segs[i].start <= chunk.offset;
  }

  /** Emit one cell's bytes; neither the slice nor the append can fail. */
  method EmitCell(segs: seq<Segment>, policy: OverlapPolicy, chunks: seq<Chunk>, chosen: int, a: int, b: int,
                  ghost low: int, ghost high: int, span: nat) returns (out: seq<Chunk>)
    requires WellFormed(segs) && 0 <= chosen < |segs| && segs[chosen].start <= a < b <= segs[chosen].End()
    requires AllChunksOk(segs, policy, chunks)
    requires Extent(segs, low, high) && high - low <= span < USIZE_MAX
    ensures out == Emit(chunks, a, Part(segs[chosen], a, b))
  {
    hide Tiled, SliceSpans, AppendSpans, PartOk;
    var s := segs[chosen];
    SliceValid(s.bytes, a - s.start, b - s.start);
    var sliced := Slice(s.bytes, a - s.start, b - s.start);
    assert sliced.Ok?;
    var bytes := sliced.value;
    assert bytes == Part(s, a, b);
    if chunks != [] && chunks[|chunks| - 1].offset + |chunks[|chunks| - 1].bytes.data| == a {
      var last := chunks[|chunks| - 1];
      assert ChunkOk(segs, policy, last);
      ExtensionFits(segs, policy, last, low, high, b);
      LayoutOf(segs, policy, last);
      var joined := Append(last.bytes, bytes, span);
      assert joined.Ok?;
      out := chunks[..|chunks| - 1] + [Chunk(last.offset, joined.value)];
    } else {
      out := chunks + [Chunk(a, bytes)];
    }
  }

  lemma {:induction false} LayoutOf(segs: seq<Segment>, policy: OverlapPolicy, chunk: Chunk)
    requires WellFormed(segs) && ChunkOk(segs, policy, chunk)
    ensures chunk.bytes.layoutValid
  {
  }

  /** How one cell extends each part of the result. */
  lemma {:induction false} SweepStep(segs: seq<Segment>, policy: OverlapPolicy, bs: seq<int>, k: nat)
    requires WellFormed(segs) && Bounded(segs, bs) && k + 1 < |bs|
    ensures var a, b := bs[k], bs[k + 1];
            var active := Active(segs, a);
            if active == {} then
              && ChunksTo(segs, policy, bs, k + 1) == ChunksTo(segs, policy, bs, k)
              && GapsTo(segs, policy, bs, k + 1) == GapsTo(segs, policy, bs, k) + [Gap(a, b, MissingBytes)]
              && ConflictsTo(segs, policy, bs, k + 1) == ConflictsTo(segs, policy, bs, k)
              && DuplicatesTo(segs, policy, bs, k + 1) == DuplicatesTo(segs, policy, bs, k)
            else
              var chosen := Choose(policy, active);
              var conflict := Disagree(segs, active, chosen, a, b);
              var rejected := conflict && policy == RejectConflict;
              && ChunksTo(segs, policy, bs, k + 1)
                 == (if rejected then ChunksTo(segs, policy, bs, k)
                     else Emit(ChunksTo(segs, policy, bs, k), a, Part(segs[chosen], a, b)))
              && GapsTo(segs, policy, bs, k + 1)
                 == GapsTo(segs, policy, bs, k) + (if rejected then [Gap(a, b, ConflictingBytes)] else [])
              && ConflictsTo(segs, policy, bs, k + 1)
                 == ConflictsTo(segs, policy, bs, k)
                    + (if conflict then [Conflict(a, b, CellPackets(segs, a, b))] else [])
              && DuplicatesTo(segs, policy, bs, k + 1)
                 == DuplicatesTo(segs, policy, bs, k) + EchoBytes(segs, policy, a, b)
  {
    hide Emit, Part, CellPackets, Scaled, Choose, Disagree, Active, WellFormed, Bounded;
    OneMore(0, bs[k + 1] - bs[k]);
    ChosenInRange(segs, policy, bs[k]);
  }

  lemma {:induction false} ChosenInRange(segs: seq<Segment>, policy: OverlapPolicy, a: int)
    ensures Active(segs, a) != {} ==> 0 <= Choose(policy, Active(segs, a)) < |segs|
  {
  }

  lemma {:induction false} CellCovered(segs: seq<Segment>, bs: seq<int>, k: nat)
    requires Bounded(segs, bs) && k + 1 < |bs|
    ensures bs[k] < bs[k + 1]
    ensures forall i | i in Active(segs, bs[k]) ::
              0 <= i < |segs| && segs[i].start <= bs[k] && bs[k + 1] <= segs[i].End()
  {
    forall i | i in Active(segs, bs[k]) ensures bs[k + 1] <= segs[i].End() {
      CellUniform(segs, bs, k, i, bs[k]);
    }
  }

  /** The extent every segment of a sound assembler stays inside. */
  ghost predicate Extent(segs: seq<Segment>, low: int, high: int) {
    forall i | 0 <= i < |segs| :: low <= segs[i].start < segs[i].End() <= high
  }

  method SweepCells(segs: seq<Segment>, policy: OverlapPolicy, bs: seq<int>, events: map<int, Event>,
                    ghost low: int, ghost high: int, span: nat)
    returns (chunks: seq<Chunk>, gaps: seq<Gap>, conflicts: seq<Conflict>, duplicates: int)
    requires WellFormed(segs) && Bounded(segs, bs) && |bs| > 0 && bs[|bs| - 1] - bs[0] <= USIZE_MAX
    requires EventsOk(segs, |segs|, events) && forall k | 0 <= k < |bs| :: bs[k] in events
    requires Extent(segs, low, high) && high - low <= span < USIZE_MAX
    ensures chunks == ChunksTo(segs, policy, bs, |bs| - 1)
    ensures gaps == GapsTo(segs, policy, bs, |bs| - 1)
    ensures conflicts == ConflictsTo(segs, policy, bs, |bs| - 1)
    ensures duplicates == DuplicatesTo(segs, policy, bs, |bs| - 1)
  {
    hide *;
    chunks, gaps, conflicts, duplicates := [], [], [], 0;
    SweepStart(segs, policy, bs);
    NoneOpenAtFirst(segs, bs);
    var active: set<int> := {};
    var k := 0;
    while k < |bs| - 1
      invariant 0 <= k <= |bs| - 1
      invariant active == OpenBefore(segs, bs[k])
      invariant chunks == ChunksTo(segs, policy, bs, k) && gaps == GapsTo(segs, policy, bs, k)
      invariant conflicts == ConflictsTo(segs, policy, bs, k) && duplicates == DuplicatesTo(segs, policy, bs, k)
    {
      var a, b := bs[k], bs[k + 1];
      var e := events[a];
      EventAt(segs, events, a);
      ActiveUpdateIn(segs, e, a, low, high);
      active := active - (set i | i in e.ends) + (set i | i in e.starts);
      SweepStep(segs, policy, bs, k);
      CellCovered(segs, bs, k);
      OpenAtNext(segs, bs, k);
      if active == {} {
        gaps := gaps + [Gap(a, b, MissingBytes)];
      } else {
        var chosen := Choose(policy, active);
        var conflict, echoes, packets := CompareCell(segs, policy, active, chosen, a, b);
        duplicates := duplicates + echoes;
        if conflict {
          conflicts := conflicts + [Conflict(a, b, packets)];
        }
        if conflict && policy == RejectConflict {
          gaps := gaps + [Gap(a, b, ConflictingBytes)];
        } else {
          SpanSoFar(segs, bs, k);
          ChunksSound(segs, policy, bs, k);
          chunks := EmitCell(segs, policy, chunks, chosen, a, b, low, high, span);
        }
      }
      k := k + 1;
    }
  }

  lemma {:induction false} SweepStart(segs: seq<Segment>, policy: OverlapPolicy, bs: seq<int>)
    requires |bs| > 0
    ensures ChunksTo(segs, policy, bs, 0) == [] && GapsTo(segs, policy, bs, 0) == []
    ensures ConflictsTo(segs, policy, bs, 0) == [] && DuplicatesTo(segs, policy, bs, 0) == 0
  {
  }

  lemma {:induction false} EventAt(segs: seq<Segment>, events: map<int, Event>, x: int)
    requires EventsOk(segs, |segs|, events) && x in events
    ensures EventOk(segs, |segs|, x, events[x])
  {
  }

  lemma {:induction false} ActiveUpdateIn(segs: seq<Segment>, e: Event, x: int, low: int, high: int)
    requires EventOk(segs, |segs|, x, e) && Extent(segs, low, high)
    ensures OpenBefore(segs, x) - (set i | i in e.ends) + (set i | i in e.starts) == Active(segs, x)
  {
    ActiveUpdate(segs, e, x);
  }

  lemma {:induction false} SpanSoFar(segs: seq<Segment>, bs: seq<int>, k: nat)
    requires Bounded(segs, bs) && k < |bs|
    ensures bs[k] - bs[0] <= bs[|bs| - 1] - bs[0]
  {
  }

  // ---------------------------------------------------------------- the assembler

  class StreamAssembler {
    var base: Option<u32>
    var anchoredBySyn: bool
    var segments: seq<Segment>
    var min: int
    var max: int
    var fin: Option<int>
    var retained: nat
    const limits: Limits

    ghost function State(): Assembly
      reads this
    {
      Assembly(base, anchoredBySyn, segments, min, max, fin, retained)
    }

    constructor (syn: Option<u32>, limits: Limits)
      ensures State() == NewAssembly(syn) && this.limits == limits && Sound(State(), limits)
    {
      this.base := if syn.Some? then Some(Wrap32(syn.value + 1)) else None;
      this.anchoredBySyn := syn.Some?;
      this.segments := [];
      this.min, this.max := 0, 0;
      this.fin := None;
      this.retained := 0;
      this.limits := limits;
    }

    method Push(sequence: u32, bytes: Evidence) returns (r: Result<()>)
      requires Sound(State(), limits)
      modifies this
      ensures Sound(State(), limits)
      ensures var spec := PushSpec(old(State()), limits, sequence, bytes);
              if spec.Ok? then r == Ok(()) && State() == spec.value
              else r == Err(spec.error) && State() == old(State())
    {
      hide Sound, Valid, SequenceDelta;
      if PushSpec(State(), limits, sequence, bytes).Ok? {
        PushSound(State(), limits, sequence, bytes);
      }
      if !limits.Valid() {
        return Err(LIMITS_ERROR);
      }
      if bytes.data == [] {
        return Ok(());
      }
      if !Valid(bytes) {
        return Err(LAYOUT_ERROR);
      }
      var total := retained + |bytes.data|;
      if total > limits.maxRetainedPayload {
        return Err(Limit("stream_retained_payload"));
      }
      if |segments| >= limits.maxSegmentsPerFlow {
        return Err(Limit("stream_segments"));
      }
      var origin := if base.Some? then base.value else sequence;
      var delta := SequenceDelta(sequence, origin);
      if delta.Err? {
        return Err(delta.error);
      }
      var start := delta.value;
      var low := Min(min, start);
      var high := Max(max, start + |bytes.data|);
      if high - low > limits.maxStreamSpan {
        return Err(Limit("stream_span"));
      }
      if anchoredBySyn && start < 0 {
        return Err(Error(SequenceAmbiguous, "sequence"));
      }
      base := Some(origin);
      retained := total;
      min := low;
      max := high;
      segments := segments + [Segment(start, bytes)];
      r := Ok(());
    }

    method EndAt(sequence: u32) returns (r: Result<()>)
      requires Sound(State(), limits)
      modifies this
      ensures Sound(State(), limits)
      ensures var spec := EndSpec(old(State()), limits, sequence);
              if spec.Ok? then r == Ok(()) && State() == spec.value
              else r == Err(spec.error) && State() == old(State())
    {
      hide Sound, SequenceDelta;
      if EndSpec(State(), limits, sequence).Ok? {
        EndSound(State(), limits, sequence);
      }
      if !limits.Valid() {
        return Err(LIMITS_ERROR);
      }
      var origin := if base.Some? then base.value else sequence;
      var delta := SequenceDelta(sequence, origin);
      if delta.Err? {
        return Err(delta.error);
      }
      var end := delta.value;
      if end < min || end - min > limits.maxStreamSpan {
        return Err(Limit("fin_sequence"));
      }
      if fin.Some? && fin.value != end {
        return Err(Error(SequenceAmbiguous, "fin_sequence"));
      }
      base := Some(origin);
      fin := Some(end);
      r := Ok(());
    }

    method Finish(policy: OverlapPolicy) returns (r: Result<StreamResult>)
      requires Sound(State(), limits)
      ensures r == FinishSpec(State(), limits, policy)
      ensures limits.Valid() ==> (r.Err? <==> segments != [] && fin.Some? && max > fin.value)
    {
      r := FinishAssembly(Assembly(base, anchoredBySyn, segments, min, max, fin, retained), limits, policy);
    }
  }

  /**
   Finishing consumes the assembler, so it works on the fields' final values. With valid limits it
   fails exactly for payload beyond the FIN: the limit on appending to a chunk cannot be reached.
   */
  method FinishAssembly(a: Assembly, limits: Limits, policy: OverlapPolicy) returns (r: Result<StreamResult>)
    requires Sound(a, limits)
    ensures r == FinishSpec(a, limits, policy)
    ensures limits.Valid() ==> (r.Err? <==> a.segments != [] && a.fin.Some? && a.max > a.fin.value)
  {
    hide *;
    if !limits.Valid() {
      FinishCases(a, limits, policy);
      return Err(LIMITS_ERROR);
    }
    if a.segments == [] {
      var gaps := if a.anchored && a.fin.Some? && a.fin.value > 0 then [Gap(0, a.fin.value, MissingBytes)] else [];
      FinishCases(a, limits, policy);
      return Ok(StreamResult(a.base, a.anchored, [], gaps, [], 0));
    }
    if a.fin.Some? && a.max > a.fin.value {
      FinishCases(a, limits, policy);
      return Err(Error(SequenceAmbiguous, "fin_sequence"));
    }
    CutsBound(a, limits);
    SoundExtent(a, limits);
    var events := BuildEvents(a.segments, a.anchored, a.fin);
    var bs := Sorted(events.Keys);
    BoundariesAre(a, bs, events.Keys);
    var chunks, gaps, conflicts, duplicates :=
      SweepCells(a.segments, policy, bs, events, a.min, a.max, limits.maxStreamSpan);
    FinishCases(a, limits, policy);
    SweepAllIs(a, policy, bs);
    r := Ok(StreamResult(a.base, a.anchored, chunks, gaps, conflicts, duplicates));
  }

  lemma {:induction false} FinishCases(a: Assembly, limits: Limits, policy: OverlapPolicy)
    ensures FinishSpec(a, limits, policy) ==
            if !limits.Valid() then Err(LIMITS_ERROR)
            else if a.segments == [] then
              Ok(StreamResult(a.base, a.anchored, [],
                              if a.anchored && a.fin.Some? && a.fin.value > 0
                              then [Gap(0, a.fin.value, MissingBytes)] else [], [], 0))
            else if a.fin.Some? && a.max > a.fin.value then Err(Error(SequenceAmbiguous, "fin_sequence"))
            else Ok(SweepAll(a, policy))
  {
    hide SweepAll;
  }

  lemma {:induction false} SweepAllIs(a: Assembly, policy: OverlapPolicy, bs: seq<int>)
    requires a.segments != [] && bs == BoundariesOf(a) && |bs| > 0
    ensures SweepAll(a, policy)
         == StreamResult(a.base, a.anchored,
                         ChunksTo(a.segments, policy, bs, |bs| - 1), GapsTo(a.segments, policy, bs, |bs| - 1),
                         ConflictsTo(a.segments, policy, bs, |bs| - 1), DuplicatesTo(a.segments, policy, bs, |bs| - 1))
  {
    hide BoundariesOf, ChunksTo, GapsTo, ConflictsTo, DuplicatesTo;
  }

  lemma {:induction false} BoundariesAre(a: Assembly, bs: seq<int>, keys: set<int>)
    requires keys == Cuts(a.segments, a.anchored, a.fin) && bs == Sorted(keys)
    ensures bs == BoundariesOf(a) && forall k | 0 <= k < |bs| :: bs[k] in keys
  {
  }

  lemma {:induction false} SoundExtent(a: Assembly, limits: Limits)
    requires Sound(a, limits) && limits.Valid()
    ensures Extent(a.segments, a.min, a.max) && a.max - a.min <= limits.maxStreamSpan < USIZE_MAX
    ensures forall i | 0 <= i < |a.segments| :: a.segments[i].start < a.segments[i].End()
  {
    forall i | 0 <= i < |a.segments|
      ensures a.min <= a.segments[i].start < a.segments[i].End() <= a.max
    {
      assert SegmentFits(a, a.segments[i]);
    }
  }
}
