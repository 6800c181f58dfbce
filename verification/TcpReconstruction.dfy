/** From the segments of a generation to its two byte streams, and back to the packets of every byte. */
module TcpReconstruction {
  import opened Common
  import opened Provenance
  import opened StreamSweep
  import opened StreamAssembly
  import opened StreamOrder
  import opened StreamEngine
  import opened EngineModel
  import Engine
  import Tcp = TcpTracking
  import TcpSafety

  // ---------------------------------------------------------------- what each direction observes

  /** A segment is its payload and, with FIN, the position behind it. */
  function ArriveOf(s: Tcp.Segment): seq<Arrival> {
    [Payload(s.DataSequence(), s.payload)] + if s.fin then [Fin(Wrap32(s.DataSequence() + |s.payload.data|))] else []
  }

  /** What direction d observes in the first k segments. */
  function ArrivalsOf(inputs: seq<Tcp.Input>, d: Direction, k: nat): seq<Arrival>
    requires k <= |inputs|
  {
    if k == 0 then []
    else ArrivalsOf(inputs, d, k - 1) + if inputs[k - 1].direction == d then ArriveOf(inputs[k - 1].segment) else []
  }

  function Fed(f: Tcp.Flow, limits: Limits, d: Direction, k: nat): Result<Assembly>
    requires k <= |f.inputs|
  {
    TakeAll(NewAssembly(f.syn.At(d)), limits, ArrivalsOf(f.inputs, d, k))
  }

  /** One direction of a generation, rebuilt from everything it observed; the first refusal ends it. */
  function Reconstruct(f: Tcp.Flow, d: Direction, limits: Limits, policy: OverlapPolicy): Result<StreamResult> {
    var a :- Fed(f, limits, d, |f.inputs|);
    FinishSpec(a, limits, policy)
  }

  lemma {:induction false} TakeAppend(a: Assembly, limits: Limits, xs: seq<Arrival>, ys: seq<Arrival>)
    ensures TakeAll(a, limits, xs + ys)
            == match TakeAll(a, limits, xs) case Ok(b) => TakeAll(b, limits, ys) case Err(e) => Err(e)
  {
    hide Take;
    if ys == [] {
      assert xs + ys == xs;
    } else {
      var init, last := ys[..|ys| - 1], ys[|ys| - 1];
      TakeAppend(a, limits, xs, init);
      assert (xs + ys)[..|xs + ys| - 1] == xs + init && (xs + ys)[|xs + ys| - 1] == last;
    }
  }

  lemma {:induction false} FedStep(f: Tcp.Flow, limits: Limits, d: Direction, k: nat)
    requires k < |f.inputs|
    ensures Fed(f, limits, d, k + 1)
            == if f.inputs[k].direction != d || Fed(f, limits, d, k).Err? then Fed(f, limits, d, k)
               else TakeAll(Fed(f, limits, d, k).value, limits, ArriveOf(f.inputs[k].segment))
  {
    hide TakeAll, ArriveOf;
    if f.inputs[k].direction == d {
      TakeAppend(NewAssembly(f.syn.At(d)), limits, ArrivalsOf(f.inputs, d, k), ArriveOf(f.inputs[k].segment));
    } else {
      assert ArrivalsOf(f.inputs, d, k) + [] == ArrivalsOf(f.inputs, d, k);
    }
  }

  lemma {:induction false} TakeOne(a: Assembly, limits: Limits, s: Tcp.Segment)
    ensures TakeAll(a, limits, ArriveOf(s))
            == match PushSpec(a, limits, s.DataSequence(), s.payload)
               case Err(e) => Err(e)
               case Ok(b) => if s.fin then EndSpec(b, limits, Wrap32(s.DataSequence() + |s.payload.data|)) else Ok(b)
  {
    hide PushSpec, EndSpec;
    var x := Payload(s.DataSequence(), s.payload);
    assert TakeAll(a, limits, []) == Ok(a);
    assert [x][..0] == [];
    assert TakeAll(a, limits, [x]) == Take(a, limits, x);
    if s.fin {
      assert ArriveOf(s)[..1] == [x];
    } else {
      assert ArriveOf(s) == [x];
    }
  }

  // ---------------------------------------------------------------- the two assemblers

  /** Push a segment's payload and its FIN; after a refusal the stream is not used again. */
  method Feed(stream: StreamAssembler, s: Tcp.Segment) returns (r: Result<()>)
    requires Sound(stream.State(), stream.limits)
    modifies stream
    ensures Sound(stream.State(), stream.limits)
    ensures var spec := TakeAll(old(stream.State()), stream.limits, ArriveOf(s));
            if spec.Ok? then r == Ok(()) && stream.State() == spec.value else r == Err(spec.error)
  {
    hide Sound, PushSpec, EndSpec, TakeAll, ArriveOf;
    TakeOne(stream.State(), stream.limits, s);
    r := stream.Push(s.DataSequence(), s.payload);
    if r.Ok? && s.fin {
      r := stream.EndAt(Wrap32(s.DataSequence() + |s.payload.data|));
    }
  }

  function Rebuilt<T>(r: Result<T>): Option<T> {
    if r.Ok? then Some(r.value) else None
  }

  /** Whatever was refused is reported, and nothing else is. */
  ghost predicate Reported(f: Tcp.Flow, limits: Limits, policy: OverlapPolicy, errors: seq<Error>) {
    var forward, reverse := Reconstruct(f, Forward, limits, policy), Reconstruct(f, Reverse, limits, policy);
    && |errors| == (if forward.Err? then 1 else 0) + (if reverse.Err? then 1 else 0)
    && (forward.Err? ==> forward.error in errors) && (reverse.Err? ==> reverse.error in errors)
  }

  /** One direction while its segments are fed. */
  ghost predicate Feeding(f: Tcp.Flow, limits: Limits, d: Direction, k: nat, state: Assembly, refused: Option<Error>)
    requires k <= |f.inputs|
  {
    Fed(f, limits, d, k) == if refused.Some? then Err(refused.value) else Ok(state)
  }

  ghost predicate Counted(refused: Both<Option<Error>>, errors: seq<Error>) {
    && |errors| == (if refused.forward.Some? then 1 else 0) + (if refused.reverse.Some? then 1 else 0)
    && (refused.forward.Some? ==> refused.forward.value in errors) && (refused.reverse.Some? ==> refused.reverse.value in errors)
  }

  lemma {:induction false} FeedingBegins(f: Tcp.Flow, limits: Limits, d: Direction)
    ensures Feeding(f, limits, d, 0, NewAssembly(f.syn.At(d)), None)
  {
  }

  /** Rebuild both directions of a generation. */
  method FinishFlow(f: Tcp.Flow, limits: Limits, policy: OverlapPolicy) returns (streams: Both<Option<StreamResult>>, errors: seq<Error>)
    ensures streams.forward == Rebuilt(Reconstruct(f, Forward, limits, policy))
    ensures streams.reverse == Rebuilt(Reconstruct(f, Reverse, limits, policy))
    ensures Reported(f, limits, policy, errors)
  {
    hide Sound, Fed, TakeAll, ArriveOf, FinishSpec;
    var a := new StreamAssembler(f.syn.forward, limits);
    var b := new StreamAssembler(f.syn.reverse, limits);
    var refused: Both<Option<Error>> := Both(None, None);
    errors := [];
    FeedingBegins(f, limits, Forward);
    FeedingBegins(f, limits, Reverse);
    for k := 0 to |f.inputs|
      invariant fresh(a) && fresh(b) && a != b && a.limits == limits == b.limits
      invariant Sound(a.State(), limits) && Sound(b.State(), limits)
      invariant Feeding(f, limits, Forward, k, a.State(), refused.forward)
      invariant Feeding(f, limits, Reverse, k, b.State(), refused.reverse)
      invariant Counted(refused, errors)
    {
      FedStep(f, limits, Forward, k);
      FedStep(f, limits, Reverse, k);
      var x := f.inputs[k];
      if refused.At(x.direction).Some? {
        continue;
      }
      var step: Result<()>;
      if x.direction == Forward {
        step := Feed(a, x.segment);
      } else {
        step := Feed(b, x.segment);
      }
      if step.Err? {
        refused := refused.With(x.direction, Some(step.error));
        errors := errors + [step.error];
      }
    }
    var first, second := None, None;
    if refused.forward.None? {
      var r := a.Finish(policy);
      first := Rebuilt(r);
      errors := errors + if r.Err? then [r.error] else [];
    }
    if refused.reverse.None? {
      var r := b.Finish(policy);
      second := Rebuilt(r);
      errors := errors + if r.Err? then [r.error] else [];
    }
    streams := Both(first, second);
  }

  // ---------------------------------------------------------------- where the bytes come from

  ghost predicate ArrivalsFrom(xs: seq<Arrival>, packets: set<PacketId>) {
    forall i | 0 <= i < |xs| :: xs[i].Payload? ==> Packets(xs[i].bytes) <= packets
  }

  ghost predicate SegmentsFrom(a: Assembly, packets: set<PacketId>) {
    forall i | 0 <= i < |a.segments| :: Packets(a.segments[i].bytes) <= packets
  }

  lemma {:induction false} TakeFrom(a: Assembly, limits: Limits, x: Arrival, packets: set<PacketId>)
    requires Sound(a, limits) && SegmentsFrom(a, packets) && (x.Payload? ==> Packets(x.bytes) <= packets)
    ensures Take(a, limits, x).Ok? ==> Sound(Take(a, limits, x).value, limits) && SegmentsFrom(Take(a, limits, x).value, packets)
  {
    hide Sound, Packets, SequenceDelta, Valid;
    if Take(a, limits, x).Ok? {
      match x {
        case Payload(sequence, bytes) => PushSound(a, limits, sequence, bytes);
        case Fin(sequence) => EndSound(a, limits, sequence);
      }
    }
  }

  lemma {:induction false} TakeAllFrom(a: Assembly, limits: Limits, xs: seq<Arrival>, packets: set<PacketId>)
    requires Sound(a, limits) && SegmentsFrom(a, packets) && ArrivalsFrom(xs, packets)
    ensures TakeAll(a, limits, xs).Ok? ==> Sound(TakeAll(a, limits, xs).value, limits) && SegmentsFrom(TakeAll(a, limits, xs).value, packets)
  {
    hide Sound, SegmentsFrom, Take, Packets;
    if xs != [] {
      var init, last := xs[..|xs| - 1], xs[|xs| - 1];
      TakeAllFrom(a, limits, init, packets);
      if TakeAll(a, limits, init).Ok? {
        assert xs[|xs| - 1].Payload? ==> Packets(xs[|xs| - 1].bytes) <= packets;
        TakeFrom(TakeAll(a, limits, init).value, limits, last, packets);
      }
    }
  }

  lemma {:induction false} InputsFrom(f: Tcp.Flow, d: Direction, k: nat)
    requires TcpSafety.Sourced(f) && k <= |f.inputs|
    ensures ArrivalsFrom(ArrivalsOf(f.inputs, d, k), f.packets)
  {
    hide Packets;
    if k > 0 {
      InputsFrom(f, d, k - 1);
      assert Packets(f.inputs[k - 1].segment.payload) <= f.packets;
    }
  }

  lemma {:induction false} StartsSound(syn: Option<u32>, limits: Limits, packets: set<PacketId>)
    ensures Sound(NewAssembly(syn), limits) && SegmentsFrom(NewAssembly(syn), packets)
  {
  }

  /** The packet of a byte is one of the evidence's packets. */
  lemma {:induction false} OriginNamed(e: Evidence, p: nat)
    requires Valid(e) && p < |e.data|
    ensures At(e, p).origin.packet in Packets(e)
  {
    WindowPacketsExact(e, 0, |e.data|);
    assert At(e, p).origin.packet in WindowPackets(e.spans, 0, |e.data|);
  }

  /** A byte of a chunk is the byte of some segment, with the same origin. */
  lemma {:induction false} ChunkByte(segs: seq<Segment>, policy: OverlapPolicy, c: Chunk, p: int, packets: set<PacketId>)
    requires WellFormed(segs) && ChunkOk(segs, policy, c) && c.offset <= p < c.End()
    requires forall i | 0 <= i < |segs| :: Packets(segs[i].bytes) <= packets
    ensures At(c.bytes, p - c.offset).origin.packet in packets
  {
    hide Packets, At, Tiled;
    assert Active(segs, p) != {} && At(c.bytes, p - c.offset) == SpecAt(segs, policy, p);
    ChosenCovers(segs, policy, p);
    var i := Choose(policy, Active(segs, p));
    OriginNamed(segs[i].bytes, p - segs[i].start);
  }

  lemma {:induction false} ChosenCovers(segs: seq<Segment>, policy: OverlapPolicy, p: int)
    requires Active(segs, p) != {}
    ensures var i := Choose(policy, Active(segs, p));
            0 <= i < |segs| && Covers(segs[i], p)
  {
    assert Choose(policy, Active(segs, p)) in Active(segs, p);
  }

  /** Every byte of a rebuilt stream comes from a packet of its own flow. */
  lemma {:induction false} StreamFromFlow(f: Tcp.Flow, d: Direction, limits: Limits, policy: OverlapPolicy, c: nat, p: int)
    requires TcpSafety.Sourced(f) && Reconstruct(f, d, limits, policy).Ok?
    requires c < |Reconstruct(f, d, limits, policy).value.chunks|
    requires var chunk := Reconstruct(f, d, limits, policy).value.chunks[c];
             chunk.offset <= p < chunk.End()
    ensures var chunk := Reconstruct(f, d, limits, policy).value.chunks[c];
            Valid(chunk.bytes) && At(chunk.bytes, p - chunk.offset).origin.packet in f.packets
  {
    hide TcpSafety.Sourced, Fed, Sound, FinishSpec, SegmentsFrom, AllChunksOk, WellFormed, At, Tiled;
    FedFrom(f, limits, d);
    var a := Fed(f, limits, d, |f.inputs|).value;
    NoChunks(a, limits, policy);
    FinishedChunks(a, limits, policy);
    ChunkSegments(a, limits, policy, c, f.packets, p);
  }

  lemma {:induction false} FedFrom(f: Tcp.Flow, limits: Limits, d: Direction)
    requires TcpSafety.Sourced(f)
    ensures var a := Fed(f, limits, d, |f.inputs|);
            a.Ok? ==> Sound(a.value, limits) && SegmentsFrom(a.value, f.packets)
  {
    hide TcpSafety.Sourced, TakeAll, Sound, SegmentsFrom, ArrivalsFrom;
    InputsFrom(f, d, |f.inputs|);
    StartsSound(f.syn.At(d), limits, f.packets);
    TakeAllFrom(NewAssembly(f.syn.At(d)), limits, ArrivalsOf(f.inputs, d, |f.inputs|), f.packets);
  }

  lemma {:induction false} FinishedChunks(a: Assembly, limits: Limits, policy: OverlapPolicy)
    requires Sound(a, limits) && a.segments != [] && FinishSpec(a, limits, policy).Ok?
    ensures WellFormed(a.segments) && AllChunksOk(a.segments, policy, FinishSpec(a, limits, policy).value.chunks)
  {
    hide Sound, FinishSpec, WellFormed, AllChunksOk, Separated, GapsOrdered;
    FinishReconstructs(a, limits, policy);
  }

  lemma {:induction false} NoChunks(a: Assembly, limits: Limits, policy: OverlapPolicy)
    ensures a.segments == [] && FinishSpec(a, limits, policy).Ok? ==> FinishSpec(a, limits, policy).value.chunks == []
  {
  }

  lemma {:induction false} ChunkSegments(a: Assembly, limits: Limits, policy: OverlapPolicy, c: nat, packets: set<PacketId>, p: int)
    requires SegmentsFrom(a, packets) && FinishSpec(a, limits, policy).Ok? && c < |FinishSpec(a, limits, policy).value.chunks|
    requires WellFormed(a.segments) && AllChunksOk(a.segments, policy, FinishSpec(a, limits, policy).value.chunks)
    requires var chunk := FinishSpec(a, limits, policy).value.chunks[c];
             chunk.offset <= p < chunk.End()
    ensures var chunk := FinishSpec(a, limits, policy).value.chunks[c];
            Valid(chunk.bytes) && At(chunk.bytes, p - chunk.offset).origin.packet in packets
  {
    hide FinishSpec, WellFormed, At, Tiled, Packets;
    var chunk := FinishSpec(a, limits, policy).value.chunks[c];
    assert ChunkOk(a.segments, policy, chunk);
    ChunkByte(a.segments, policy, chunk, p, packets);
  }

  /** Position p of a chunk shows a byte of a captured packet that was assigned to flow f. */
  ghost predicate Traced(packets: seq<Observation>, chunk: Chunk, p: int, f: nat) {
    && Valid(chunk.bytes) && chunk.offset <= p < chunk.End()
    && var id := At(chunk.bytes, p - chunk.offset).origin.packet;
       Known(packets, id) && InFlow(packets[id.frame - 1].disposition, f)
  }

  /**
   From the byte of a stream back to the capture: in an analysis whose flows hold exactly the packets
   assigned to them, every rebuilt byte comes from a known packet with that flow as its disposition.
   */
  lemma {:induction false} ByteProvenance(
      packets: seq<Observation>, flows: seq<Tcp.Flow>, f: nat, d: Direction, limits: Limits, policy: OverlapPolicy, c: nat, p: int)
    requires f < |flows| && Reconstruct(flows[f], d, limits, policy).Ok? && c < |Reconstruct(flows[f], d, limits, policy).value.chunks|
    requires var chunk := Reconstruct(flows[f], d, limits, policy).value.chunks[c];
             chunk.offset <= p < chunk.End()
    requires Engine.Partitioned(packets, flows) && TcpSafety.AllSourced(flows)
    ensures Traced(packets, Reconstruct(flows[f], d, limits, policy).value.chunks[c], p, f)
  {
    hide Reconstruct, At, Tiled, TcpSafety.Sourced;
    StreamFromFlow(flows[f], d, limits, policy, c, p);
    var chunk := Reconstruct(flows[f], d, limits, policy).value.chunks[c];
    var id := At(chunk.bytes, p - chunk.offset).origin.packet;
    assert Known(packets, id);
    assert packets[id.frame - 1].id in flows[f].packets;
  }
}
