/** A reachable tuple in which a bare SYN is placed where its sequence number does not stand. */
module TupleExamples {
  import opened Common
  import opened Codec
  import opened HistoryModel
  import opened HistoryInput
  import opened Epochs
  import opened TupleStates
  import opened TupleSafety
  import Lexicographic

  const KEY: Key := Key(0, 0, None, [], [], Endpoint(V4([10, 0, 0, 1]), 1), Endpoint(V4([11, 0, 0, 1]), 2))

  /** A forward segment without options or payload. */
  function Segment(sequence: u16, flags: byte, frame: u64): TcpInput {
    TcpInput(KEY, 0, frame, None,
             [0, 1, 0, 2, 0, 0, sequence / 256, sequence % 256, 0, 0, 0, 0, 0x50, flags, 0, 0, 0, 0, 0, 0],
             [Witness(0, 20, frame, 0, 0, 0)])
  }

  function Observed(sequence: u16, flags: byte, frame: u64): Packet {
    Packet(KEY, Forward, frame, None, sequence, 0, Bit(flags, 2), Bit(flags, 16), Bit(flags, 1), Bit(flags, 4), 0, 0)
  }

  lemma {:induction false} KeyCanonical(o: Opaque)
    ensures Canonical(KEY, o)
  {
    var a, b := EndpointOrder(KEY.a), EndpointOrder(KEY.b);
    assert a == [4, 10, 0, 0, 1, 1] && b == [4, 11, 0, 0, 1, 2];
    assert !Lexicographic.Less(b[1..], a[1..]);
  }

  lemma {:induction false} SegmentObserved(sequence: u16, flags: byte, frame: u64, c: Config, o: Opaque)
    requires c.Valid() && frame > 0
    ensures Derive(Segment(sequence, flags, frame), c, o) == Ok(Observed(sequence, flags, frame))
  {
    hide Canonical, Bit, CheckOptions, WitnessesTile, U16At, U32At;
    KeyCanonical(o);
    var i := Segment(sequence, flags, frame);
    HeaderFields(sequence, flags, frame);
    NoOptions(i.raw, 20);
    OneWitness(frame);
  }

  lemma {:induction false} HeaderFields(sequence: u16, flags: byte, frame: u64)
    ensures var raw := Segment(sequence, flags, frame).raw;
            U16At(raw, 0) == 1 && U16At(raw, 2) == 2 && U32At(raw, 4) == sequence && U32At(raw, 8) == 0 && U16At(raw, 14) == 0
  {
  }

  lemma {:induction false} NoOptions(raw: seq<byte>, at: nat)
    requires at <= |raw|
    ensures CheckOptions(raw, at, at, false) == Ok(false)
  {
  }

  lemma {:induction false} OneWitness(frame: u64)
    requires frame > 0
    ensures WitnessesTile([Witness(0, 20, frame, 0, 0, 0)], 20)
  {
  }

  /** A segment with one candidate is placed there. */
  lemma {:induction false} OnlyCandidate(
      s: TupleState, sequence: u16, flags: byte, frame: u64, gs: seq<Generation>, at: i64, source: SourceIdentity, c: Config, o: Opaque)
    requires c.Valid() && frame > 0 && s.key == KEY && |s.generations| <= 1 && |gs| == 1
    requires var q := Gather(s, Observed(sequence, flags, frame), source, c, o);
             q.Ok? && q.value.generations == gs && q.value.candidates == [Choice(0, at)]
    requires Extend(gs[0], Observed(sequence, flags, frame), at).Ok?
    ensures var (t, r) := Ingest(s, Segment(sequence, flags, frame), source, c, o);
            && t == TupleState(KEY, [Extend(gs[0], Observed(sequence, flags, frame), at).value])
            && r.Ok? && r.value.placements == [Placement(t.generations[0].id, Forward, at, true)]
  {
    hide Derive, Gather, Canonical, Extend, ExtendReasons, PutBytes, PutGenerations, Bit, PutKey, PutNumber, Note;
    KeyCanonical(o);
    SegmentObserved(sequence, flags, frame, c, o);
  }

  /** The generation after a first segment 1000, and after a SYN-ACK 989 behind it. */
  function Anchored(id: Digest): Generation {
    Generation(id, 1, Both(None, None), Both(Some(1000), None), Both(0, 0), Both(0, 0), Both(None, None), false, true, None)
  }

  function Answered(id: Digest): Generation {
    Anchored(id).(syn := Both(Some(989), None), low := Both(-10, 0))
  }

  lemma {:induction false} MidstreamAnchors(source: SourceIdentity, c: Config, o: Opaque) returns (id: Digest)
    requires c.Valid()
    ensures Ingest(TupleState(KEY, []), Segment(1000, 0x10, 1), source, c, o).0 == TupleState(KEY, [Anchored(id)])
  {
    hide GenerationSeed, Canonical, Derive, Decide, Ingest, PutKey;
    KeyCanonical(o);
    var p := Observed(1000, 0x10, 1);
    var s := TupleState(KEY, []);
    var q := Gather(s, p, source, c, o).value;
    id := q.generations[0].id;
    OnlyCandidate(s, 1000, 0x10, 1, q.generations, 0, source, c, o);
  }

  lemma {:induction false} OneAlias()
    ensures Collect(MODULUS - 10, -1, 1) == Ok([-10])
  {
    assert Collect(MODULUS - 10, -1, 0) == Ok([]);
    assert Alias(MODULUS - 10, -1) == -10;
    assert Collect(MODULUS - 10, -1, 1).Ok?;
    assert Collect(MODULUS - 10, -1, 1).value == [-10];
  }

  lemma {:induction false} AnswerBehind(id: Digest, c: Config)
    requires c.Valid() && c.sequenceHorizon >= 10
    ensures EpochsOf(Anchored(id), Observed(989, 0x12, 2), c) == Ok([-10])
  {
    hide Collect;
    assert Horizon(Anchored(id), Forward, c) == Ok((-c.sequenceHorizon, c.sequenceHorizon));
    assert Wrap32(990 - 1000) == MODULUS - 10;
    OneAlias();
  }

  lemma {:induction false} AnswerPlaced(id: Digest, source: SourceIdentity, c: Config, o: Opaque)
    requires c.Valid() && c.sequenceHorizon >= 10
    ensures Ingest(TupleState(KEY, [Anchored(id)]), Segment(989, 0x12, 2), source, c, o).0 == TupleState(KEY, [Answered(id)])
  {
    hide EpochsOf, Canonical, Derive, Decide, Ingest, Begin;
    var p := Observed(989, 0x12, 2);
    var s := TupleState(KEY, [Anchored(id)]);
    AnswerBehind(id, c);
    assert ChoicesAt(0, [-10]) == [Choice(0, -10)];
    assert ChoicesTo(s.generations, p, c, 1) == Ok([Choice(0, -10)]);
    OnlyCandidate(s, 989, 0x12, 2, s.generations, -10, source, c, o);
  }

  /**
   Midstream traffic at 1000, a SYN-ACK 989 and a bare SYN 989 in one direction: the SYN repeats
   what the SYN-ACK recorded and is placed at 0, although its data would begin at 990 - 1000.
   */
  lemma {:induction false} BareSynMisplaced(source: SourceIdentity, c: Config, o: Opaque)
    requires c.Valid() && c.sequenceHorizon >= 10
    ensures var inputs := [Segment(1000, 0x10, 1), Segment(989, 0x12, 2), Segment(989, 0x02, 3)];
            var s := After(TupleState(KEY, []), inputs, source, c, o, 2);
            var r := Ingest(s, inputs[2], source, c, o).1;
            && |s.generations| == 1 && s.generations[0].anchor.forward == Some(1000)
            && Derive(inputs[2], c, o) == Ok(Observed(989, 0x02, 3))
            && r.Ok? && r.value.placements == [Placement(s.generations[0].id, Forward, 0, true)]
            && !Congruent(Observed(989, 0x02, 3).DataSequence(), 1000, 0)
  {
    hide Canonical, Derive, Decide, Ingest, Begin;
    var inputs := [Segment(1000, 0x10, 1), Segment(989, 0x12, 2), Segment(989, 0x02, 3)];
    var start := TupleState(KEY, []);
    var id := MidstreamAnchors(source, c, o);
    assert After(start, inputs, source, c, o, 1) == TupleState(KEY, [Anchored(id)]);
    AnswerPlaced(id, source, c, o);
    var s := After(start, inputs, source, c, o, 2);
    var p := Observed(989, 0x02, 3);
    SegmentObserved(989, 0x02, 3, c, o);
    assert RepeatedSyns(s.generations, p, 1) == [Choice(0, 0)];
    OnlyCandidate(s, 989, 0x02, 3, s.generations, 0, source, c, o);
  }
}
