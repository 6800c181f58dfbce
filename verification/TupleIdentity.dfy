/** Generations of a tuple have different identities, unless the digest itself collides. */
module TupleIdentity {
  import opened Common
  import opened Codec
  import opened HistoryModel
  import opened HistoryInput
  import opened TupleStates
  import opened TupleCandidates
  import opened TupleSafety

  // ---------------------------------------------------------------- seeds

  lemma {:induction false} PutBytesInjective(u: seq<byte>, v: seq<byte>, x: seq<byte>, y: seq<byte>)
    requires |u| < MODULUS && |v| < MODULUS && PutBytes(u, x) == PutBytes(v, y)
    ensures u == v && x == y
  {
    hide PutBytes, ReadBytes;
    BytesRoundTrip(u, MODULUS, x);
    BytesRoundTrip(v, MODULUS, y);
  }

  lemma {:induction false} PutU64Injective(u: u64, v: u64, x: seq<byte>, y: seq<byte>)
    requires PutNumber(u, 8, x) == PutNumber(v, 8, y)
    ensures u == v && x == y
  {
    hide PutNumber, ReadU64;
    U64RoundTrip(u, x);
    U64RoundTrip(v, y);
  }

  lemma {:induction false} PutDigestInjective(u: Digest, v: Digest, x: seq<byte>, y: seq<byte>)
    requires PutRaw(u, x) == PutRaw(v, y)
    ensures u == v && x == y
  {
    RawRoundTrip(u, x);
    RawRoundTrip(v, y);
  }

  /** A seed determines the capture, the tuple, the first frame and the index it was made from. */
  lemma {:induction false} SeedInjective(
      r: SourceIdentity, k: seq<byte>, f: u64, i: u64, s: SourceIdentity, l: seq<byte>, g: u64, j: u64)
    requires |k| < MODULUS && |l| < MODULUS && GenerationSeed(r, k, f, i) == GenerationSeed(s, l, g, j)
    ensures r.sha256 == s.sha256 && k == l && f == g && i == j
  {
    hide PutBytes, PutNumber, PutRaw;
    var domain := TextBytes("pcap-evidence/history-generation/v1");
    var x, y := PutNumber(f, 8, PutNumber(i, 8, [])), PutNumber(g, 8, PutNumber(j, 8, []));
    assert |domain| < MODULUS;
    PutBytesInjective(domain, domain, PutRaw(r.sha256, PutBytes(k, x)), PutRaw(s.sha256, PutBytes(l, y)));
    PutDigestInjective(r.sha256, s.sha256, PutBytes(k, x), PutBytes(l, y));
    PutBytesInjective(k, l, x, y);
    PutU64Injective(f, g, PutNumber(i, 8, []), PutNumber(j, 8, []));
    PutU64Injective(i, j, [], []);
  }

  /** The size bound of an encoded tuple does not depend on its names being text. */
  lemma {:induction false} KeySize(k: Key, o: Opaque)
    requires EncodeKey(k, o).Ok?
    ensures |EncodeKey(k, o).value| <= 8325
  {
    hide PutKey;
    var anyText := o.(utf8 := (b: seq<byte>) => true);
    KeyRoundTrip(k, anyText, []);
  }

  // ---------------------------------------------------------------- the invariant

  function SeedOf(s: TupleState, source: SourceIdentity, o: Opaque, i: nat): seq<byte>
    requires i < |s.generations| && EncodeKey(s.key, o).Ok?
  {
    GenerationSeed(source, EncodeKey(s.key, o).value, s.generations[i].birth, i)
  }

  /** Every generation is identified by the digest of its own seed. */
  ghost predicate Seeded(s: TupleState, source: SourceIdentity, o: Opaque) {
    && |s.generations| <= 4096
    && (s.generations != [] ==> EncodeKey(s.key, o).Ok?)
    && (forall i | 0 <= i < |s.generations| :: s.generations[i].id == o.sha256(SeedOf(s, source, o, i)))
  }

  /** Same tuple, same identities and first frames. */
  ghost predicate SameNames(s: TupleState, t: TupleState) {
    && t.key == s.key && |t.generations| == |s.generations|
    && (forall i | 0 <= i < |s.generations| :: t.generations[i].id == s.generations[i].id && t.generations[i].birth == s.generations[i].birth)
  }

  lemma {:induction false} SameNamesSeeded(s: TupleState, t: TupleState, source: SourceIdentity, o: Opaque)
    requires Seeded(s, source, o) && SameNames(s, t)
    ensures Seeded(t, source, o)
  {
    hide EncodeKey, GenerationSeed;
    forall i | 0 <= i < |t.generations| ensures t.generations[i].id == o.sha256(SeedOf(t, source, o, i)) {
      assert SeedOf(t, source, o, i) == SeedOf(s, source, o, i);
    }
  }

  lemma {:induction false} BeginSeeded(s: TupleState, p: Packet, source: SourceIdentity, c: Config, o: Opaque, reason: Reason)
    requires Seeded(s, source, o) && c.Valid() && Begin(s, p, source, c, o, reason).Ok?
    ensures Seeded(TupleState(s.key, Begin(s, p, source, c, o, reason).value.generations), source, o)
  {
    hide EncodeKey, GenerationSeed;
    var t := TupleState(s.key, Begin(s, p, source, c, o, reason).value.generations);
    forall i | 0 <= i < |t.generations| ensures t.generations[i].id == o.sha256(SeedOf(t, source, o, i)) {
      if i < |s.generations| {
        assert t.generations[i] == s.generations[i];
        assert SeedOf(t, source, o, i) == SeedOf(s, source, o, i);
      }
    }
  }

  lemma {:induction false} GatherSeeded(s: TupleState, p: Packet, source: SourceIdentity, c: Config, o: Opaque)
    requires Seeded(s, source, o) && c.Valid() && Gather(s, p, source, c, o).Ok?
    ensures Seeded(TupleState(s.key, Gather(s, p, source, c, o).value.generations), source, o)
  {
    hide Begin, Seeded, RepeatedSyns, ChoicesTo, OpensSimultaneously;
    var q := Gather(s, p, source, c, o).value;
    if q.generations == s.generations {
      assert TupleState(s.key, q.generations) == s;
    } else if p.syn && !p.ack {
      BeginSeeded(s, p, source, c, o, SynBoundary);
    } else if s.generations == [] {
      BeginSeeded(s, p, source, c, o, MissingInitialSyn);
    } else {
      BeginSeeded(s, p, source, c, o, SynAckUnobserved);
    }
  }

  lemma {:induction false} ExtendKeepsName(g: Generation, p: Packet, at: i64)
    requires Extend(g, p, at).Ok?
    ensures Extend(g, p, at).value.id == g.id && Extend(g, p, at).value.birth == g.birth
  {
  }

  lemma {:induction false} DecideNames(s: TupleState, q: Gathered, p: Packet, c: Config, before: Digest, o: Opaque)
    requires ValidChoices(q.candidates, q.generations) && Decide(s, q, p, c, before, o).Ok?
    ensures SameNames(TupleState(s.key, q.generations), Decide(s, q, p, c, before, o).value.0)
  {
    hide Decide, Select, Extend, Explained;
    var selected := Select(q.generations, q.candidates, p.direction, c.epochPolicy).0;
    if selected.None? {
      DecideNone(s, q, p, c, before, o);
    } else {
      DecideSome(s, q, p, c, before, o);
      var x := q.candidates[selected.value];
      ExtendKeepsName(q.generations[x.generation], p, x.offset);
    }
  }

  lemma {:induction false} IngestSeeded(s: TupleState, input: TcpInput, source: SourceIdentity, c: Config, o: Opaque)
    requires Seeded(s, source, o)
    ensures Seeded(Ingest(s, input, source, c, o).0, source, o)
  {
    hide Seeded, SameNames, Derive, Gather, Decide, EncodeState, EncodeKey;
    if c.Valid() && Place(s, input, source, c, o).Ok? {
      var p := Derive(input, c, o).value;
      var q := Gather(s, p, source, c, o).value;
      GatherSeeded(s, p, source, c, o);
      GatherValid(s, p, source, c, o);
      var before := o.sha256(EncodeState(s, o).value);
      DecideNames(s, q, p, c, before, o);
      SameNamesSeeded(TupleState(s.key, q.generations), Decide(s, q, p, c, before, o).value.0, source, o);
    }
  }

  // ---------------------------------------------------------------- runs

  /** Two generations whose different seeds have the same digest. */
  ghost predicate SeedsCollide(s: TupleState, source: SourceIdentity, o: Opaque)
    requires Seeded(s, source, o)
  {
    exists i, j | 0 <= i < j < |s.generations| ::
      SeedOf(s, source, o, i) != SeedOf(s, source, o, j) && o.sha256(SeedOf(s, source, o, i)) == o.sha256(SeedOf(s, source, o, j))
  }

  lemma {:induction false} SeedsDiffer(s: TupleState, source: SourceIdentity, o: Opaque, i: nat, j: nat)
    requires Seeded(s, source, o) && i < j < |s.generations|
    ensures SeedOf(s, source, o, i) != SeedOf(s, source, o, j)
  {
    hide EncodeKey, GenerationSeed;
    KeySize(s.key, o);
    var key := EncodeKey(s.key, o).value;
    if SeedOf(s, source, o, i) == SeedOf(s, source, o, j) {
      SeedInjective(source, key, s.generations[i].birth, i, source, key, s.generations[j].birth, j);
    }
  }

  lemma {:induction false} DistinctUnlessCollision(s: TupleState, source: SourceIdentity, o: Opaque)
    requires Seeded(s, source, o)
    ensures DistinctIds(s.generations) <==> !SeedsCollide(s, source, o)
  {
    hide EncodeKey, SeedOf;
    if !SeedsCollide(s, source, o) {
      forall i, j | 0 <= i < j < |s.generations| ensures s.generations[i].id != s.generations[j].id {
        SeedsDiffer(s, source, o, i, j);
      }
    } else {
      var i, j :| 0 <= i < j < |s.generations| && o.sha256(SeedOf(s, source, o, i)) == o.sha256(SeedOf(s, source, o, j));
      assert s.generations[i].id == s.generations[j].id;
    }
  }

  lemma {:induction false} RunSeeded(key: Key, inputs: seq<TcpInput>, source: SourceIdentity, c: Config, o: Opaque, k: nat)
    requires k <= |inputs|
    ensures Seeded(After(TupleState(key, []), inputs, source, c, o, k), source, o)
  {
    hide Ingest;
    if k > 0 {
      RunSeeded(key, inputs, source, c, o, k - 1);
      IngestSeeded(After(TupleState(key, []), inputs, source, c, o, k - 1), inputs[k - 1], source, c, o);
    }
  }

  /**
   Over any run of a tuple the generations have pairwise different identities, and the placements of
   every decision are pairwise distinct, unless two different seeds have the same digest.
   */
  lemma {:induction false} RunDistinct(key: Key, inputs: seq<TcpInput>, source: SourceIdentity, c: Config, o: Opaque, k: nat)
    requires k < |inputs|
    ensures var s := After(TupleState(key, []), inputs, source, c, o, k);
            var t := After(TupleState(key, []), inputs, source, c, o, k + 1);
            && Seeded(t, source, o)
            && (DistinctIds(t.generations) <==> !SeedsCollide(t, source, o))
            && (Ingest(s, inputs[k], source, c, o).1.Ok? && !SeedsCollide(t, source, o) ==>
                  DistinctPlacements(Ingest(s, inputs[k], source, c, o).1.value))
  {
    hide Ingest, Seeded, SeedsCollide, DistinctIds, DistinctPlacements, StateOk, Grown, AtMostOneSelected, NoneSelected, ChangedOnlySelected;
    var s := After(TupleState(key, []), inputs, source, c, o, k);
    var t := After(TupleState(key, []), inputs, source, c, o, k + 1);
    RunSeeded(key, inputs, source, c, o, k + 1);
    DistinctUnlessCollision(t, source, o);
    RunSafe(key, inputs, source, c, o, k, k);
    IngestSafe(s, inputs[k], source, c, o);
  }
}
