/** Tuple states survive their codec, and a spilled file always fits the size a reload accepts. */
module TupleCodec {
  import opened Common
  import opened Codec
  import opened HistoryModel
  import opened HistoryInput
  import opened TupleStates
  import opened TupleCandidates
  import opened TupleSafety

  lemma {:induction false} I64RoundTrip(v: i64, rest: seq<byte>)
    ensures ReadI64(PutI64(v, rest)) == Ok((v, rest)) && |PutI64(v, rest)| == 8 + |rest|
  {
    hide PutSigned, ReadSigned, Power;
    Powers();
    SignedRoundTrip(v, 8, rest);
  }

  lemma {:induction false} FinRoundTrip(v: Option<i64>, rest: seq<byte>)
    ensures ReadFin(PutFin(v, rest)) == Ok((v, rest)) && |PutFin(v, rest)| <= 9 + |rest|
  {
    hide PutI64, ReadI64, PutFlag, ReadFlag;
    if v.Some? {
      I64RoundTrip(v.value, rest);
      FlagRoundTrip(true, PutI64(v.value, rest));
    } else {
      FlagRoundTrip(false, rest);
    }
  }

  lemma {:induction false} GenerationRoundTrip(g: Generation, rest: seq<byte>)
    ensures ReadGeneration(PutGeneration(g, rest)) == Ok((g, rest)) && |PutGeneration(g, rest)| <= 129 + |rest|
  {
    hide PutRaw, Take, PutNumber, ReadU64, PutLink, ReadOptionU32, PutI64, ReadI64, PutFin, ReadFin, PutFlag, ReadFlag, PutTime, ReadTime;
    TimeRoundTrip(g.lastTime, rest);
    var e14 := PutTime(g.lastTime, rest);
    FlagRoundTrip(g.midstream, e14);
    var e13 := PutFlag(g.midstream, e14);
    FlagRoundTrip(g.reset, e13);
    var e12 := PutFlag(g.reset, e13);
    FinRoundTrip(g.fin.reverse, e12);
    var e11 := PutFin(g.fin.reverse, e12);
    FinRoundTrip(g.fin.forward, e11);
    var e10 := PutFin(g.fin.forward, e11);
    I64RoundTrip(g.high.reverse, e10);
    var e9 := PutI64(g.high.reverse, e10);
    I64RoundTrip(g.high.forward, e9);
    var e8 := PutI64(g.high.forward, e9);
    I64RoundTrip(g.low.reverse, e8);
    var e7 := PutI64(g.low.reverse, e8);
    I64RoundTrip(g.low.forward, e7);
    var e6 := PutI64(g.low.forward, e7);
    LinkRoundTrip(g.anchor.reverse, e6);
    var e5 := PutLink(g.anchor.reverse, e6);
    LinkRoundTrip(g.anchor.forward, e5);
    var e4 := PutLink(g.anchor.forward, e5);
    LinkRoundTrip(g.syn.reverse, e4);
    var e3 := PutLink(g.syn.reverse, e4);
    LinkRoundTrip(g.syn.forward, e3);
    var e2 := PutLink(g.syn.forward, e3);
    U64RoundTrip(g.birth, e2);
    RawRoundTrip(g.id, PutNumber(g.birth, 8, e2));
  }

  lemma {:induction false} GenerationsRoundTrip(v: seq<Generation>, rest: seq<byte>)
    ensures ReadGenerations(PutGenerations(v, rest), |v|) == Ok((v, rest))
    ensures |PutGenerations(v, rest)| <= 129 * |v| + |rest|
  {
    hide PutGeneration, ReadGeneration;
    if v != [] {
      GenerationsRoundTrip(v[1..], rest);
      GenerationRoundTrip(v[0], PutGenerations(v[1..], rest));
      assert v == [v[0]] + v[1..];
    }
  }

  /** A state a run can reach, with a tuple the codec accepts. */
  ghost predicate Storable(s: TupleState, c: Config, o: Opaque) {
    StateOk(s, c) && Canonical(s.key, o) && Strings(s.key, o)
  }

  /** Every storable state encodes and decodes to itself. */
  lemma {:induction false} StateRoundTrip(s: TupleState, c: Config, o: Opaque)
    requires c.Valid() && Storable(s, c, o)
    ensures EncodeState(s, o).Ok? && |EncodeState(s, o).value| <= 8333 + 129 * |s.generations|
    ensures DecodeState(EncodeState(s, o).value, c, o) == Ok(s)
  {
    hide PutBytes, ReadBytes, PutNumber, ReadU32, PutGenerations, ReadGenerations, EncodeKey, DecodeKey, Canonical;
    KeyCodec(s.key, o);
    var key := EncodeKey(s.key, o).value;
    GenerationsRoundTrip(s.generations, []);
    var e2 := PutGenerations(s.generations, []);
    U32RoundTrip(|s.generations|, e2);
    BytesRoundTrip(key, 10000, PutNumber(|s.generations|, 4, e2));
    forall i | 0 <= i < |s.generations| ensures Bounds(s.generations[i]) {
      assert GenerationOk(s.generations[i]);
    }
  }

  // ---------------------------------------------------------------- spilled files

  function FileOf(s: TupleState, o: Opaque): Result<seq<byte>> {
    var body :- EncodeState(s, o);
    if |body| >= MODULUS then Err(Limit("history_blob"))
    else Ok(PutBytes(body, PutRaw(o.sha256(body), [])))
  }

  function MaximumFile(c: Config): nat {
    10064 + c.maxGenerations * 256
  }

  function ReadFile(bytes: seq<byte>, key: Key, c: Config, o: Opaque): Result<TupleState> {
    if |bytes| > MaximumFile(c) then Err(Limit("history_state"))
    else
      var (body, b1) :- ReadBytes(bytes, MaximumFile(c));
      var (hash, b2) :- Take(b1, 32);
      var done :- Finish(hash, b2);
      if o.sha256(body) != hash then Err(Bad("history_state"))
      else
        var s :- DecodeState(body, c, o);
        if s.key != key then Err(Bad("history_state")) else Ok(s)
  }

  /** Spilling then reloading a storable state gives it back, and refuses any other tuple. */
  lemma {:induction false} FileRoundTrip(s: TupleState, key: Key, c: Config, o: Opaque)
    requires c.Valid() && Storable(s, c, o)
    ensures FileOf(s, o).Ok? && |FileOf(s, o).value| <= MaximumFile(c)
    ensures ReadFile(FileOf(s, o).value, key, c, o) == if key == s.key then Ok(s) else Err(Bad("history_state"))
  {
    hide EncodeState, DecodeState, PutBytes, ReadBytes, PutRaw, Take, Canonical;
    StateRoundTrip(s, c, o);
    GenerationCount(s, c, o);
    var body := EncodeState(s, o).value;
    RawRoundTrip(o.sha256(body), []);
    BytesRoundTrip(body, MaximumFile(c), PutRaw(o.sha256(body), []));
  }

  lemma {:induction false} GenerationCount(s: TupleState, c: Config, o: Opaque)
    requires Storable(s, c, o)
    ensures |s.generations| <= c.maxGenerations
  {
  }
}
