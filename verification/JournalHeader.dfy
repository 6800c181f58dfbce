/** The journal header: source identity and configuration, bound by a digest. */
module JournalHeader {
  import opened Common
  import opened Codec
  import opened HistoryModel
  import opened TupleStates
  import opened JournalRecords

  const ENGINE: string := "pcap-evidence-history/2;state-policy/1"

  const MAGIC: seq<byte> := [80, 67, 72, 73, 83, 84, 48, 49]

  // ---------------------------------------------------------------- configuration

  /** The numeric limits in encoding order. */
  function Numbers(c: Config): seq<nat>
    requires c.Valid()
  {
    [c.maxSourceBytes, c.maxDiskBytes, c.maxRecords, c.maxRecordBytes, c.hotTuples, c.maxGenerations, c.maxWitnesses,
     c.maxEpochCandidates, c.sequenceHorizon, c.sortEntries, c.mergeFanIn, c.maxQueryBytes, c.maxQueryIntervals,
     c.maxQueryWork, c.checkpointRecords]
  }

  function FromNumbers(v: seq<u64>, policy: EpochPolicy): Config
    requires |v| == 15
  {
    Config(v[0], v[1], v[2], v[3], v[4], v[5], v[6], v[7], v[8], policy, v[9], v[10], v[11], v[12], v[13], v[14])
  }

  function PutNumbers(v: seq<nat>, rest: seq<byte>): seq<byte> {
    if v == [] then rest else PutNumber(v[0], 8, PutNumbers(v[1..], rest))
  }

  function ReadNumbers(b: seq<byte>, n: nat): Read<seq<u64>>
    decreases n
  {
    if n == 0 then Ok(([], b))
    else
      var (v, b1) :- ReadU64(b);
      var (vs, b2) :- ReadNumbers(b1, n - 1);
      Ok(([v] + vs, b2))
  }

  lemma {:induction false} NumbersRoundTrip(v: seq<nat>, rest: seq<byte>)
    requires forall i | 0 <= i < |v| :: v[i] <= U64_MAX
    ensures ReadNumbers(PutNumbers(v, rest), |v|) == Ok((v, rest)) && |PutNumbers(v, rest)| == 8 * |v| + |rest|
  {
    hide PutNumber, ReadU64;
    if v != [] {
      NumbersRoundTrip(v[1..], rest);
      U64RoundTrip(v[0], PutNumbers(v[1..], rest));
      assert v == [v[0]] + v[1..];
    }
  }

  function EncodeConfig(c: Config): Result<seq<byte>> {
    if !c.Valid() then Err(CONFIG_ERROR)
    else Ok(PutBytes(TextBytes(ENGINE), PutNumbers(Numbers(c), PutNumber(if c.epochPolicy == StrictAlternatives then 0 else 1, 1, []))))
  }

  function DecodeConfig(b: seq<byte>, o: Opaque): Result<Config> {
    var (engine, b1) :- ReadText(b, 128, o.utf8);
    if engine != TextBytes(ENGINE) then Err(Bad("history_engine"))
    else
      var (v, b2) :- ReadNumbers(b1, 15);
      NumbersRead(b1, 15);
      if v[8] > I64_MAX then Err(Limit("sequence_horizon"))
      else
        var (policy, b3) :- ReadNumber(b2, 1);
        if policy > 1 then Err(Bad("history_policy"))
        else
          var c :- Finish(FromNumbers(v, if policy == 0 then StrictAlternatives else NearestFrontier), b3);
          if c.Valid() then Ok(c) else Err(CONFIG_ERROR)
  }

  lemma {:induction false} NumbersRead(b: seq<byte>, n: nat)
    ensures ReadNumbers(b, n).Ok? ==> |ReadNumbers(b, n).value.0| == n
    decreases n
  {
    hide ReadU64;
    if n > 0 && ReadU64(b).Ok? {
      NumbersRead(ReadU64(b).value.1, n - 1);
    }
  }

  lemma {:induction false} ConfigCodec(c: Config, o: Opaque)
    requires c.Valid() && o.utf8(TextBytes(ENGINE))
    ensures EncodeConfig(c).Ok? && |EncodeConfig(c).value| == 163 && DecodeConfig(EncodeConfig(c).value, o) == Ok(c)
  {
    hide PutBytes, ReadText, PutNumber, ReadNumber, PutNumbers, ReadNumbers, TextBytes;
    EngineSize();
    var policy := if c.epochPolicy == StrictAlternatives then 0 else 1;
    ByteRoundTrip(policy, []);
    NumbersRoundTrip(Numbers(c), PutNumber(policy, 1, []));
    TextRoundTrip(TextBytes(ENGINE), 128, o.utf8, PutNumbers(Numbers(c), PutNumber(policy, 1, [])));
  }

  lemma {:induction false} EngineSize()
    ensures |TextBytes(ENGINE)| == 38
  {
  }

  // ---------------------------------------------------------------- header

  function HeaderBody(source: SourceIdentity, config: seq<byte>): seq<byte> {
    PutRaw(source.sha256, PutNumber(source.bytes, 8, PutBytes(config, [])))
  }

  /** Magic, length and body: what the header digest covers. */
  function HeaderPrefix(body: seq<byte>): seq<byte> {
    PutRaw(MAGIC, PutNumber(|body|, 4, PutRaw(body, [])))
  }

  function EncodeHeader(source: SourceIdentity, c: Config, o: Opaque): Result<(seq<byte>, Digest)> {
    var config :- EncodeConfig(c);
    var prefix := HeaderPrefix(HeaderBody(source, config));
    Ok((prefix + o.sha256(prefix), o.sha256(prefix)))
  }

  datatype Header = Header(source: SourceIdentity, config: Config, digest: Digest, bytes: nat)

  /** Open a journal: the header it begins with and the records behind it. */
  function OpenJournal(file: seq<byte>, o: Opaque): Result<(Header, seq<byte>)> {
    var (magic, b1) :- Exact(file, 8);
    var (length, b2) :- Exact(b1, 4);
    if magic != MAGIC then Err(Bad("history_magic"))
    else
      var n := FromLe(length);
      if n > 4096 then Err(Limit("history_header"))
      else
        var (body, b3) :- Exact(b2, n);
        var (stored, b4) :- Exact(b3, 32);
        if o.sha256(magic + length + body) != stored then Err(Bad("history_header"))
        else
          var (sha256, p1) :- Take(body, 32);
          var (bytes, p2) :- ReadU64(p1);
          var (blob, p3) :- ReadBytes(p2, 2048);
          var config :- DecodeConfig(blob, o);
          var done :- Finish(config, p3);
          if bytes > config.maxSourceBytes then Err(Limit("source_bytes"))
          else Ok((Header(SourceIdentity(sha256, bytes), config, stored, 12 + n + 32), b4))
  }

  lemma {:induction false} HeaderPieces(body: seq<byte>, digest: Digest, rest: seq<byte>)
    requires |body| < MODULUS
    ensures var file := HeaderPrefix(body) + digest + rest;
            var b1 := PutNumber(|body|, 4, PutRaw(body, PutRaw(digest, rest)));
            && |HeaderPrefix(body)| == 12 + |body|
            && Exact(file, 8) == Ok((MAGIC, b1))
            && Exact(b1, 4) == Ok((Le(|body|, 4), PutRaw(body, PutRaw(digest, rest))))
            && FromLe(Le(|body|, 4)) == |body|
            && Exact(PutRaw(body, PutRaw(digest, rest)), |body|) == Ok((body, PutRaw(digest, rest)))
            && Exact(PutRaw(digest, rest), 32) == Ok((digest, rest))
            && MAGIC + Le(|body|, 4) + body == HeaderPrefix(body)
  {
    hide Exact, Le, FromLe;
    var b2 := PutRaw(body, PutRaw(digest, rest));
    LengthField(|body|, b2);
    LeSize(|body|, 4);
    ExactRaw(body, PutRaw(digest, rest));
    ExactRaw(digest, rest);
    ExactRaw(MAGIC, PutNumber(|body|, 4, b2));
    assert HeaderPrefix(body) + digest + rest == PutRaw(MAGIC, PutNumber(|body|, 4, b2));
  }

  lemma {:induction false} BodyRoundTrip(source: SourceIdentity, c: Config, o: Opaque)
    requires c.Valid() && o.utf8(TextBytes(ENGINE))
    ensures var body := HeaderBody(source, EncodeConfig(c).value);
            && |body| == 207
            && Take(body, 32) == Ok((source.sha256, PutNumber(source.bytes, 8, PutBytes(EncodeConfig(c).value, []))))
            && ReadU64(PutNumber(source.bytes, 8, PutBytes(EncodeConfig(c).value, []))) == Ok((source.bytes, PutBytes(EncodeConfig(c).value, [])))
            && ReadBytes(PutBytes(EncodeConfig(c).value, []), 2048) == Ok((EncodeConfig(c).value, []))
  {
    hide EncodeConfig, DecodeConfig, PutRaw, Take, PutNumber, ReadU64, PutBytes, ReadBytes;
    ConfigCodec(c, o);
    var config := EncodeConfig(c).value;
    BytesRoundTrip(config, 2048, []);
    U64RoundTrip(source.bytes, PutBytes(config, []));
    RawRoundTrip(source.sha256, PutNumber(source.bytes, 8, PutBytes(config, [])));
  }

  /**
   A written header opens as itself, whatever follows it, exactly when the source fits the limit that
   the header itself records; the writer does not check this.
   */
  lemma {:induction false} HeaderRoundTrip(source: SourceIdentity, c: Config, o: Opaque, rest: seq<byte>)
    requires c.Valid() && o.utf8(TextBytes(ENGINE))
    ensures EncodeHeader(source, c, o).Ok?
    ensures var (bytes, digest) := EncodeHeader(source, c, o).value;
            && OpenJournal(bytes + rest, o)
               == (if source.bytes <= c.maxSourceBytes then Ok((Header(source, c, digest, |bytes|), rest)) else Err(Limit("source_bytes")))
            && |bytes| >= 32 && bytes[|bytes| - 32..] == digest
  {
    hide EncodeConfig, DecodeConfig, Exact, Take, ReadU64, ReadBytes, HeaderBody, HeaderPrefix, Le, FromLe, PutRaw, PutNumber, PutBytes;
    ConfigCodec(c, o);
    BodyRoundTrip(source, c, o);
    var body := HeaderBody(source, EncodeConfig(c).value);
    var (bytes, digest) := EncodeHeader(source, c, o).value;
    HeaderPieces(body, digest, rest);
    HeaderPieces(body, digest, []);
    assert bytes + rest == HeaderPrefix(body) + digest + rest;
  }

  /** A source of the greatest size: under every valid configuration its header is written and then refused. */
  lemma {:induction false} OversizedSourceRefused(sha256: Digest, c: Config, o: Opaque, rest: seq<byte>)
    requires c.Valid() && o.utf8(TextBytes(ENGINE))
    ensures var source := SourceIdentity(sha256, U64_MAX);
            EncodeHeader(source, c, o).Ok? && OpenJournal(EncodeHeader(source, c, o).value.0 + rest, o) == Err(Limit("source_bytes"))
  {
    hide EncodeHeader, OpenJournal;
    HeaderRoundTrip(SourceIdentity(sha256, U64_MAX), c, o, rest);
  }
}
