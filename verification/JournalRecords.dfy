/**
 The append-only journal as bytes. Each record carries its length, kind, sequence number and body,
 and a digest that covers the digest of its predecessor.
 */
module JournalRecords {
  import opened Common
  import opened Codec
  import opened HistoryModel

  const PACKET: u8 := 1
  const TCP: u8 := 2
  const NOTICE: u8 := 3
  const CHECKPOINT: u8 := 4
  const ABORT: u8 := 254
  const SEAL: u8 := 255

  /** The length of a record beyond its body: length field, kind, sequence number and digest. */
  const OVERHEAD: nat := 45

  const CUT: Error := Error(Truncated, "history_record")

  predicate KnownKind(kind: u8) {
    kind in {PACKET, TCP, NOTICE, CHECKPOINT, ABORT, SEAL}
  }

  predicate Terminal(kind: u8) {
    kind == ABORT || kind == SEAL
  }

  datatype Entry = Entry(kind: u8, body: seq<byte>)

  datatype Record = Record(kind: u8, sequence: nat, body: seq<byte>, offset: nat, digest: Digest)

  // ---------------------------------------------------------------- one record as bytes

  function Payload(e: Entry, sequence: u64): seq<byte> {
    PutNumber(e.kind, 1, PutNumber(sequence, 8, PutRaw(e.body, [])))
  }

  /** The bytes the digest of a record covers. */
  function Covered(domain: seq<byte>, previous: Digest, length: seq<byte>, payload: seq<byte>): seq<byte> {
    domain + previous + length + payload
  }

  function Chain(domain: seq<byte>, previous: Digest, payload: seq<byte>, o: Opaque): Digest {
    o.sha256(Covered(domain, previous, Le(|payload|, 4), payload))
  }

  function PutRecord(payload: seq<byte>, digest: Digest, rest: seq<byte>): seq<byte> {
    PutNumber(|payload|, 4, PutRaw(payload, PutRaw(digest, rest)))
  }

  // ---------------------------------------------------------------- a whole journal

  /** The domain separator, the digest of the header and the given primitives. */
  datatype Context = Context(domain: seq<byte>, first: Digest, primitives: Opaque)

  ghost predicate Writable(es: seq<Entry>, c: Config) {
    && |es| <= c.maxRecords <= U64_MAX && c.maxRecordBytes < MODULUS
    && (forall i | 0 <= i < |es| :: KnownKind(es[i].kind) && |es[i].body| + 9 <= c.maxRecordBytes)
    && (forall i | 0 <= i < |es| - 1 :: !Terminal(es[i].kind))
  }

  /** The digest that record j chains from. */
  function DigestAt(x: Context, es: seq<Entry>, j: nat): Digest
    requires j <= |es| <= U64_MAX
  {
    if j == 0 then x.first
    else Chain(x.domain, DigestAt(x, es, j - 1), Payload(es[j - 1], j), x.primitives)
  }

  function RecordAt(x: Context, es: seq<Entry>, j: nat, rest: seq<byte>): seq<byte>
    requires j < |es| <= U64_MAX
  {
    PutRecord(Payload(es[j], j + 1), DigestAt(x, es, j + 1), rest)
  }

  /** The bytes of the records from j on. */
  function AreaFrom(x: Context, es: seq<Entry>, j: nat): seq<byte>
    requires j <= |es| <= U64_MAX
    decreases |es| - j
  {
    if j == |es| then [] else RecordAt(x, es, j, AreaFrom(x, es, j + 1))
  }

  function Size(e: Entry): nat {
    |e.body| + OVERHEAD
  }

  /** The bytes of the first j records. */
  function OffsetAt(es: seq<Entry>, j: nat): nat
    requires j <= |es|
  {
    if j == 0 then 0 else OffsetAt(es, j - 1) + Size(es[j - 1])
  }

  function RecordOf(x: Context, es: seq<Entry>, base: nat, j: nat): Record
    requires j < |es| <= U64_MAX
  {
    Record(es[j].kind, j + 1, es[j].body, base + OffsetAt(es, j), DigestAt(x, es, j + 1))
  }

  lemma {:induction false} PayloadSize(e: Entry, sequence: u64)
    ensures |Payload(e, sequence)| == |e.body| + 9
  {
    hide PutNumber, PutRaw;
    RawRoundTrip(e.body, []);
    U64RoundTrip(sequence, PutRaw(e.body, []));
    ByteRoundTrip(e.kind, PutNumber(sequence, 8, PutRaw(e.body, [])));
  }

  lemma {:induction false} RecordSize(x: Context, es: seq<Entry>, j: nat, rest: seq<byte>)
    requires j < |es| <= U64_MAX && |es[j].body| + 9 < MODULUS
    ensures |RecordAt(x, es, j, rest)| == Size(es[j]) + |rest|
  {
    hide PutNumber, PutRaw, Payload, DigestAt;
    var payload, digest := Payload(es[j], j + 1), DigestAt(x, es, j + 1);
    PayloadSize(es[j], j + 1);
    RawRoundTrip(digest, rest);
    RawRoundTrip(payload, PutRaw(digest, rest));
    U32RoundTrip(|payload|, PutRaw(payload, PutRaw(digest, rest)));
  }

  // ---------------------------------------------------------------- reading

  /** Read n bytes or report that the file ends inside a field. */
  function Exact(b: seq<byte>, n: nat): Read<seq<byte>> {
    if |b| < n then Err(CUT) else Ok((b[..n], b[n..]))
  }

  datatype ReaderState = ReaderState(
    rest: seq<byte>,
    count: nat,
    position: nat,
    previous: Digest,
    sealed: bool,
    aborted: bool,
    ended: bool)

  /** The length, payload and digest of the next record, with what follows. */
  datatype Frame = Frame(length: seq<byte>, payload: seq<byte>, digest: seq<byte>, rest: seq<byte>)

  function ReadFrame(b: seq<byte>, allowed: bool, maximum: nat): Result<Frame> {
    var (length, b1) :- Exact(b, 4);
    var n := FromLe(length);
    if n < 9 || n > maximum || !allowed then Err(Limit("history_record"))
    else
      var (payload, b2) :- Exact(b1, n);
      var (digest, b3) :- Exact(b2, 32);
      Ok(Frame(length, payload, digest, b3))
  }

  function ReadEntry(payload: seq<byte>): Result<(u8, u64, seq<byte>)> {
    var (kind, p1) :- ReadNumber(payload, 1);
    var (sequence, p2) :- ReadU64(p1);
    FromLeBound(payload[..1]);
    Powers();
    Ok((kind, sequence, p2))
  }

  function ReadRecord(s: ReaderState, c: Config, domain: seq<byte>, o: Opaque): Result<Option<(ReaderState, Record)>> {
    if s.ended || s.rest == [] then Ok(None)
    else if s.sealed || s.aborted then Err(Bad("history_terminal"))
    else
      var f :- ReadFrame(s.rest, s.count < c.maxRecords, c.maxRecordBytes);
      if o.sha256(Covered(domain, s.previous, f.length, f.payload)) != f.digest then Err(Bad("history_chain"))
      else
        var (kind, sequence, body) :- ReadEntry(f.payload);
        if sequence != s.count + 1 || !KnownKind(kind) then Err(Bad("history_sequence"))
        else if s.position + |f.payload| + 36 > U64_MAX then Err(Limit("history_position"))
        else
          Ok(Some((ReaderState(f.rest, sequence, s.position + |f.payload| + 36, f.digest, kind == SEAL, kind == ABORT, false),
                   Record(kind, sequence, body, s.position, f.digest))))
  }

  /** An end or a failure is final. */
  function NextRecord(s: ReaderState, c: Config, domain: seq<byte>, o: Opaque): (ReaderState, Result<Option<Record>>) {
    match ReadRecord(s, c, domain, o)
    case Err(e) => (s.(ended := true), Err(e))
    case Ok(None) => (s.(ended := true), Ok(None))
    case Ok(Some(r)) => (r.0, Ok(Some(r.1)))
  }

  // ---------------------------------------------------------------- one written record read back

  lemma {:induction false} ExactRaw(v: seq<byte>, rest: seq<byte>)
    ensures Exact(PutRaw(v, rest), |v|) == Ok((v, rest))
  {
    assert (v + rest)[..|v|] == v && (v + rest)[|v|..] == rest;
  }

  lemma {:induction false} FrameRoundTrip(payload: seq<byte>, digest: Digest, rest: seq<byte>, maximum: nat)
    requires 9 <= |payload| <= maximum < MODULUS
    ensures ReadFrame(PutRecord(payload, digest, rest), true, maximum) == Ok(Frame(Le(|payload|, 4), payload, digest, rest))
  {
    hide PutRaw, Exact, Le, FromLe, Power;
    LengthField(|payload|, PutRaw(payload, PutRaw(digest, rest)));
    ExactRaw(payload, PutRaw(digest, rest));
    ExactRaw(digest, rest);
  }

  lemma {:induction false} LengthField(n: nat, rest: seq<byte>)
    requires n < MODULUS
    ensures Exact(PutNumber(n, 4, rest), 4) == Ok((Le(n, 4), rest)) && FromLe(Le(n, 4)) == n
  {
    hide Le, FromLe, Power;
    Powers();
    LeRoundTrip(n, 4);
    LeSize(n, 4);
    ExactRaw(Le(n, 4), rest);
    assert PutNumber(n, 4, rest) == PutRaw(Le(n, 4), rest);
  }

  lemma {:induction false} EntryRoundTrip(e: Entry, sequence: u64)
    ensures ReadEntry(Payload(e, sequence)) == Ok((e.kind, sequence, e.body))
  {
    hide PutNumber, ReadNumber, ReadU64, PutRaw;
    U64RoundTrip(sequence, PutRaw(e.body, []));
    ByteRoundTrip(e.kind, PutNumber(sequence, 8, PutRaw(e.body, [])));
    RawNothing(e.body);
  }

  lemma {:induction false} RawNothing(b: seq<byte>)
    ensures PutRaw(b, []) == b
  {
  }

  /** The reader standing before record j. */
  function Before(x: Context, es: seq<Entry>, base: nat, j: nat, rest: seq<byte>): ReaderState
    requires j <= |es| <= U64_MAX
  {
    ReaderState(rest, j, base + OffsetAt(es, j), DigestAt(x, es, j),
                j > 0 && es[j - 1].kind == SEAL, j > 0 && es[j - 1].kind == ABORT, false)
  }

  /** A whole record is read back as written, and the reader stands before the next. */
  lemma {:induction false} ReadsWhole(x: Context, es: seq<Entry>, c: Config, base: nat, j: nat, rest: seq<byte>)
    requires Writable(es, c) && j < |es| && base + OffsetAt(es, j + 1) <= U64_MAX
    ensures ReadRecord(Before(x, es, base, j, RecordAt(x, es, j, rest)), c, x.domain, x.primitives)
         == Ok(Some((Before(x, es, base, j + 1, rest), RecordOf(x, es, base, j))))
  {
    hide PutRecord, ReadFrame, ReadEntry, Payload, Covered, KnownKind, Le;
    var payload, digest := Payload(es[j], j + 1), DigestAt(x, es, j + 1);
    PayloadSize(es[j], j + 1);
    FrameRoundTrip(payload, digest, rest, c.maxRecordBytes);
    EntryRoundTrip(es[j], j + 1);
    RecordSize(x, es, j, rest);
  }

  /** A record cut anywhere inside is reported as truncated. */
  lemma {:induction false} ReadsCut(x: Context, es: seq<Entry>, c: Config, base: nat, j: nat, rest: seq<byte>, n: nat)
    requires Writable(es, c) && j < |es| && 0 < n < Size(es[j]) && n <= |RecordAt(x, es, j, rest)|
    ensures ReadRecord(Before(x, es, base, j, RecordAt(x, es, j, rest)[..n]), c, x.domain, x.primitives) == Err(CUT)
  {
    hide Payload, Covered, DigestAt, PutRecord, ReadFrame;
    var payload, digest := Payload(es[j], j + 1), DigestAt(x, es, j + 1);
    PayloadSize(es[j], j + 1);
    FrameCut(payload, digest, rest, c.maxRecordBytes, n);
  }

  lemma {:induction false} ExactPrefix(v: seq<byte>, rest: seq<byte>, n: nat)
    requires n <= |PutRaw(v, rest)|
    ensures n < |v| ==> Exact(PutRaw(v, rest)[..n], |v|) == Err(CUT)
    ensures |v| <= n ==> n - |v| <= |rest| && Exact(PutRaw(v, rest)[..n], |v|) == Ok((v, rest[..n - |v|]))
  {
    if |v| <= n {
      assert (v + rest)[..n] == v + rest[..n - |v|];
      assert (v + rest[..n - |v|])[..|v|] == v && (v + rest[..n - |v|])[|v|..] == rest[..n - |v|];
    }
  }

  lemma {:induction false} FrameCut(payload: seq<byte>, digest: Digest, rest: seq<byte>, maximum: nat, n: nat)
    requires 9 <= |payload| <= maximum < MODULUS && n < |payload| + 36 && n <= |PutRecord(payload, digest, rest)|
    ensures ReadFrame(PutRecord(payload, digest, rest)[..n], true, maximum) == Err(CUT)
  {
    hide PutRaw, Exact, Le, FromLe, Power;
    var length := Le(|payload|, 4);
    LengthField(|payload|, PutRaw(payload, PutRaw(digest, rest)));
    PutLength(payload, digest, rest);
    ExactPrefix(length, PutRaw(payload, PutRaw(digest, rest)), n);
    LeSize(|payload|, 4);
    if n >= 4 {
      ExactPrefix(payload, PutRaw(digest, rest), n - 4);
      if n >= 4 + |payload| {
        ExactPrefix(digest, rest, n - 4 - |payload|);
      }
    }
  }

  lemma {:induction false} PutLength(payload: seq<byte>, digest: Digest, rest: seq<byte>)
    ensures PutRecord(payload, digest, rest) == PutRaw(Le(|payload|, 4), PutRaw(payload, PutRaw(digest, rest)))
  {
  }
}
