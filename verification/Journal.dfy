/** Writing a journal and reading it back, whole, cut anywhere, or one indexed record at a time. */
module Journal {
  import opened Common
  import opened Codec
  import opened DiskBudgets
  import opened HistoryModel
  import opened TupleStates
  import opened JournalRecords
  import opened JournalHeader

  // ---------------------------------------------------------------- reading to the end

  lemma {:induction false} ReadShrinks(s: ReaderState, c: Config, domain: seq<byte>, o: Opaque)
    ensures var r := ReadRecord(s, c, domain, o);
            r.Ok? && r.value.Some? ==> |r.value.value.0.rest| < |s.rest|
  {
    hide ReadEntry, Covered, KnownKind, FromLe;
  }

  /** All records up to the end or the first error. */
  function ReadAll(s: ReaderState, c: Config, domain: seq<byte>, o: Opaque): (seq<Record>, Option<Error>)
    decreases |s.rest|
  {
    match ReadRecord(s, c, domain, o)
    case Err(e) => ([], Some(e))
    case Ok(None) => ([], None)
    case Ok(Some(r)) =>
      ReadShrinks(s, c, domain, o);
      var (more, end) := ReadAll(r.0, c, domain, o);
      ([r.1] + more, end)
  }

  /** Records j to m as the writer made them. */
  function RecordsBetween(x: Context, es: seq<Entry>, base: nat, j: nat, m: nat): seq<Record>
    requires j <= m <= |es| <= U64_MAX
    decreases m - j
  {
    if j == m then [] else [RecordOf(x, es, base, j)] + RecordsBetween(x, es, base, j + 1, m)
  }

  lemma {:induction false} OffsetsGrow(es: seq<Entry>, j: nat, k: nat)
    requires j <= k <= |es|
    ensures OffsetAt(es, j) <= OffsetAt(es, k)
  {
    if j < k {
      OffsetsGrow(es, j, k - 1);
    }
  }

  lemma {:induction false} AreaStep(x: Context, es: seq<Entry>, j: nat)
    requires j < |es| <= U64_MAX
    ensures AreaFrom(x, es, j) == RecordAt(x, es, j, AreaFrom(x, es, j + 1))
  {
  }

  lemma {:induction false} AreaSize(x: Context, es: seq<Entry>, c: Config, j: nat)
    requires Writable(es, c) && j <= |es|
    ensures |AreaFrom(x, es, j)| == OffsetAt(es, |es|) - OffsetAt(es, j)
    decreases |es| - j
  {
    hide RecordAt;
    if j < |es| {
      AreaSize(x, es, c, j + 1);
      RecordSize(x, es, j, AreaFrom(x, es, j + 1));
    }
  }

  lemma {:induction false} PrefixOfRecord(x: Context, es: seq<Entry>, c: Config, j: nat, rest: seq<byte>, n: nat)
    requires Writable(es, c) && j < |es| && Size(es[j]) <= n <= Size(es[j]) + |rest|
    ensures |RecordAt(x, es, j, rest)| == Size(es[j]) + |rest|
    ensures RecordAt(x, es, j, rest)[..n] == RecordAt(x, es, j, rest[..n - Size(es[j])])
  {
    hide Payload, DigestAt, Le;
    RecordSize(x, es, j, rest);
    RecordSize(x, es, j, rest[..n - Size(es[j])]);
    var payload, digest := Payload(es[j], j + 1), DigestAt(x, es, j + 1);
    LeSize(|payload|, 4);
    var front := Le(|payload|, 4) + payload + digest;
    assert RecordAt(x, es, j, rest) == front + rest;
    assert RecordAt(x, es, j, rest[..n - Size(es[j])]) == front + rest[..n - Size(es[j])];
  }

  /**
   Cutting the record area after any number of bytes leaves exactly the whole records before the cut;
   then the journal ends cleanly if the cut is at a record boundary, and is truncated otherwise.
   */
  lemma {:induction false} CutJournal(x: Context, es: seq<Entry>, c: Config, base: nat, j: nat, m: nat, n: nat)
    requires Writable(es, c) && j <= m <= |es| && base + OffsetAt(es, |es|) <= U64_MAX && n <= |AreaFrom(x, es, j)|
    requires OffsetAt(es, m) <= OffsetAt(es, j) + n && (m < |es| ==> OffsetAt(es, j) + n < OffsetAt(es, m + 1))
    ensures ReadAll(Before(x, es, base, j, AreaFrom(x, es, j)[..n]), c, x.domain, x.primitives)
         == (RecordsBetween(x, es, base, j, m), if OffsetAt(es, j) + n == OffsetAt(es, m) then None else Some(CUT))
    decreases |es| - j
  {
    hide ReadRecord, RecordAt, AreaFrom, ReadAll, Before, KnownKind, JournalRecords.Terminal, Size;
    CountBound(es, c);
    AreaSize(x, es, c, j);
    OffsetsGrow(es, j, m);
    if n == 0 {
      NothingLeft(x, es, c, base, j);
      OffsetsStrict(es, j, m);
      ReadAllIs(Before(x, es, base, j, AreaFrom(x, es, j)[..n]), c, x.domain, x.primitives);
    } else if j == m {
      AreaStep(x, es, j);
      OffsetNext(es, j);
      ReadsCut(x, es, c, base, j, AreaFrom(x, es, j + 1), n);
      ReadAllIs(Before(x, es, base, j, AreaFrom(x, es, j)[..n]), c, x.domain, x.primitives);
    } else {
      var rest := AreaFrom(x, es, j + 1);
      AreaStep(x, es, j);
      AreaSize(x, es, c, j + 1);
      OffsetsGrow(es, j + 1, m);
      OffsetsGrow(es, j + 1, |es|);
      OffsetNext(es, j);
      var k := n - Size(es[j]);
      PrefixOfRecord(x, es, c, j, rest, n);
      ReadsWhole(x, es, c, base, j, rest[..k]);
      ReadAllIs(Before(x, es, base, j, AreaFrom(x, es, j)[..n]), c, x.domain, x.primitives);
      CutJournal(x, es, c, base, j + 1, m, k);
    }
  }

  lemma {:induction false} CountBound(es: seq<Entry>, c: Config)
    requires Writable(es, c)
    ensures |es| <= U64_MAX
  {
  }

  lemma {:induction false} OffsetNext(es: seq<Entry>, j: nat)
    requires j < |es|
    ensures OffsetAt(es, j + 1) == OffsetAt(es, j) + Size(es[j])
  {
  }

  lemma {:induction false} ReadAllIs(s: ReaderState, c: Config, domain: seq<byte>, o: Opaque)
    ensures var r := ReadRecord(s, c, domain, o);
            && (r.Err? ==> ReadAll(s, c, domain, o) == ([], Some(r.error)))
            && (r == Ok(None) ==> ReadAll(s, c, domain, o) == ([], None))
            && (r.Ok? && r.value.Some? ==>
                  ReadAll(s, c, domain, o)
                  == ([r.value.value.1] + ReadAll(r.value.value.0, c, domain, o).0, ReadAll(r.value.value.0, c, domain, o).1))
  {
    hide ReadRecord;
  }

  lemma {:induction false} OffsetsStrict(es: seq<Entry>, j: nat, m: nat)
    requires j <= m <= |es| && OffsetAt(es, m) <= OffsetAt(es, j)
    ensures j == m
  {
    if j < m {
      OffsetsGrow(es, j, m - 1);
    }
  }

  lemma {:induction false} NothingLeft(x: Context, es: seq<Entry>, c: Config, base: nat, j: nat)
    requires j <= |es| <= U64_MAX
    ensures ReadRecord(Before(x, es, base, j, AreaFrom(x, es, j)[..0]), c, x.domain, x.primitives) == Ok(None)
  {
    hide AreaFrom;
  }

  /** How many records fit before a cut. */
  ghost function WholeBefore(es: seq<Entry>, n: nat, k: nat): (m: nat)
    requires k <= |es| && OffsetAt(es, k) <= n
    ensures k <= m <= |es| && OffsetAt(es, m) <= n && (m < |es| ==> n < OffsetAt(es, m + 1))
    decreases |es| - k
  {
    if k == |es| || n < OffsetAt(es, k + 1) then k else WholeBefore(es, n, k + 1)
  }

  /** The start of the record area, right behind the header. */
  function Opened(h: Header, rest: seq<byte>): ReaderState {
    ReaderState(rest, 0, h.bytes, h.digest, false, false, false)
  }

  /**
   A written journal, cut anywhere behind its header, opens exactly when its source fits the recorded
   limit, and then reads back exactly what is whole.
   */
  lemma {:induction false} JournalSurvivesCut(source: SourceIdentity, c: Config, domain: seq<byte>, o: Opaque, es: seq<Entry>, n: nat)
    requires c.Valid() && o.utf8(TextBytes(ENGINE)) && Writable(es, c)
    requires |EncodeHeader(source, c, o).value.0| + OffsetAt(es, |es|) <= U64_MAX
    requires n <= |AreaFrom(Context(domain, EncodeHeader(source, c, o).value.1, o), es, 0)|
    ensures var (bytes, digest) := EncodeHeader(source, c, o).value;
            var x := Context(domain, digest, o);
            var start := OpenJournal(bytes + AreaFrom(x, es, 0)[..n], o);
            && (start.Ok? <==> source.bytes <= c.maxSourceBytes)
            && (start.Err? ==> start.error == Limit("source_bytes"))
            && (start.Ok? ==>
                  ReadAll(Opened(start.value.0, start.value.1), c, domain, o)
                  == (RecordsBetween(x, es, |bytes|, 0, WholeBefore(es, n, 0)),
                      if n == OffsetAt(es, WholeBefore(es, n, 0)) then None else Some(CUT)))
  {
    hide AreaFrom, EncodeHeader, OpenJournal, ReadAll, RecordsBetween;
    EncodesHeader(source, c, o);
    var (bytes, digest) := EncodeHeader(source, c, o).value;
    var x := Context(domain, digest, o);
    HeaderRoundTrip(source, c, o, AreaFrom(x, es, 0)[..n]);
    CutJournal(x, es, c, |bytes|, 0, WholeBefore(es, n, 0), n);
  }

  lemma {:induction false} EncodesHeader(source: SourceIdentity, c: Config, o: Opaque)
    requires c.Valid()
    ensures EncodeHeader(source, c, o).Ok?
  {
  }

  // ---------------------------------------------------------------- one indexed record

  /** Read the record at an offset and check it against the digest an index holds for it. */
  function Indexed(file: seq<byte>, h: Header, offset: nat, digest: Digest, domain: seq<byte>, o: Opaque): Result<Record> {
    if offset < h.bytes || offset < 32 then Err(ROW_OFFSET)
    else
      var (previous, b1) :- Exact(if offset - 32 <= |file| then file[offset - 32..] else [], 32);
      var f :- ReadFrame(b1, true, h.config.maxRecordBytes);
      if f.digest != digest then Err(ROW_OFFSET)
      else if o.sha256(Covered(domain, previous, f.length, f.payload)) != digest then Err(ROW_OFFSET)
      else
        var (kind, sequence, body) :- ReadEntry(f.payload);
        Ok(Record(kind, sequence, body, offset, digest))
  }

  const ROW_OFFSET: Error := Bad("history_index")

  /** The whole area is the first j records followed by the rest, and the last 32 bytes before j are its predecessor's digest. */
  lemma {:induction false} AreaSplit(x: Context, es: seq<Entry>, c: Config, header: seq<byte>, j: nat)
    requires Writable(es, c) && j <= |es| && |header| >= 32 && header[|header| - 32..] == x.first
    ensures var file := header + AreaFrom(x, es, 0);
            var at := |header| + OffsetAt(es, j);
            && 32 <= at <= |file| && file[at..] == AreaFrom(x, es, j) && file[at - 32..at] == DigestAt(x, es, j)
  {
    hide RecordAt, DigestAt;
    AreaSize(x, es, c, 0);
    OffsetsGrow(es, j, |es|);
    var file := header + AreaFrom(x, es, 0);
    if j == 0 {
      FirstDigest(x, es);
      assert file[|header|..] == AreaFrom(x, es, 0);
      assert file[|header| - 32..|header|] == header[|header| - 32..];
    } else {
      AreaSplit(x, es, c, header, j - 1);
      var before, at := |header| + OffsetAt(es, j - 1), |header| + OffsetAt(es, j);
      RecordTail(x, es, c, j - 1, AreaFrom(x, es, j));
      var record := file[before..];
      assert file[at..] == record[Size(es[j - 1])..];
      assert file[at - 32..at] == record[Size(es[j - 1]) - 32..Size(es[j - 1])];
    }
  }

  lemma {:induction false} FirstDigest(x: Context, es: seq<Entry>)
    requires |es| <= U64_MAX
    ensures DigestAt(x, es, 0) == x.first
  {
  }

  lemma {:induction false} RecordTail(x: Context, es: seq<Entry>, c: Config, j: nat, rest: seq<byte>)
    requires Writable(es, c) && j < |es|
    ensures var r := RecordAt(x, es, j, rest);
            && |r| == Size(es[j]) + |rest| && r[Size(es[j])..] == rest
            && r[Size(es[j]) - 32..Size(es[j])] == DigestAt(x, es, j + 1)
  {
    hide Payload, DigestAt, Le;
    RecordSize(x, es, j, rest);
    RecordSize(x, es, j, []);
    var payload, digest := Payload(es[j], j + 1), DigestAt(x, es, j + 1);
    LeSize(|payload|, 4);
    var front := Le(|payload|, 4) + payload;
    assert RecordAt(x, es, j, rest) == front + digest + rest;
    assert RecordAt(x, es, j, []) == front + digest;
  }

  /** Looking up the offset and digest of any written record returns that record. */
  lemma {:induction false} IndexedReturns(x: Context, es: seq<Entry>, h: Header, header: seq<byte>, j: nat)
    requires Writable(es, h.config) && j < |es|
    requires |header| >= 32 && header[|header| - 32..] == x.first && h.bytes == |header|
    ensures var record := RecordOf(x, es, |header|, j);
            Indexed(header + AreaFrom(x, es, 0), h, record.offset, record.digest, x.domain, x.primitives) == Ok(record)
  {
    hide AreaFrom, ReadFrame, ReadEntry, Payload, Covered, Le, PutRecord, FromLe;
    var c, file := h.config, header + AreaFrom(x, es, 0);
    var record := RecordOf(x, es, |header|, j);
    AreaSplit(x, es, c, header, j);
    AreaStep(x, es, j);
    var rest := AreaFrom(x, es, j + 1);
    assert file[record.offset - 32..][..32] == DigestAt(x, es, j);
    assert file[record.offset - 32..][32..] == AreaFrom(x, es, j);
    var payload := Payload(es[j], j + 1);
    PayloadSize(es[j], j + 1);
    FrameRoundTrip(payload, record.digest, rest, c.maxRecordBytes);
    EntryRoundTrip(es[j], j + 1);
  }
}
