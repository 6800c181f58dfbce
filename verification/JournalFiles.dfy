/** The journal's writer and reader, which change their own counters as they go. */
module JournalFiles {
  import opened Common
  import opened Codec
  import opened DiskBudgets
  import opened HistoryModel
  import opened TupleStates
  import opened JournalRecords
  import opened JournalHeader
  import opened Journal

  // ---------------------------------------------------------------- what an append does to the bytes

  lemma {:induction false} DigestKept(x: Context, es: seq<Entry>, e: Entry, j: nat)
    requires j <= |es| < U64_MAX
    ensures DigestAt(x, es + [e], j) == DigestAt(x, es, j)
  {
    hide Payload, Chain;
    if j > 0 {
      DigestKept(x, es, e, j - 1);
    }
  }

  lemma {:induction false} RecordThen(x: Context, es: seq<Entry>, j: nat, rest: seq<byte>, more: seq<byte>)
    requires j < |es| <= U64_MAX
    ensures RecordAt(x, es, j, rest + more) == RecordAt(x, es, j, rest) + more
  {
    hide Payload, DigestAt, Le;
    var payload, digest := Payload(es[j], j + 1), DigestAt(x, es, j + 1);
    var front := Le(|payload|, 4) + payload + digest;
    assert RecordAt(x, es, j, rest + more) == front + (rest + more);
    assert RecordAt(x, es, j, rest) + more == front + rest + more;
  }

  lemma {:induction false} RecordKept(x: Context, es: seq<Entry>, e: Entry, j: nat, rest: seq<byte>)
    requires j < |es| < U64_MAX
    ensures RecordAt(x, es + [e], j, rest) == RecordAt(x, es, j, rest)
  {
    hide Payload, PutRecord, DigestAt;
    DigestKept(x, es, e, j + 1);
  }

  /** Appending an entry puts its record behind the area. */
  lemma {:induction false} AreaSnoc(x: Context, es: seq<Entry>, e: Entry, j: nat)
    requires j <= |es| < U64_MAX
    ensures AreaFrom(x, es + [e], j) == AreaFrom(x, es, j) + RecordAt(x, es + [e], |es|, [])
    decreases |es| - j
  {
    hide RecordAt;
    var last := RecordAt(x, es + [e], |es|, []);
    if j < |es| {
      AreaSnoc(x, es, e, j + 1);
      RecordThen(x, es, j, AreaFrom(x, es, j + 1), last);
      RecordKept(x, es, e, j, AreaFrom(x, es, j + 1) + last);
    }
  }

  lemma {:induction false} OffsetKept(es: seq<Entry>, e: Entry, j: nat)
    requires j <= |es|
    ensures OffsetAt(es + [e], j) == OffsetAt(es, j)
  {
    if j > 0 {
      OffsetKept(es, e, j - 1);
    }
  }

  // ---------------------------------------------------------------- the writer

  /** Everything a working writer knows about its file. */
  ghost predicate Written(file: seq<byte>, header: seq<byte>, x: Context, es: seq<Entry>, c: Config, position: nat, previous: Digest) {
    && Writable(es, c) && position == |header| + OffsetAt(es, |es|) <= U64_MAX
    && previous == DigestAt(x, es, |es|) && file == header + AreaFrom(x, es, 0)
  }

  lemma {:induction false} WrittenNext(file: seq<byte>, header: seq<byte>, x: Context, es: seq<Entry>, c: Config, position: nat, previous: Digest, e: Entry)
    requires Written(file, header, x, es, c, position, previous) && c.Valid() && |es| < c.maxRecords
    requires KnownKind(e.kind) && |e.body| + 9 <= c.maxRecordBytes && position + Size(e) <= U64_MAX
    requires es != [] ==> !JournalRecords.Terminal(es[|es| - 1].kind)
    ensures var payload := Payload(e, |es| + 1);
            var digest := Chain(x.domain, previous, payload, x.primitives);
            && |payload| == |e.body| + 9
            && Written(file + PutRecord(payload, digest, []), header, x, es + [e], c, position + Size(e), digest)
            && RecordOf(x, es + [e], |header|, |es|) == Record(e.kind, |es| + 1, e.body, position, digest)
  {
    hide AreaFrom, Payload, Chain, PutRecord, KnownKind, JournalRecords.Terminal;
    AreaSnoc(x, es, e, 0);
    DigestKept(x, es, e, |es|);
    OffsetKept(es, e, |es|);
    PayloadSize(e, |es| + 1);
    AppendWritable(es, c, e);
    var digest := Chain(x.domain, previous, Payload(e, |es| + 1), x.primitives);
    NewDigest(x, es, e);
    assert RecordAt(x, es + [e], |es|, []) == PutRecord(Payload(e, |es| + 1), digest, []);
    assert file + PutRecord(Payload(e, |es| + 1), digest, []) == header + (AreaFrom(x, es, 0) + PutRecord(Payload(e, |es| + 1), digest, []));
  }

  lemma {:induction false} NewDigest(x: Context, es: seq<Entry>, e: Entry)
    requires |es| < U64_MAX
    ensures DigestAt(x, es + [e], |es| + 1) == Chain(x.domain, DigestAt(x, es, |es|), Payload(e, |es| + 1), x.primitives)
  {
    hide Chain, Payload;
    DigestKept(x, es, e, |es|);
  }

  lemma {:induction false} AppendWritable(es: seq<Entry>, c: Config, e: Entry)
    requires Writable(es, c) && |es| < c.maxRecords && KnownKind(e.kind) && |e.body| + 9 <= c.maxRecordBytes
    requires es != [] ==> !JournalRecords.Terminal(es[|es| - 1].kind)
    ensures Writable(es + [e], c)
  {
    hide KnownKind, JournalRecords.Terminal;
  }

  class Writer {
    var file: seq<byte>
    var count: nat
    var position: nat
    var previous: Digest
    var poisoned: bool
    var terminal: bool
    const header: seq<byte>
    const config: Config
    const context: Context
    const quota: DiskBudget
    ghost var entries: seq<Entry>

    /** The file is the header and the records of the entries, unless a failure has poisoned it. */
    ghost predicate Valid()
      reads this
    {
      && config.Valid()
      && (!poisoned ==>
            && Written(file, header, context, entries, config, position, previous) && count == |entries|
            && (terminal <==> entries != [] && JournalRecords.Terminal(entries[|entries| - 1].kind)))
    }

    /** Start a journal with its header. */
    constructor (source: SourceIdentity, config: Config, domain: seq<byte>, o: Opaque, quota: DiskBudget)
      requires config.Valid() && |EncodeHeader(source, config, o).value.0| <= U64_MAX
      ensures Valid() && !poisoned && entries == [] && this.config == config && this.quota == quota
      ensures EncodeHeader(source, config, o) == Ok((header, context.first)) && file == header
      ensures context.domain == domain && context.primitives == o
    {
      EncodesHeader(source, config, o);
      var (bytes, digest) := EncodeHeader(source, config, o).value;
      this.file := bytes;
      this.count := 0;
      this.position := |bytes|;
      this.previous := digest;
      this.poisoned := false;
      this.terminal := false;
      this.header := bytes;
      this.config := config;
      this.context := Context(domain, digest, o);
      this.quota := quota;
      this.entries := [];
    }

    /** Append one record; the result says where it stands and what its digest is. */
    method Append(kind: u8, body: seq<byte>) returns (r: Result<(nat, Digest)>)
      requires Valid()
      modifies this, quota
      ensures Valid() && (old(poisoned) ==> poisoned)
      ensures r.Ok? ==>
                && !old(poisoned) && !old(terminal) && !poisoned
                && entries == old(entries) + [Entry(kind, body)]
                && |entries| <= U64_MAX
                && RecordOf(context, entries, |header|, |old(entries)|)
                   == Record(kind, |entries|, body, r.value.0, r.value.1)
      ensures r.Err? && !old(poisoned) && !old(terminal) ==>
                && poisoned
                && (|| !KnownKind(kind) || |body| + 9 > config.maxRecordBytes || old(count) >= config.maxRecords
                    || old(quota.used) + |body| + OVERHEAD > quota.maximum || old(position) + |body| + OVERHEAD > U64_MAX)
    {
      hide Written, Chain, Payload, PutRecord, KnownKind, RecordOf, Writable;
      if poisoned || terminal {
        return Err(Bad("history_writer"));
      }
      if !KnownKind(kind) {
        poisoned := true;
        return Err(Bad("history_kind"));
      }
      if |body| + 9 > config.maxRecordBytes || count >= config.maxRecords {
        poisoned := true;
        return Err(Limit("history_record"));
      }
      var payload := Payload(Entry(kind, body), count + 1);
      PayloadSize(Entry(kind, body), count + 1);
      var digest := Chain(context.domain, previous, payload, context.primitives);
      var ok := quota.Charge(|payload| + 36);
      if !ok {
        poisoned := true;
        return Err(Limit("history_disk"));
      }
      var offset := position;
      if position + |payload| + 36 > U64_MAX {
        file := file + PutRecord(payload, digest, []);
        poisoned := true;
        return Err(Limit("history_position"));
      }
      WrittenNext(file, header, context, entries, config, position, previous, Entry(kind, body));
      file := file + PutRecord(payload, digest, []);
      position := position + |payload| + 36;
      count := count + 1;
      previous := digest;
      terminal := kind == ABORT || kind == SEAL;
      entries := entries + [Entry(kind, body)];
      EntriesBound(file, header, context, entries, config, position, previous);
      r := Ok((offset, digest));
    }
  }

  /** Create a journal, paying for its header first. */
  method CreateJournal(source: SourceIdentity, config: Config, domain: seq<byte>, o: Opaque, quota: DiskBudget) returns (r: Result<Writer>)
    modifies quota
    ensures r.Ok? <==>
              && config.Valid()
              && old(quota.used) + |EncodeHeader(source, config, o).value.0| <= Min(quota.maximum, U64_MAX)
    ensures r.Ok? ==>
              && fresh(r.value) && r.value.Valid() && !r.value.poisoned && r.value.entries == [] && r.value.quota == quota
              && r.value.config == config && EncodeHeader(source, config, o) == Ok((r.value.header, r.value.context.first))
              && quota.used == old(quota.used) + |r.value.header|
  {
    hide EncodeHeader, Written;
    if !config.Valid() {
      return Err(CONFIG_ERROR);
    }
    EncodesHeader(source, config, o);
    var (bytes, digest) := EncodeHeader(source, config, o).value;
    if quota.used + |bytes| > U64_MAX {
      return Err(Limit("history_disk"));
    }
    var ok := quota.Charge(|bytes|);
    if !ok {
      return Err(Limit("history_disk"));
    }
    var w := new Writer(source, config, domain, o, quota);
    r := Ok(w);
  }

  lemma {:induction false} EntriesBound(file: seq<byte>, header: seq<byte>, x: Context, es: seq<Entry>, c: Config, position: nat, previous: Digest)
    requires Written(file, header, x, es, c, position, previous)
    ensures |es| <= U64_MAX
  {
  }

  // ---------------------------------------------------------------- the reader

  class Reader {
    const file: seq<byte>
    const config: Config
    const domain: seq<byte>
    const primitives: Opaque
    var at: nat
    var count: nat
    var position: nat
    var previous: Digest
    var sealed: bool
    var aborted: bool
    var ended: bool

    ghost predicate Valid()
      reads this
    {
      at <= |file|
    }

    ghost function State(): ReaderState
      reads this
      requires Valid()
    {
      ReaderState(file[at..], count, position, previous, sealed, aborted, ended)
    }

    /** Stand behind the header. */
    constructor (file: seq<byte>, h: Header, at: nat, domain: seq<byte>, o: Opaque)
      requires at <= |file|
      ensures Valid() && State() == Opened(h, file[at..]) && this.config == h.config && this.domain == domain && this.primitives == o
      ensures this.file == file
    {
      this.file := file;
      this.config := h.config;
      this.domain := domain;
      this.primitives := o;
      this.at := at;
      this.count := 0;
      this.position := h.bytes;
      this.previous := h.digest;
      this.sealed := false;
      this.aborted := false;
      this.ended := false;
    }

    /** Read the fields of the record under the cursor. */
    method Fields() returns (r: Result<Frame>)
      requires Valid()
      ensures r == ReadFrame(file[at..], count < config.maxRecords, config.maxRecordBytes)
      ensures r.Ok? ==> at + 36 + |r.value.payload| <= |file| && r.value.rest == file[at + 36 + |r.value.payload|..]
    {
      hide FromLe;
      if |file| - at < 4 {
        return Err(CUT);
      }
      var length := file[at..at + 4];
      var n := FromLe(length);
      assert file[at..][..4] == length && file[at..][4..] == file[at + 4..];
      if n < 9 || n > config.maxRecordBytes || count >= config.maxRecords {
        return Err(Limit("history_record"));
      }
      if |file| - at < 4 + n {
        return Err(CUT);
      }
      var payload := file[at + 4..at + 4 + n];
      assert file[at + 4..][..n] == payload && file[at + 4..][n..] == file[at + 4 + n..];
      if |file| - at < 36 + n {
        return Err(CUT);
      }
      var stored := file[at + 4 + n..at + 36 + n];
      assert file[at + 4 + n..][..32] == stored && file[at + 4 + n..][32..] == file[at + 36 + n..];
      r := Ok(Frame(length, payload, stored, file[at + 36 + n..]));
    }

    method NextRecord() returns (r: Result<Option<Record>>)
      requires Valid()
      modifies this
      ensures Valid()
      ensures r == JournalRecords.NextRecord(old(State()), config, domain, primitives).1
      ensures r.Ok? && r.value.Some? ==> State() == JournalRecords.NextRecord(old(State()), config, domain, primitives).0
      ensures !(r.Ok? && r.value.Some?) ==> ended
    {
      hide ReadEntry, Covered, KnownKind, ReadFrame;
      if ended {
        return Ok(None);
      }
      if at == |file| {
        ended := true;
        return Ok(None);
      }
      ended := true;
      if sealed || aborted {
        return Err(Bad("history_terminal"));
      }
      var f := Fields();
      if f.Err? {
        return Err(f.error);
      }
      var payload, stored := f.value.payload, f.value.digest;
      if primitives.sha256(Covered(domain, previous, f.value.length, payload)) != stored {
        return Err(Bad("history_chain"));
      }
      var parsed := ReadEntry(payload);
      if parsed.Err? {
        return Err(parsed.error);
      }
      var (kind, sequence, body) := parsed.value;
      if sequence != count + 1 || !KnownKind(kind) {
        return Err(Bad("history_sequence"));
      }
      if position + |payload| + 36 > U64_MAX {
        return Err(Limit("history_position"));
      }
      r := Ok(Some(Record(kind, sequence, body, position, stored)));
      ended := false;
      position := position + |payload| + 36;
      count := sequence;
      previous := stored;
      sealed := kind == SEAL;
      aborted := kind == ABORT;
      at := at + 36 + |payload|;
    }
  }
}
