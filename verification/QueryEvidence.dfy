/**
 What stands behind an index row: the journal record it names, the placement that record decided, and
 the bytes of the original capture. A row is followed only if all three agree.
 */
module QueryEvidence {
  import opened Common
  import opened Codec
  import opened HistoryModel
  import opened HistoryInput
  import opened TupleStates
  import opened TupleCodec
  import opened RowIndex
  import opened RowSearch
  import opened JournalRecords
  import opened JournalHeader
  import opened Journal
  import opened RangeQuery

  // ---------------------------------------------------------------- decisions as records

  datatype Placed = Placed(generation: Digest, direction: u8, offset: i64, selected: bool)

  /** A decision as the journal keeps it; reasons are texts. */
  datatype Stored = Stored(before: Digest, after: Digest, policyAssumption: bool, placements: seq<Placed>, reasons: seq<seq<byte>>)

  function PutPlaced(p: Placed, rest: seq<byte>): seq<byte> {
    PutRaw(p.generation, PutNumber(p.direction, 1, PutI64(p.offset, PutFlag(p.selected, rest))))
  }

  function ReadPlaced(b: seq<byte>): Read<Placed> {
    var (generation, b1) :- Take(b, 32);
    var (direction, b2) :- ReadNumber(b1, 1);
    var (offset, b3) :- ReadI64(b2);
    var (selected, b4) :- ReadFlag(b3);
    if direction > 1 then Err(Bad("history_direction")) else Ok((Placed(generation, direction, offset, selected), b4))
  }

  function PutAllPlaced(v: seq<Placed>, rest: seq<byte>): seq<byte> {
    if v == [] then rest else PutPlaced(v[0], PutAllPlaced(v[1..], rest))
  }

  function ReadAllPlaced(b: seq<byte>, n: nat): Read<seq<Placed>> {
    if n == 0 then Ok(([], b))
    else
      var (v, b1) :- ReadPlaced(b);
      var (vs, b2) :- ReadAllPlaced(b1, n - 1);
      Ok(([v] + vs, b2))
  }

  function EncodeDecision(d: Stored): seq<byte> {
    PutRaw(d.before, PutRaw(d.after, PutFlag(d.policyAssumption,
      PutNumber(|d.placements|, 4, PutAllPlaced(d.placements, PutNumber(|d.reasons|, 4, PutTexts(d.reasons, [])))))))
  }

  function DecodeDecision(b: seq<byte>, c: Config, o: Opaque): Result<Stored> {
    var (before, b1) :- Take(b, 32);
    var (after, b2) :- Take(b1, 32);
    var (assumption, b3) :- ReadFlag(b2);
    var (n, b4) :- ReadU32(b3);
    if n > c.maxGenerations * c.maxEpochCandidates then Err(Limit("history_candidates"))
    else
      var (placements, b5) :- ReadAllPlaced(b4, n);
      var (m, b6) :- ReadU32(b5);
      if m > 32 then Err(Limit("history_reasons"))
      else
        var (reasons, b7) :- ReadTexts(b6, m, 256, o.utf8);
        var done :- Finish(reasons, b7);
        Ok(Stored(before, after, assumption, placements, reasons))
  }

  ghost predicate Storable(d: Stored, c: Config, o: Opaque) {
    && |d.placements| <= c.maxGenerations * c.maxEpochCandidates && |d.placements| < MODULUS && |d.reasons| <= 32
    && (forall i | 0 <= i < |d.placements| :: d.placements[i].direction <= 1)
    && (forall i | 0 <= i < |d.reasons| :: |d.reasons[i]| <= 256 && o.utf8(d.reasons[i]))
  }

  lemma {:induction false} PlacedRoundTrip(p: Placed, rest: seq<byte>)
    requires p.direction <= 1
    ensures ReadPlaced(PutPlaced(p, rest)) == Ok((p, rest))
  {
    hide PutRaw, Take, PutNumber, ReadNumber, PutI64, ReadI64, PutFlag, ReadFlag;
    FlagRoundTrip(p.selected, rest);
    var e3 := PutFlag(p.selected, rest);
    I64RoundTrip(p.offset, e3);
    var e2 := PutI64(p.offset, e3);
    ByteRoundTrip(p.direction, e2);
    RawRoundTrip(p.generation, PutNumber(p.direction, 1, e2));
  }

  lemma {:induction false} AllPlacedRoundTrip(v: seq<Placed>, rest: seq<byte>)
    requires forall i | 0 <= i < |v| :: v[i].direction <= 1
    ensures ReadAllPlaced(PutAllPlaced(v, rest), |v|) == Ok((v, rest))
  {
    hide PutPlaced, ReadPlaced;
    if v != [] {
      AllPlacedRoundTrip(v[1..], rest);
      PlacedRoundTrip(v[0], PutAllPlaced(v[1..], rest));
      assert v == [v[0]] + v[1..];
    }
  }

  /** A decision within its bounds reads back as itself. */
  lemma {:induction false} DecisionRoundTrip(d: Stored, c: Config, o: Opaque)
    requires Storable(d, c, o)
    ensures DecodeDecision(EncodeDecision(d), c, o) == Ok(d)
  {
    hide PutRaw, Take, PutNumber, ReadU32, PutFlag, ReadFlag, PutAllPlaced, ReadAllPlaced, PutTexts, ReadTexts;
    TextsRoundTrip(d.reasons, 256, o.utf8, []);
    var e5 := PutTexts(d.reasons, []);
    U32RoundTrip(|d.reasons|, e5);
    var e4 := PutNumber(|d.reasons|, 4, e5);
    AllPlacedRoundTrip(d.placements, e4);
    var e3 := PutAllPlaced(d.placements, e4);
    U32RoundTrip(|d.placements|, e3);
    var e2 := PutNumber(|d.placements|, 4, e3);
    FlagRoundTrip(d.policyAssumption, e2);
    var e1 := PutFlag(d.policyAssumption, e2);
    RawRoundTrip(d.after, e1);
    RawRoundTrip(d.before, PutRaw(d.after, e1));
  }

  // ---------------------------------------------------------------- observation records

  /** The body of the record that keeps an observation and what was decided about it. */
  function TcpBody(i: TcpInput, d: Stored, o: Opaque): Result<seq<byte>> {
    var input :- EncodeInput(i, o);
    Ok(PutBytes(input, PutBytes(EncodeDecision(d), [])))
  }

  function DecodeTcpBody(b: seq<byte>, c: Config, o: Opaque): Result<(TcpInput, Packet, Stored)> {
    var (input, b1) :- ReadBytes(b, c.maxRecordBytes);
    var i :- ReadInput(input, c, o);
    var p :- Derive(i, c, o);
    var (decision, b2) :- ReadBytes(b1, c.maxRecordBytes);
    var d :- DecodeDecision(decision, c, o);
    Finish((i, p, d), b2)
  }

  lemma {:induction false} TcpBodyRoundTrip(i: TcpInput, d: Stored, c: Config, o: Opaque)
    requires c.Valid() && Strings(i.key, o) && Derive(i, c, o).Ok? && Storable(d, c, o)
    requires TcpBody(i, d, o).Ok? ==> |TcpBody(i, d, o).value| <= c.maxRecordBytes
    ensures TcpBody(i, d, o).Ok?
    ensures DecodeTcpBody(TcpBody(i, d, o).value, c, o) == Ok((i, Derive(i, c, o).value, d))
  {
    hide EncodeInput, ReadInput, Derive, EncodeDecision, DecodeDecision, PutBytes, ReadBytes;
    DerivedBounds(i, c, o);
    InputCodec(i, c, o);
    DecisionRoundTrip(d, c, o);
    var input, decision := EncodeInput(i, o).value, EncodeDecision(d);
    BytesSize(decision, []);
    BytesSize(input, PutBytes(decision, []));
    BytesRoundTrip(decision, c.maxRecordBytes, []);
    BytesRoundTrip(input, c.maxRecordBytes, PutBytes(decision, []));
  }

  lemma {:induction false} BytesSize(v: seq<byte>, rest: seq<byte>)
    ensures |PutBytes(v, rest)| == 4 + |v| + |rest|
  {
    hide Le;
    LeSize(|v|, 4);
  }

  lemma {:induction false} DerivedBounds(i: TcpInput, c: Config, o: Opaque)
    requires Derive(i, c, o).Ok?
    ensures Canonical(i.key, o) && |i.raw| <= 65535 && |i.witnesses| <= c.maxWitnesses && WitnessesTile(i.witnesses, |i.raw|)
    ensures Derive(i, c, o).value.payload <= |i.raw|
  {
    hide Canonical, CheckOptions, WitnessesTile, Bit;
  }

  // ---------------------------------------------------------------- the workspace behind a query

  /** A line of the packet table: where a packet of the capture stands. */
  datatype PacketRow = PacketRow(recordOffset: u64, dataOffset: u64, captured: u32)

  /** The files a query reads. */
  datatype Workspace = Workspace(
    journal: seq<byte>,
    header: Header,
    domain: seq<byte>,
    packets: u64 -> Result<PacketRow>,
    capture: seq<byte>)

  /** The witnessed bytes lie in their packet, and the capture still shows them. */
  predicate WitnessHolds(w: Witness, raw: seq<byte>, ws: Workspace) {
    && w.start <= w.end <= |raw| && ws.packets(w.frame).Ok?
    && var p, n := ws.packets(w.frame).value, w.end - w.start;
       && p.recordOffset == w.recordOffset && w.packetStart + n <= p.captured && p.dataOffset + w.packetStart == w.sourceOffset
       && w.sourceOffset + n <= |ws.capture| && ws.capture[w.sourceOffset..w.sourceOffset + n] == raw[w.start..w.end]
  }

  predicate WitnessesHold(i: TcpInput, ws: Workspace) {
    forall k | 0 <= k < |i.witnesses| :: WitnessHolds(i.witnesses[k], i.raw, ws)
  }

  /** The bytes of the capture read to check the first k witnesses. */
  function WitnessedTo(v: seq<Witness>, k: nat): nat
    requires k <= |v|
  {
    if k == 0 then 0 else WitnessedTo(v, k - 1) + Max(0, v[k - 1].end - v[k - 1].start)
  }

  function PayloadOf(i: TcpInput, p: Packet): seq<byte> {
    if p.payload <= |i.raw| then i.raw[|i.raw| - p.payload..] else []
  }

  predicate Decided(d: Stored, r: Row) {
    Placed(r.generation, r.direction, r.start, r.selected) in d.placements
  }

  /** Follow a row: its record must be the one named, have decided the placement, and agree with the capture. */
  function Follow(r: Row, ws: Workspace, o: Opaque): Result<Fetched> {
    var c := ws.header.config;
    var record :- Indexed(ws.journal, ws.header, r.recordOffset, r.recordDigest, ws.domain, o);
    if record.kind != TCP || record.sequence != r.ordinal then Err(Bad("history_index"))
    else
      var (i, p, d) :- DecodeTcpBody(record.body, c, o);
      if r.end - r.start != p.payload || !Decided(d, r) then Err(Bad("history_index"))
      else if !WitnessesHold(i, ws) then Err(Bad("history_witness"))
      else Ok(Fetched(PayloadOf(i, p), |record.body|, WitnessedTo(i.witnesses, |i.witnesses|)))
  }

  // ---------------------------------------------------------------- what is written can be followed

  /** The journal behind the workspace, as it was written. */
  ghost predicate Written(ws: Workspace, x: Context, es: seq<Entry>, header: seq<byte>) {
    && ws.header.config.Valid() && Writable(es, ws.header.config) && |header| >= 32 && header[|header| - 32..] == x.first
    && ws.header.bytes == |header| && ws.domain == x.domain && ws.journal == header + AreaFrom(x, es, 0)
    && |header| + OffsetAt(es, |es|) <= U64_MAX
  }

  /** Entry j keeps this observation and decision. */
  ghost predicate Keeps(es: seq<Entry>, j: nat, i: TcpInput, d: Stored, ws: Workspace, o: Opaque) {
    && j < |es| && es[j].kind == TCP && TcpBody(i, d, o) == Ok(es[j].body)
    && Strings(i.key, o) && Derive(i, ws.header.config, o).Ok? && Storable(d, ws.header.config, o) && WitnessesHold(i, ws)
  }

  /** The row written for placement k of that decision. */
  ghost predicate RowOf(r: Row, x: Context, es: seq<Entry>, base: nat, j: nat, i: TcpInput, d: Stored, k: nat, c: Config, o: Opaque) {
    && j < |es| <= U64_MAX && k < |d.placements| && Derive(i, c, o).Ok?
    && var q, record := d.placements[k], RecordOf(x, es, base, j);
       && r.generation == q.generation && r.direction == q.direction && r.start == q.offset && r.selected == q.selected
       && r.end == q.offset + Derive(i, c, o).value.payload
       && r.recordOffset == record.offset && r.recordDigest == record.digest && r.ordinal == j + 1
  }

  /** A row the pipeline wrote leads back to the payload it was written for. */
  lemma {:induction false} RowFollows(r: Row, ws: Workspace, x: Context, es: seq<Entry>, header: seq<byte>, j: nat, i: TcpInput, d: Stored, k: nat)
    requires Written(ws, x, es, header) && Keeps(es, j, i, d, ws, x.primitives)
    requires RowOf(r, x, es, |header|, j, i, d, k, ws.header.config, x.primitives)
    ensures Follow(r, ws, x.primitives)
            == Ok(Fetched(PayloadOf(i, Derive(i, ws.header.config, x.primitives).value), |es[j].body|, |i.raw|))
  {
    hide Indexed, DecodeTcpBody, TcpBody, Derive, WitnessesHold, Storable, AreaFrom, OffsetAt, DigestAt, WitnessesTile;
    var c, o := ws.header.config, x.primitives;
    IndexedReturns(x, es, ws.header, header, j);
    EntryFits(es, c, j);
    TcpBodyRoundTrip(i, d, c, o);
    DerivedBounds(i, c, o);
    WitnessedAll(i.witnesses, |i.raw|, |i.witnesses|);
    assert d.placements[k] == Placed(r.generation, r.direction, r.start, r.selected);
  }

  lemma {:induction false} EntryFits(es: seq<Entry>, c: Config, j: nat)
    requires Writable(es, c) && j < |es|
    ensures |es[j].body| <= c.maxRecordBytes
  {
    hide KnownKind, JournalRecords.Terminal;
  }

  lemma {:induction false} WitnessedAll(v: seq<Witness>, size: nat, k: nat)
    requires WitnessesTile(v, size) && k <= |v|
    ensures WitnessedTo(v, k) == WitnessCursor(v, k) && WitnessCursor(v, |v|) == size
  {
    hide WitnessesTile;
    TileEnds(v, size);
    if k > 0 {
      WitnessedAll(v, size, k - 1);
      TileAt(v, size, k - 1);
    }
  }

  lemma {:induction false} TileAt(v: seq<Witness>, size: nat, k: nat)
    requires WitnessesTile(v, size) && k < |v|
    ensures v[k].start == WitnessCursor(v, k) < v[k].end
  {
    assert WitnessFits(v[k], WitnessCursor(v, k), size);
  }

  lemma {:induction false} TileEnds(v: seq<Witness>, size: nat)
    requires WitnessesTile(v, size)
    ensures WitnessCursor(v, |v|) == size
  {
  }

  /** Every row was written for some placement of some kept decision. */
  ghost predicate AllWritten(rows: seq<Row>, ws: Workspace, x: Context, es: seq<Entry>, header: seq<byte>) {
    forall n | 0 <= n < |rows| :: IsWritten(rows[n], ws, x, es, header)
  }

  ghost predicate IsWritten(r: Row, ws: Workspace, x: Context, es: seq<Entry>, header: seq<byte>) {
    exists j, i, d, k :: Keeps(es, j, i, d, ws, x.primitives) && RowOf(r, x, es, |header|, j, i, d, k, ws.header.config, x.primitives)
  }

  /** Over what the pipeline wrote, no query ever misses the evidence of a row. */
  lemma {:induction false} AlwaysBacked(rows: seq<Row>, w: Window, ws: Workspace, x: Context, es: seq<Entry>, header: seq<byte>)
    requires Written(ws, x, es, header) && AllWritten(rows, ws, x, es, header)
    ensures !Unbacked(rows, w, r => Follow(r, ws, x.primitives))
  {
    hide Written, Keeps, RowOf, Follow, Overlaps, Derive;
    forall n | 0 <= n < |rows| ensures Follows(rows[n], r => Follow(r, ws, x.primitives)) {
      var r := rows[n];
      assert IsWritten(r, ws, x, es, header);
      var j, i, d, k :| Keeps(es, j, i, d, ws, x.primitives) && RowOf(r, x, es, |header|, j, i, d, k, ws.header.config, x.primitives);
      RowFollows(r, ws, x, es, header, j, i, d, k);
      RowPayload(r, ws, x, es, |header|, j, i, d, k);
    }
  }

  lemma {:induction false} RowPayload(r: Row, ws: Workspace, x: Context, es: seq<Entry>, base: nat, j: nat, i: TcpInput, d: Stored, k: nat)
    requires RowOf(r, x, es, base, j, i, d, k, ws.header.config, x.primitives)
    ensures Derive(i, ws.header.config, x.primitives).Ok?
    ensures |PayloadOf(i, Derive(i, ws.header.config, x.primitives).value)| == r.end - r.start
  {
    hide Derive, OffsetAt, DigestAt;
    DerivedBounds(i, ws.header.config, x.primitives);
  }

  // ---------------------------------------------------------------- what is followed is in the capture

  /** Byte y of the payload is what the capture shows where some witness says so. */
  ghost predicate Shown(i: TcpInput, ws: Workspace, payload: seq<byte>, y: nat) {
    exists k | 0 <= k < |i.witnesses| ::
      && WitnessHolds(i.witnesses[k], i.raw, ws)
      && var at := |i.raw| - |payload| + y;
         && i.witnesses[k].start <= at < i.witnesses[k].end && y < |payload|
         && payload[y] == ws.capture[i.witnesses[k].sourceOffset + (at - i.witnesses[k].start)]
  }

  lemma {:induction false} Witnessed(v: seq<Witness>, size: nat, at: nat, k: nat) returns (j: nat)
    requires WitnessesTile(v, size) && k <= |v| && at < WitnessCursor(v, k)
    ensures j < k && v[j].start <= at < v[j].end
  {
    hide WitnessesTile;
    TileAt(v, size, k - 1);
    if v[k - 1].start <= at {
      j := k - 1;
    } else {
      j := Witnessed(v, size, at, k - 1);
    }
  }

  /** What the row's own record holds, read as the observation and the decision it keeps. */
  ghost predicate Recorded(r: Row, ws: Workspace, o: Opaque, i: TcpInput, p: Packet, d: Stored) {
    var record := Indexed(ws.journal, ws.header, r.recordOffset, r.recordDigest, ws.domain, o);
    && record.Ok? && record.value.kind == TCP && record.value.sequence == r.ordinal
    && DecodeTcpBody(record.value.body, ws.header.config, o) == Ok((i, p, d))
  }

  /**
   Whatever the journal and the index contain, a row that can be followed names a record whose decision
   made its placement. Its payload is that record's observed payload, and every byte of it is shown by
   the capture at a position the same observation witnesses.
   */
  lemma {:induction false} FollowedIsCaptured(r: Row, ws: Workspace, o: Opaque) returns (i: TcpInput, p: Packet, d: Stored)
    requires Follow(r, ws, o).Ok?
    ensures Recorded(r, ws, o, i, p, d) && Decided(d, r) && WitnessesHold(i, ws)
    ensures var payload := Follow(r, ws, o).value.payload;
            && payload == PayloadOf(i, p) && |payload| == r.end - r.start
            && forall y: nat | y < |payload| :: Shown(i, ws, payload, y)
  {
    hide Indexed, DecodeTcpBody, Derive, WitnessHolds, WitnessesTile, Shown;
    var c := ws.header.config;
    var record := Indexed(ws.journal, ws.header, r.recordOffset, r.recordDigest, ws.domain, o).value;
    var (input, packet, stored) := DecodeTcpBody(record.body, c, o).value;
    i, p, d := input, packet, stored;
    DecodedDerives(record.body, c, o);
    DerivedBounds(i, c, o);
    forall y: nat | y < |PayloadOf(i, p)| ensures Shown(i, ws, PayloadOf(i, p), y) {
      ByteShown(i, p, ws, y);
    }
  }

  lemma {:induction false} ByteShown(i: TcpInput, p: Packet, ws: Workspace, y: nat)
    requires WitnessesTile(i.witnesses, |i.raw|) && WitnessesHold(i, ws) && p.payload <= |i.raw| && y < p.payload
    ensures Shown(i, ws, PayloadOf(i, p), y)
  {
    hide WitnessHolds, WitnessesTile;
    var at := |i.raw| - p.payload + y;
    TileEnds(i.witnesses, |i.raw|);
    var k := Witnessed(i.witnesses, |i.raw|, at, |i.witnesses|);
    assert WitnessHolds(i.witnesses[k], i.raw, ws);
    ShownAt(i.witnesses[k], i.raw, ws, at);
  }

  lemma {:induction false} ShownAt(w: Witness, raw: seq<byte>, ws: Workspace, at: nat)
    requires WitnessHolds(w, raw, ws) && w.start <= at < w.end
    ensures at < |raw| && w.sourceOffset + (at - w.start) < |ws.capture|
    ensures raw[at] == ws.capture[w.sourceOffset + (at - w.start)]
  {
    var n := w.end - w.start;
    assert raw[w.start..w.end][at - w.start] == ws.capture[w.sourceOffset..w.sourceOffset + n][at - w.start];
  }

  lemma {:induction false} DecodedDerives(b: seq<byte>, c: Config, o: Opaque)
    requires DecodeTcpBody(b, c, o).Ok?
    ensures Derive(DecodeTcpBody(b, c, o).value.0, c, o) == Ok(DecodeTcpBody(b, c, o).value.1)
  {
    hide Derive, ReadInput, DecodeDecision, ReadBytes;
  }
}
