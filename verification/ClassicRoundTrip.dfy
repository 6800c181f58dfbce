/** Classic captures: what the PCAP writer wrote comes back with the same bytes and the same instants. */
module ClassicRoundTrip {
  import opened Common
  import opened Clock
  import opened CaptureModel
  import opened CaptureFields
  import opened CaptureParity

  datatype Classic = Classic(endian: Endian, nanos: bool, linkType: u16, snaplen: u32)

  datatype Sent = Sent(seconds: u32, fraction: u32, original: u32, data: seq<byte>)

  function HeaderBytes(c: Classic): (b: seq<byte>)
    ensures |b| == 24
  {
    var e := c.endian;
    Put32(e, if c.nanos then 0xA1B23C4D else 0xA1B2C3D4) + Put16(e, 2) + Put16(e, 4) + Put32(e, 0) + Put32(e, 0)
    + Put32(e, c.snaplen) + Put32(e, c.linkType)
  }

  predicate Fits(p: Sent, c: Classic, limits: Limits) {
    && |p.data| <= limits.maxPacketBytes && |p.data| <= c.snaplen && |p.data| <= p.original
    && Legacy(p.seconds, p.fraction, c.nanos).Ok?
  }

  function PacketBytes(p: Sent, e: Endian): (b: seq<byte>)
    requires |p.data| < MODULUS
    ensures |b| == 16 + |p.data|
  {
    Put32(e, p.seconds) + Put32(e, p.fraction) + Put32(e, |p.data|) + Put32(e, p.original) + p.data
  }

  ghost predicate AllFit(ps: seq<Sent>, c: Classic, limits: Limits) {
    forall i | 0 <= i < |ps| :: Fits(ps[i], c, limits)
  }

  ghost predicate Small(ps: seq<Sent>) {
    forall i | 0 <= i < |ps| :: |ps[i].data| < MODULUS
  }

  function BytesFrom(ps: seq<Sent>, e: Endian, k: nat): seq<byte>
    requires k <= |ps| && Small(ps)
    decreases |ps| - k
  {
    if k == |ps| then [] else PacketBytes(ps[k], e) + BytesFrom(ps, e, k + 1)
  }

  // ---------------------------------------------------------------- header

  function HeaderOf(c: Classic): LegacyHeader {
    LegacyHeader(c.endian, c.nanos, c.snaplen, c.linkType)
  }

  /** The decoder once the header has been read and n packets after it. */
  function Reading(c: Classic, n: nat): Decoder {
    START.(format := Some(Pcap), endian := c.endian, legacy := Some(HeaderOf(c)), nextFrame := n + 1, records := n + 1)
  }

  lemma {:induction false} HeaderFields(c: Classic)
    ensures var b, e := HeaderBytes(c), c.endian;
            && b[..4] == Put32(e, if c.nanos then 0xA1B23C4D else 0xA1B2C3D4)
            && U16(e, b, 4) == 2 && U16(e, b, 6) == 4 && U32(e, b, 16) == c.snaplen && U32(e, b, 20) == c.linkType
  {
    hide Put16, Put32, U16, U32;
    var b, e := HeaderBytes(c), c.endian;
    assert b[4..6] == Put16(e, 2);
    assert b[6..8] == Put16(e, 4);
    assert b[16..20] == Put32(e, c.snaplen);
    assert b[20..24] == Put32(e, c.linkType);
    Read16(e, 2, b, 4);
    Read16(e, 4, b, 6);
    Read32(e, c.snaplen, b, 16);
    Read32(e, c.linkType, b, 20);
  }

  lemma {:induction false} HeaderDecodes(c: Classic, rest: seq<byte>, s: Setup)
    requires c.snaplen > 0 && s.limits.Valid() && 24 + |rest| <= U64_MAX
    ensures NextStep(START, HeaderBytes(c) + rest, 0, s)
         == Item(Reading(c, 0), Record(0, c.endian, HeaderBytes(c), Header(HeaderOf(c)), [], []))
  {
    hide U16, U32, HeaderBytes, LegacyMagic, BlockNeed, Finish;
    var b := HeaderBytes(c);
    HeaderFields(c);
    LegacyMagicIs(c.endian, c.nanos);
    assert (b + rest)[..4] == b[..4];
    assert (b + rest)[..24] == b;
  }

  // ---------------------------------------------------------------- packets

  lemma {:induction false} PacketFieldsRead(p: Sent, e: Endian, rest: seq<byte>)
    requires |p.data| < MODULUS
    ensures var b := PacketBytes(p, e) + rest;
            && U32(e, b, 0) == p.seconds && U32(e, b, 4) == p.fraction && U32(e, b, 8) == |p.data| && U32(e, b, 12) == p.original
            && b[..16 + |p.data|] == PacketBytes(p, e) && PacketBytes(p, e)[16..] == p.data
  {
    hide Put32, U32;
    var b := PacketBytes(p, e) + rest;
    assert b[0..4] == Put32(e, p.seconds);
    assert b[4..8] == Put32(e, p.fraction);
    assert b[8..12] == Put32(e, |p.data|);
    assert b[12..16] == Put32(e, p.original);
    Read32(e, p.seconds, b, 0);
    Read32(e, p.fraction, b, 4);
    Read32(e, |p.data|, b, 8);
    Read32(e, p.original, b, 12);
  }

  function RecordOf(p: Sent, c: Classic, frame: nat, offset: nat): Record
    requires |p.data| < MODULUS && Legacy(p.seconds, p.fraction, c.nanos).Ok?
  {
    Record(offset, c.endian, PacketBytes(p, c.endian),
           Packet(PacketMeta(frame, 0, 0, c.linkType, |p.data|, p.original, 16, Some(Legacy(p.seconds, p.fraction, c.nanos).value))), [], [])
  }

  lemma {:induction false} PacketDecodes(c: Classic, n: nat, p: Sent, rest: seq<byte>, offset: nat, s: Setup)
    requires Fits(p, c, s.limits) && |p.data| < MODULUS && n + 1 < s.limits.maxRecords
    requires offset + 16 + |p.data| + |rest| <= U64_MAX
    ensures NextStep(Reading(c, n), PacketBytes(p, c.endian) + rest, offset, s)
         == Item(Reading(c, n + 1), RecordOf(p, c, n + 1, offset))
  {
    hide U16, U32, PacketBytes, Legacy, Finish, BlockNeed;
    var e := c.endian;
    var raw := PacketBytes(p, e);
    PacketFieldsRead(p, e, rest);
    PacketFieldsRead(p, e, []);
    assert raw + [] == raw;
  }

  /** The records of the packets from k on. */
  ghost function Expected(ps: seq<Sent>, c: Classic, k: nat, offset: nat, limits: Limits): seq<Record>
    requires k <= |ps| && Small(ps) && AllFit(ps, c, limits)
    decreases |ps| - k
  {
    if k == |ps| then []
    else
      assert Fits(ps[k], c, limits);
      [RecordOf(ps[k], c, k + 1, offset)] + Expected(ps, c, k + 1, offset + 16 + |ps[k].data|, limits)
  }

  lemma {:induction false} PacketsComeBack(c: Classic, ps: seq<Sent>, k: nat, offset: nat, s: Setup)
    requires k <= |ps| && Small(ps) && AllFit(ps, c, s.limits) && |ps| + 1 <= s.limits.maxRecords
    requires offset + |BytesFrom(ps, c.endian, k)| <= U64_MAX
    ensures Records(Reading(c, k), BytesFrom(ps, c.endian, k), offset, s) == (Expected(ps, c, k, offset, s.limits), true)
    decreases |ps| - k
  {
    hide NextStep, Fits, PacketBytes, RecordOf, Records, Reading;
    if k == |ps| {
      CleanEnd(c, k, offset, s);
    } else {
      var p, rest := ps[k], BytesFrom(ps, c.endian, k + 1);
      assert Fits(p, c, s.limits);
      PacketSize(p, c.endian);
      PacketDecodes(c, k, p, rest, offset, s);
      RawIs(p, c, k + 1, offset, s.limits);
      RecordsUnfold(Reading(c, k), PacketBytes(p, c.endian), rest, offset, s);
      PacketsComeBack(c, ps, k + 1, offset + 16 + |p.data|, s);
    }
  }

  lemma {:induction false} PacketSize(p: Sent, e: Endian)
    requires |p.data| < MODULUS
    ensures |PacketBytes(p, e)| == 16 + |p.data|
  {
  }

  lemma {:induction false} RawIs(p: Sent, c: Classic, frame: nat, offset: nat, limits: Limits)
    requires |p.data| < MODULUS && Fits(p, c, limits)
    ensures RecordOf(p, c, frame, offset).raw == PacketBytes(p, c.endian)
  {
  }

  lemma {:induction false} CleanEnd(c: Classic, n: nat, offset: nat, s: Setup)
    ensures Records(Reading(c, n), [], offset, s) == ([], true)
  {
  }

  /** A classic capture decodes to its header and its packets, each with the instant it was given. */
  lemma {:induction false} ClassicComesBack(c: Classic, ps: seq<Sent>, s: Setup)
    requires c.snaplen > 0 && s.limits.Valid() && Small(ps) && AllFit(ps, c, s.limits) && |ps| + 1 <= s.limits.maxRecords
    requires 24 + |BytesFrom(ps, c.endian, 0)| <= U64_MAX
    ensures Records(START, HeaderBytes(c) + BytesFrom(ps, c.endian, 0), 0, s)
         == ([Record(0, c.endian, HeaderBytes(c), Header(HeaderOf(c)), [], [])] + Expected(ps, c, 0, 24, s.limits), true)
  {
    hide NextStep, Records, BytesFrom, AllFit, Expected, HeaderBytes, Reading;
    var rest := BytesFrom(ps, c.endian, 0);
    HeaderSize(c);
    HeaderDecodes(c, rest, s);
    RecordsUnfold(START, HeaderBytes(c), rest, 0, s);
    PacketsComeBack(c, ps, 0, 24, s);
  }

  lemma {:induction false} HeaderSize(c: Classic)
    ensures |HeaderBytes(c)| == 24
  {
  }

  // ---------------------------------------------------------------- the writer

  lemma {:induction false} BytesSnoc(ps: seq<Sent>, p: Sent, e: Endian, k: nat)
    requires k <= |ps| && Small(ps) && |p.data| < MODULUS
    ensures Small(ps + [p]) && BytesFrom(ps + [p], e, k) == BytesFrom(ps, e, k) + PacketBytes(p, e)
    decreases |ps| - k
  {
    hide PacketBytes;
    if k < |ps| {
      BytesSnoc(ps, p, e, k + 1);
    } else {
      assert BytesFrom(ps + [p], e, k + 1) == [];
    }
  }

  lemma {:induction false} FitsIs(p: Sent, c: Classic, limits: Limits)
    requires |p.data| <= limits.maxPacketBytes && |p.data| <= c.snaplen && |p.data| <= p.original
    requires Legacy(p.seconds, p.fraction, c.nanos).Ok?
    ensures Fits(p, c, limits)
  {
    hide Legacy;
  }

  lemma {:induction false} FitSnoc(ps: seq<Sent>, p: Sent, c: Classic, limits: Limits)
    requires AllFit(ps, c, limits) && Fits(p, c, limits)
    ensures AllFit(ps + [p], c, limits)
  {
    hide Fits;
  }

  class PcapWriter {
    var output: seq<byte>
    const shape: Classic
    const limits: Limits
    ghost var packets: seq<Sent>

    ghost predicate Valid()
      reads this
    {
      && shape.snaplen > 0 && Small(packets) && AllFit(packets, shape, limits)
      && output == HeaderBytes(shape) + BytesFrom(packets, shape.endian, 0)
    }

    constructor (shape: Classic, limits: Limits)
      requires limits.Valid() && shape.snaplen > 0
      ensures Valid() && packets == [] && this.shape == shape && this.limits == limits
    {
      this.output := HeaderBytes(shape);
      this.shape := shape;
      this.limits := limits;
      this.packets := [];
    }

    /** Write a packet, or refuse it; a written instant keeps its exact nanoseconds. */
    method WritePacket(t: Timestamp, original: u32, data: seq<byte>) returns (ok: bool)
      requires Valid()
      modifies this
      ensures Valid()
      ensures ok <==>
                && |data| <= limits.maxPacketBytes && |data| <= shape.snaplen && |data| <= original
                && LegacyParts(t, shape.nanos).Ok?
      ensures !ok ==> packets == old(packets)
      ensures ok ==>
                |packets| == |old(packets)| + 1 &&
                var p := packets[|old(packets)|];
                && packets == old(packets) + [p] && p.original == original && p.data == data
                && Legacy(p.seconds, p.fraction, shape.nanos).Ok?
                && UnixNanos(Legacy(p.seconds, p.fraction, shape.nanos).value) == UnixNanos(t)
    {
      hide BytesFrom, HeaderBytes, LegacyParts, Legacy, UnixNanos, AllFit, Small, PacketBytes, Fits;
      if |data| > limits.maxPacketBytes || |data| > shape.snaplen || |data| > original {
        return false;
      }
      var parts := LegacyParts(t, shape.nanos);
      if parts.Err? {
        return false;
      }
      LegacyRoundTrip(t, shape.nanos);
      var p := Sent(parts.value.0, parts.value.1, original, data);
      BytesSnoc(packets, p, shape.endian, 0);
      FitsIs(p, shape, limits);
      FitSnoc(packets, p, shape, limits);
      output := output + PacketBytes(p, shape.endian);
      packets := packets + [p];
      ok := true;
    }
  }
}
