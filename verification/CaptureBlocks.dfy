/** Every block the PCAPNG writer produces decodes to what was written, in either byte order. */
module CaptureBlocks {
  import opened Common
  import opened Clock
  import opened CaptureModel
  import opened CaptureFields

  const SECTION: u32 := 0x0A0D0D0A

  function Zeros(n: nat): (b: seq<byte>)
    ensures |b| == n
  {
    seq(n, i => 0)
  }

  function SectionBody(e: Endian): (b: seq<byte>)
    ensures |b| == 16
  {
    Put32(e, 0x1A2B3C4D) + Put16(e, 1) + Put16(e, 0) + Put64(e, U64_MAX)
  }

  function InterfaceBody(e: Endian, linkType: u16, snaplen: u32, resolution: u8, shift: i64): (b: seq<byte>)
    ensures |b| == 32
  {
    Put16(e, linkType) + Put16(e, 0) + Put32(e, snaplen)
    + (Put16(e, 9) + Put16(e, 1) + [resolution, 0, 0, 0])
    + (Put16(e, 14) + Put16(e, 8) + Put64(e, Unsigned(shift)))
    + (Put16(e, 0) + Put16(e, 0))
  }

  function PacketBody(e: Endian, id: u32, ticks: u64, original: u32, data: seq<byte>): (b: seq<byte>)
    requires |data| < MODULUS
    ensures |b| == 20 + Align4(|data|)
  {
    Put32(e, id) + Put32(e, ticks / MODULUS) + Put32(e, ticks % MODULUS) + Put32(e, |data|) + Put32(e, original)
    + data + Zeros(Align4(|data|) - |data|)
  }

  // ---------------------------------------------------------------- size

  lemma {:induction false} AppendedU32(e: Endian, b: seq<byte>, rest: seq<byte>, p: nat)
    requires p + 4 <= |b|
    ensures U32(e, b + rest, p) == U32(e, b, p)
  {
  }

  /** The decoder asks for exactly the block. */
  lemma {:induction false} BlockRequired(d: Decoder, e: Endian, kind: u32, body: seq<byte>, rest: seq<byte>, offset: nat, limits: Limits)
    requires |body| + 12 < MODULUS && |body| + 12 <= limits.maxBlockBytes && |body| % 4 == 0
    requires offset + |Block(e, kind, body) + rest| <= U64_MAX
    requires if kind == SECTION then |body| >= 16 && body[..4] == Put32(e, 0x1A2B3C4D) && (d.format == None || d.format == Some(PcapNg))
             else kind < 0x1_0000 && d.format == Some(PcapNg) && d.endian == e
    ensures Required(d, Block(e, kind, body) + rest, offset, limits) == Ok(|body| + 12)
  {
    hide U32, Put32, OrderMagic, Block;
    var b := Block(e, kind, body);
    var input := b + rest;
    BlockFields(e, kind, body);
    AppendedU32(e, b, rest, 4);
    assert input[..4] == b[..4];
    if kind == SECTION {
      SectionType(e);
      assert input[8..12] == b[8..|b| - 4][..4];
      OrderMagicIs(e, input);
    } else {
      NotSection(e, kind);
    }
  }

  lemma {:induction false} BlockSection(e: Endian, kind: u32, body: seq<byte>)
    requires |body| + 12 < MODULUS && (kind == SECTION || kind < 0x1_0000)
    ensures Block(e, kind, body)[..4] == SHB <==> kind == SECTION
  {
    hide Put32, Block;
    BlockFields(e, kind, body);
    SectionType(e);
    if kind != SECTION {
      NotSection(e, kind);
    }
  }

  // ---------------------------------------------------------------- section

  lemma {:induction false} SectionFields(e: Endian)
    ensures var raw := Block(e, SECTION, SectionBody(e));
            && |raw| == 28 && OrderMagic(raw) == Ok(e)
            && U16(e, raw, 12) == 1 && U16(e, raw, 14) == 0 && U64(e, raw, 16) == U64_MAX
  {
    hide Put16, Put32, Put64, U16, U64, OrderMagic;
    var raw := Block(e, SECTION, SectionBody(e));
    assert raw[8..12] == Put32(e, 0x1A2B3C4D);
    assert raw[12..14] == Put16(e, 1);
    assert raw[14..16] == Put16(e, 0);
    assert raw[16..24] == Put64(e, U64_MAX);
    OrderMagicIs(e, raw);
    Read16(e, 1, raw, 12);
    Read16(e, 0, raw, 14);
    Read64(e, U64_MAX, raw, 16);
  }

  /** The decoder behind the section header. */
  function InSection(e: Endian): Decoder {
    START.(format := Some(PcapNg), endian := e, sectionsSeen := 1)
  }

  lemma {:induction false} SectionParses(e: Endian, s: Setup)
    ensures Parse(START, Block(e, SECTION, SectionBody(e)), 0, s) == Ok(Parsed(InSection(e), e, Section(0, None), [], []))
  {
    hide U16, U32, U64, Block, SectionBody, OrderMagic;
    var raw := Block(e, SECTION, SectionBody(e));
    SectionFields(e);
    BlockFields(e, SECTION, SectionBody(e));
    BlockSection(e, SECTION, SectionBody(e));
    assert Signed(U64_MAX) == -1;
    assert ParseOptions(raw, 24, |raw| - 4, e, 0, s.limits) == Ok([]);
  }

  // ---------------------------------------------------------------- interfaces

  lemma {:induction false} InterfaceFields(e: Endian, linkType: u16, snaplen: u32, resolution: u8, shift: i64)
    ensures var raw := Block(e, 1, InterfaceBody(e, linkType, snaplen, resolution, shift));
            && |raw| == 44 && U16(e, raw, 8) == linkType && U32(e, raw, 12) == snaplen
            && U16(e, raw, 16) == 9 && U16(e, raw, 18) == 1 && raw[20] == resolution
            && U16(e, raw, 24) == 14 && U16(e, raw, 26) == 8 && U64(e, raw, 28) == Unsigned(shift)
            && U16(e, raw, 36) == 0 && U16(e, raw, 38) == 0
  {
    hide Put16, Put32, Put64, U16, U32, U64, Unsigned;
    var raw := Block(e, 1, InterfaceBody(e, linkType, snaplen, resolution, shift));
    assert raw[8..10] == Put16(e, linkType);
    assert raw[12..16] == Put32(e, snaplen);
    assert raw[16..18] == Put16(e, 9);
    assert raw[18..20] == Put16(e, 1);
    assert raw[20..24] == [resolution, 0, 0, 0];
    assert raw[24..26] == Put16(e, 14);
    assert raw[26..28] == Put16(e, 8);
    assert raw[28..36] == Put64(e, Unsigned(shift));
    assert raw[36..38] == Put16(e, 0);
    assert raw[38..40] == Put16(e, 0);
    Read16(e, linkType, raw, 8);
    Read32(e, snaplen, raw, 12);
    Read16(e, 9, raw, 16);
    Read16(e, 1, raw, 18);
    Read16(e, 14, raw, 24);
    Read16(e, 8, raw, 26);
    Read64(e, Unsigned(shift), raw, 28);
    Read16(e, 0, raw, 36);
    Read16(e, 0, raw, 38);
    assert raw[20] == raw[20..24][0];
  }

  const CLOCK_OPTIONS: seq<OptionMeta> := [OptionMeta(9, 20, 1), OptionMeta(14, 28, 8)]

  lemma {:induction false} InterfaceOptions(e: Endian, raw: seq<byte>, limits: Limits)
    requires |raw| == 44 && limits.maxOptions >= 2
    requires U16(e, raw, 16) == 9 && U16(e, raw, 18) == 1 && U16(e, raw, 24) == 14 && U16(e, raw, 26) == 8
    requires U16(e, raw, 36) == 0 && U16(e, raw, 38) == 0
    ensures ParseOptions(raw, 16, 40, e, 0, limits) == Ok(CLOCK_OPTIONS)
  {
    hide U16;
    assert ParseOptions(raw, 36, 40, e, 2, limits) == Ok([]);
    assert Align4(8) == 8;
    assert [OptionMeta(14, 28, 8)] + [] == [OptionMeta(14, 28, 8)];
    assert ParseOptions(raw, 24, 40, e, 1, limits) == Ok([OptionMeta(14, 28, 8)]);
    assert Align4(1) == 4;
    assert [OptionMeta(9, 20, 1)] + [OptionMeta(14, 28, 8)] == CLOCK_OPTIONS;
  }

  lemma {:induction false} InterfaceClock(e: Endian, raw: seq<byte>, resolution: u8, shift: i64)
    requires |raw| == 44 && raw[20] == resolution && U64(e, raw, 28) == Unsigned(shift)
    ensures ClockOptions(raw, CLOCK_OPTIONS, e, None, None) == Ok((FromPcapng(resolution), shift))
  {
    hide U64, Unsigned, Signed;
    SignedUnsigned(shift);
    var one := CLOCK_OPTIONS[1..];
    assert one == [OptionMeta(14, 28, 8)];
    assert one[1..] == [];
    assert ClockOptions(raw, one[1..], e, Some(FromPcapng(resolution)), Some(shift)) == Ok((FromPcapng(resolution), shift));
    assert ClockOptions(raw, one, e, Some(FromPcapng(resolution)), None) == Ok((FromPcapng(resolution), shift));
  }

  /** A decoder that stands where the writer stands: same byte order, same interfaces, first section. */
  ghost predicate InStep(d: Decoder, e: Endian, interfaces: seq<Interface>) {
    && d.format == Some(PcapNg) && d.endian == e && d.interfaces == interfaces && d.section == 0 && d.sectionEnd == None
  }

  lemma {:induction false} InterfaceParses(d: Decoder, e: Endian, linkType: u16, snaplen: u32, r: Resolution, shift: i64, offset: nat, s: Setup)
    requires InStep(d, e, d.interfaces) && ToPcapng(r).Ok? && |d.interfaces| < s.limits.maxInterfaces && s.limits.maxOptions >= 2
    ensures var raw := Block(e, 1, InterfaceBody(e, linkType, snaplen, ToPcapng(r).value, shift));
            var i := Interface(0, |d.interfaces|, linkType, snaplen, r, shift);
            Parse(d, raw, offset, s) == Ok(Parsed(d.(interfaces := d.interfaces + [i]), e, Declares(i), CLOCK_OPTIONS, []))
  {
    hide U16, U32, U64, Block, InterfaceBody, OrderMagic, ParseOptions, ClockOptions;
    var octet := ToPcapng(r).value;
    var body := InterfaceBody(e, linkType, snaplen, octet, shift);
    var raw := Block(e, 1, body);
    InterfaceFields(e, linkType, snaplen, octet, shift);
    BlockFields(e, 1, body);
    BlockSection(e, 1, body);
    InterfaceOptions(e, raw, s.limits);
    InterfaceClock(e, raw, octet, shift);
    ResolutionRoundTrip(r, octet);
  }

  // ---------------------------------------------------------------- packets

  lemma {:induction false} PacketFields(e: Endian, id: u32, ticks: u64, original: u32, data: seq<byte>)
    requires 32 + Align4(|data|) < MODULUS
    ensures var raw := Block(e, 6, PacketBody(e, id, ticks, original, data));
            && |raw| == 32 + Align4(|data|) && U32(e, raw, 8) == id && Ticks(e, raw, 12) == ticks
            && U32(e, raw, 20) == |data| && U32(e, raw, 24) == original && raw[28..28 + |data|] == data
  {
    hide Put32, U32;
    var raw := Block(e, 6, PacketBody(e, id, ticks, original, data));
    assert raw[8..12] == Put32(e, id);
    assert raw[12..16] == Put32(e, ticks / MODULUS);
    assert raw[16..20] == Put32(e, ticks % MODULUS);
    assert raw[20..24] == Put32(e, |data|);
    assert raw[24..28] == Put32(e, original);
    Read32(e, id, raw, 8);
    Read32(e, ticks / MODULUS, raw, 12);
    Read32(e, ticks % MODULUS, raw, 16);
    Read32(e, |data|, raw, 20);
    Read32(e, original, raw, 24);
  }

  lemma {:induction false} PacketParses(d: Decoder, e: Endian, id: u32, ticks: u64, original: u32, data: seq<byte>, offset: nat, s: Setup)
    requires InStep(d, e, d.interfaces) && id < |d.interfaces| && 32 + Align4(|data|) < MODULUS
    requires |data| <= s.limits.maxPacketBytes && |data| <= original
    requires d.interfaces[id].snaplen == 0 || |data| <= d.interfaces[id].snaplen
    ensures var raw := Block(e, 6, PacketBody(e, id, ticks, original, data));
            var i := d.interfaces[id];
            var stamp := Timestamp(ticks, i.resolution, i.offsetSeconds);
            Parse(d, raw, offset, s)
            == Ok(Parsed(d.(nextFrame := d.nextFrame + 1), e,
                         Packet(PacketMeta(d.nextFrame, 0, id, i.linkType, |data|, original, 28, Some(stamp))), [], []))
  {
    hide U16, U32, U64, Block, PacketBody, OrderMagic, Ticks;
    var body := PacketBody(e, id, ticks, original, data);
    var raw := Block(e, 6, body);
    PacketFields(e, id, ticks, original, data);
    BlockFields(e, 6, body);
    BlockSection(e, 6, body);
    assert ParseOptions(raw, 28 + Align4(|data|), |raw| - 4, e, 0, s.limits) == Ok([]);
  }
}
