/** The capture container decoder: one state machine over classic PCAP and PCAPNG records. */
module CaptureModel {
  import opened Common
  import opened Clock

  datatype Endian = Little | Big

  function U16(e: Endian, b: seq<byte>, p: nat): u16
    requires p + 2 <= |b|
  {
    match e
    case Little => b[p] + 256 * (b[p + 1] as int)
    case Big => 256 * (b[p] as int) + b[p + 1]
  }

  function U32(e: Endian, b: seq<byte>, p: nat): u32
    requires p + 4 <= |b|
  {
    match e
    case Little => U16(e, b, p) + 0x1_0000 * (U16(e, b, p + 2) as int)
    case Big => 0x1_0000 * (U16(e, b, p) as int) + U16(e, b, p + 2)
  }

  function U64(e: Endian, b: seq<byte>, p: nat): u64
    requires p + 8 <= |b|
  {
    match e
    case Little => U32(e, b, p) + MODULUS * (U32(e, b, p + 4) as int)
    case Big => MODULUS * (U32(e, b, p) as int) + U32(e, b, p + 4)
  }

  /** A 64-bit pattern read as two's complement. */
  function Signed(v: u64): i64 {
    if v <= I64_MAX then v else v - U64_MAX - 1
  }

  datatype Format = Pcap | PcapNg

  datatype Mode = Strict | Permissive

  datatype Warning = ContradictoryLengths(offset: nat) | InvalidFraction(offset: nat)

  datatype OptionMeta = OptionMeta(code: u16, valueOffset: nat, length: nat)

  datatype Interface = Interface(section: nat, id: nat, linkType: u32, snaplen: u32, resolution: Resolution, offsetSeconds: i64)

  datatype LegacyHeader = LegacyHeader(endian: Endian, nanos: bool, snaplen: u32, linkWord: u32)

  datatype PacketMeta = PacketMeta(
    frame: nat,
    section: nat,
    interface: nat,
    linkType: u32,
    capturedLength: u32,
    originalLength: u32,
    dataOffset: nat,
    timestamp: Option<Timestamp>)

  datatype Kind =
    | Header(header: LegacyHeader)
    | Section(id: nat, declared: Option<nat>)
    | Declares(interface: Interface)
    | Packet(meta: PacketMeta)
    | Names(records: nat)
    | Statistics(interfaceId: nat, timestamp: Timestamp)
    | Secrets(kind: u32, length: u32)
    | Custom(pen: u32, copyOnEdit: bool)
    | Unknown(blockType: u32)

  datatype Record = Record(
    offset: nat,
    endian: Endian,
    raw: seq<byte>,
    kind: Kind,
    options: seq<OptionMeta>,
    warnings: seq<Warning>)

  datatype Decoder = Decoder(
    format: Option<Format>,
    endian: Endian,
    legacy: Option<LegacyHeader>,
    interfaces: seq<Interface>,
    section: nat,
    sectionsSeen: nat,
    sectionEnd: Option<nat>,
    nextFrame: nat,
    records: nat)

  const START: Decoder := Decoder(None, Little, None, [], 0, 0, None, 1, 0)

  datatype Setup = Setup(limits: Limits, mode: Mode)

  const SHB: seq<byte> := [0x0A, 0x0D, 0x0D, 0x0A]

  /** What is the same in every header the classic format can begin with. */
  function LegacyMagic(b: seq<byte>): Option<(Endian, bool)> {
    if b == [0xD4, 0xC3, 0xB2, 0xA1] then Some((Little, false))
    else if b == [0xA1, 0xB2, 0xC3, 0xD4] then Some((Big, false))
    else if b == [0x4D, 0x3C, 0xB2, 0xA1] then Some((Little, true))
    else if b == [0xA1, 0xB2, 0x3C, 0x4D] then Some((Big, true))
    else None
  }

  function OrderMagic(b: seq<byte>): Result<Endian>
    requires |b| >= 12
  {
    if b[8..12] == [0x4D, 0x3C, 0x2B, 0x1A] then Ok(Little)
    else if b[8..12] == [0x1A, 0x2B, 0x3C, 0x4D] then Ok(Big)
    else Err(Error(BadMagic, "byte_order_magic"))
  }

  // ---------------------------------------------------------------- how much a record needs

  /** The size a PCAPNG block declares, once enough of it is there. */
  function BlockNeed(d: Decoder, input: seq<byte>, limits: Limits): Result<nat> {
    if |input| < 8 then Ok(8)
    else
      var section := input[..4] == SHB;
      if section && |input| < 12 then Ok(12)
      else
        var endian :- if section then OrderMagic(input) else Ok(d.endian);
        var size := U32(endian, input, 4);
        if size < 12 || size % 4 != 0 || (section && size < 28) then Err(Error(InvalidLength, "block_length"))
        else if size > limits.maxBlockBytes then Err(Limit("block_bytes"))
        else Ok(size)
  }

  function Required(d: Decoder, input: seq<byte>, offset: nat, limits: Limits): Result<nat> {
    if offset + |input| > U64_MAX then Err(Limit("file_offset"))
    else if d.format.None? then
      if |input| < 4 then Ok(4)
      else if input[..4] == SHB then BlockNeed(d, input, limits)
      else if LegacyMagic(input[..4]).Some? then Ok(24)
      else Err(Error(BadMagic, "magic"))
    else if d.format.value == Pcap then
      if |input| < 16 then Ok(16)
      else
        var size := U32(d.endian, input, 8);
        if size > limits.maxPacketBytes then Err(Limit("packet_bytes")) else Ok(size + 16)
    else BlockNeed(d, input, limits)
  }

  // ---------------------------------------------------------------- options and lengths

  function Align4(n: nat): nat {
    (n + 3) / 4 * 4
  }

  function ParseOptions(raw: seq<byte>, p: nat, end: nat, e: Endian, count: nat, limits: Limits): Result<seq<OptionMeta>>
    requires end <= |raw|
    decreases end - p
  {
    if p >= end then Ok([])
    else if end - p < 4 then Err(Error(InvalidOption, "option"))
    else
      var code, n := U16(e, raw, p), U16(e, raw, p + 2);
      if code == 0 then (if n != 0 then Err(Error(InvalidOption, "option_end")) else Ok([]))
      else if count >= limits.maxOptions then Err(Limit("options"))
      else
        var next := p + 4 + Align4(n);
        if next > end then Err(Error(InvalidOption, "option_length"))
        else if code in {2988, 2989, 19372, 19373} && n < 4 then Err(Error(InvalidOption, "custom_option"))
        else
          var rest :- ParseOptions(raw, next, end, e, count + 1, limits);
          Ok([OptionMeta(code, p + 4, n)] + rest)
  }

  function CheckLengths(cap: u32, orig: u32, snap: u32, mode: Mode, offset: nat): Result<seq<Warning>> {
    if cap > orig || (snap != 0 && cap > snap) then
      if mode == Strict then Err(Error(InvalidLength, "packet_lengths")) else Ok([ContradictoryLengths(offset)])
    else Ok([])
  }

  /** The name records of a name resolution block, up to their terminator. */
  function NameRecords(raw: seq<byte>, p: nat, end: nat, e: Endian, records: nat, limits: Limits): Result<(nat, nat)>
    requires end <= |raw|
    decreases end - p
  {
    if p + 4 > end then Err(Error(InvalidLength, "name_record"))
    else
      var code, n := U16(e, raw, p), U16(e, raw, p + 2);
      if code == 0 then (if n != 0 then Err(Error(InvalidLength, "name_record")) else Ok((p + 4, records)))
      else if records >= limits.maxOptions then Err(Limit("name_records"))
      else
        var next := p + 4 + Align4(n);
        var address := if code == 1 then 4 else if code == 2 then 16 else 0;
        if next > end then Err(Error(InvalidLength, "name_record"))
        else if address != 0 && (n <= address || raw[p + 4 + n - 1] != 0) then Err(Error(InvalidLength, "name_record"))
        else NameRecords(raw, next, end, e, records + 1, limits)
  }

  /** Clock options of an interface: at most one resolution and one offset. */
  function ClockOptions(raw: seq<byte>, options: seq<OptionMeta>, e: Endian, resolution: Option<Resolution>, shift: Option<i64>): Result<(Resolution, i64)>
    requires forall i | 0 <= i < |options| :: options[i].valueOffset + options[i].length <= |raw|
    decreases |options|
  {
    if options == [] then
      Ok((if resolution.Some? then resolution.value else Decimal(6), if shift.Some? then shift.value else 0))
    else
      var o := options[0];
      if o.code == 9 then
        if o.length != 1 || resolution.Some? then Err(Error(InvalidOption, "if_tsresol"))
        else ClockOptions(raw, options[1..], e, Some(FromPcapng(raw[o.valueOffset])), shift)
      else if o.code == 14 then
        if o.length != 8 || shift.Some? then Err(Error(InvalidOption, "if_tsoffset"))
        else ClockOptions(raw, options[1..], e, resolution, Some(Signed(U64(e, raw, o.valueOffset))))
      else ClockOptions(raw, options[1..], e, resolution, shift)
  }

  lemma {:induction false} OptionsInside(raw: seq<byte>, p: nat, end: nat, e: Endian, count: nat, limits: Limits)
    requires end <= |raw|
    ensures var r := ParseOptions(raw, p, end, e, count, limits);
            r.Ok? ==> forall i | 0 <= i < |r.value| :: r.value[i].valueOffset + r.value[i].length <= end
    decreases end - p
  {
    hide U16;
    if p < end && end - p >= 4 {
      var n := U16(e, raw, p + 2);
      var next := p + 4 + Align4(n);
      if next <= end {
        OptionsInside(raw, next, end, e, count + 1, limits);
      }
    }
  }

  // ---------------------------------------------------------------- records

  /** What a record turned out to be, and the decoder after it. */
  datatype Parsed = Parsed(next: Decoder, endian: Endian, kind: Kind, options: seq<OptionMeta>, warnings: seq<Warning>)

  function ParseHeader(d: Decoder, raw: seq<byte>): Result<Parsed>
    requires |raw| == 24
  {
    var magic := LegacyMagic(raw[..4]);
    if magic.None? then Err(Error(BadMagic, "magic"))
    else
      var (e, nanos) := magic.value;
      if U16(e, raw, 4) != 2 || U16(e, raw, 6) != 4 then Err(Error(UnsupportedVersion, "version"))
      else
        var h := LegacyHeader(e, nanos, U32(e, raw, 16), U32(e, raw, 20));
        if h.snaplen == 0 then Err(Error(InvalidLength, "snaplen"))
        else Ok(Parsed(d.(format := Some(Pcap), endian := e, legacy := Some(h)), e, Header(h), [], []))
  }

  function ParsePacket(d: Decoder, raw: seq<byte>, offset: nat, mode: Mode): Result<Parsed>
    requires |raw| >= 16
  {
    if d.legacy.None? then Err(Error(Invariant, "state"))
    else
      var h, e := d.legacy.value, d.endian;
      var cap, orig := U32(e, raw, 8), U32(e, raw, 12);
      var lengths :- CheckLengths(cap, orig, h.snaplen, mode, offset);
      var time := Legacy(U32(e, raw, 0), U32(e, raw, 4), h.nanos);
      if time.Err? && mode == Strict then Err(time.error)
      else
        var warnings := lengths + if time.Err? then [InvalidFraction(offset + 4)] else [];
        var stamp := if time.Ok? then Some(time.value) else None;
        Ok(Parsed(d.(nextFrame := d.nextFrame + 1), e,
                  Packet(PacketMeta(d.nextFrame, 0, 0, h.linkWord % 0x1_0000, cap, orig, 16, stamp)), [], warnings))
  }

  function ParseSection(d: Decoder, raw: seq<byte>, e: Endian, offset: nat, limits: Limits): Result<Parsed>
    requires |raw| >= 28
  {
    if U16(e, raw, 12) != 1 || U16(e, raw, 14) != 0 then Err(Error(UnsupportedVersion, "version"))
    else
      var declared := Signed(U64(e, raw, 16));
      if declared < -1 || (declared >= 0 && declared % 4 != 0) then Err(Error(InvalidLength, "section_length"))
      else
        var options :- ParseOptions(raw, 24, |raw| - 4, e, 0, limits);
        if declared >= 0 && offset + |raw| + declared > U64_MAX then Err(Limit("section_length"))
        else if d.sectionsSeen + 1 >= MODULUS then Err(Limit("sections"))
        else Ok(Parsed(
          d.(format := Some(PcapNg), endian := e, interfaces := [], section := d.sectionsSeen,
             sectionsSeen := d.sectionsSeen + 1,
             sectionEnd := if declared < 0 then None else Some(offset + |raw| + declared)),
          e, Section(d.sectionsSeen, if declared < 0 then None else Some(declared)), options, []))
  }

  function ParseInterface(d: Decoder, raw: seq<byte>, e: Endian, limits: Limits): Result<Parsed>
    requires |raw| >= 12
  {
    if |raw| < 20 then Err(Error(InvalidLength, "interface"))
    else if |d.interfaces| >= limits.maxInterfaces then Err(Limit("interfaces"))
    else
      var options :- ParseOptions(raw, 16, |raw| - 4, e, 0, limits);
      OptionsInside(raw, 16, |raw| - 4, e, 0, limits);
      var (resolution, shift) :- ClockOptions(raw, options, e, None, None);
      var i := Interface(d.section, |d.interfaces|, U16(e, raw, 8), U32(e, raw, 12), resolution, shift);
      Ok(Parsed(d.(interfaces := d.interfaces + [i]), e, Declares(i), options, []))
  }

  function Ticks(e: Endian, raw: seq<byte>, p: nat): u64
    requires p + 8 <= |raw|
  {
    MODULUS * (U32(e, raw, p) as int) + U32(e, raw, p + 4)
  }

  function ParseEnhanced(d: Decoder, raw: seq<byte>, e: Endian, id: nat, offset: nat, s: Setup): Result<Parsed>
    requires |raw| >= 12
  {
    if |raw| < 32 then Err(Error(InvalidLength, "packet"))
    else if id >= |d.interfaces| then Err(Error(MissingInterface, "interface_id"))
    else
      var i := d.interfaces[id];
      var cap, orig := U32(e, raw, 20), U32(e, raw, 24);
      if cap > s.limits.maxPacketBytes then Err(Limit("packet_bytes"))
      else
        var after := 28 + Align4(cap);
        if after > |raw| - 4 then Err(Error(InvalidLength, "captured_length"))
        else
          var warnings :- CheckLengths(cap, orig, i.snaplen, s.mode, offset);
          var options :- ParseOptions(raw, after, |raw| - 4, e, 0, s.limits);
          var stamp := Timestamp(Ticks(e, raw, 12), i.resolution, i.offsetSeconds);
          Ok(Parsed(d.(nextFrame := d.nextFrame + 1), e,
                    Packet(PacketMeta(d.nextFrame, d.section, id, i.linkType, cap, orig, 28, Some(stamp))), options, warnings))
  }

  function ParseSimple(d: Decoder, raw: seq<byte>, e: Endian, s: Setup): Result<Parsed>
    requires |raw| >= 12
  {
    if |raw| < 16 then Err(Error(InvalidLength, "simple_packet"))
    else if |d.interfaces| == 0 then Err(Error(MissingInterface, "interface_id"))
    else
      var i := d.interfaces[0];
      var orig := U32(e, raw, 8);
      var cap := if i.snaplen == 0 then orig else Min(orig, i.snaplen);
      if cap > s.limits.maxPacketBytes then Err(Limit("packet_bytes"))
      else if 12 + Align4(cap) != |raw| - 4 then Err(Error(InvalidLength, "simple_packet"))
      else Ok(Parsed(d.(nextFrame := d.nextFrame + 1), e,
                     Packet(PacketMeta(d.nextFrame, d.section, 0, i.linkType, cap, orig, 12, None)), [], []))
  }

  function ParseOther(d: Decoder, raw: seq<byte>, e: Endian, block: u32, limits: Limits): Result<Parsed>
    requires |raw| >= 12
  {
    var end := |raw| - 4;
    if block == 4 then
      var (p, records) :- NameRecords(raw, 8, end, e, 0, limits);
      var options :- ParseOptions(raw, p, end, e, 0, limits);
      Ok(Parsed(d, e, Names(records), options, []))
    else if block == 5 then
      if |raw| < 24 then Err(Error(InvalidLength, "statistics"))
      else if U32(e, raw, 8) >= |d.interfaces| then Err(Error(MissingInterface, "interface_id"))
      else
        var i := d.interfaces[U32(e, raw, 8)];
        var options :- ParseOptions(raw, 20, end, e, 0, limits);
        Ok(Parsed(d, e, Statistics(U32(e, raw, 8), Timestamp(Ticks(e, raw, 12), i.resolution, i.offsetSeconds)), options, []))
    else if block == 10 then
      if |raw| < 20 then Err(Error(InvalidLength, "secrets"))
      else if 16 + Align4(U32(e, raw, 12)) > end then Err(Error(InvalidLength, "secrets_length"))
      else
        var options :- ParseOptions(raw, 16 + Align4(U32(e, raw, 12)), end, e, 0, limits);
        Ok(Parsed(d, e, Secrets(U32(e, raw, 8), U32(e, raw, 12)), options, []))
    else if block == 0xBAD || block == 0x40000BAD then
      if |raw| < 16 then Err(Error(InvalidLength, "custom"))
      else Ok(Parsed(d, e, Custom(U32(e, raw, 8), block == 0xBAD), [], []))
    else Ok(Parsed(d, e, Unknown(block), [], []))
  }

  /** A record that would cross the boundary its section declared. */
  predicate CrossesSection(d: Decoder, section: bool, offset: nat, size: nat) {
    d.sectionEnd.Some? && ((section && offset != d.sectionEnd.value) || (!section && offset + size > d.sectionEnd.value))
  }

  function ParseBlock(d: Decoder, raw: seq<byte>, offset: nat, s: Setup): Result<Parsed>
    requires |raw| >= 12
  {
    var section := raw[..4] == SHB;
    var e :- if section then OrderMagic(raw) else Ok(d.endian);
    if U32(e, raw, |raw| - 4) != |raw| then Err(Error(LengthMismatch, "block_trailer"))
    else if d.sectionEnd.Some? && offset + |raw| > U64_MAX then Err(Limit("file_offset"))
    else if CrossesSection(d, section, offset, |raw|) then Err(Error(LengthMismatch, "section_length"))
    else
      var block := U32(e, raw, 0);
      if block == 0x0A0D0D0A then
        if |raw| < 28 then Err(Error(InvalidLength, "block_length")) else ParseSection(d, raw, e, offset, s.limits)
      else if block == 1 then ParseInterface(d, raw, e, s.limits)
      else if block == 6 then ParseEnhanced(d, raw, e, if |raw| < 32 then 0 else U32(e, raw, 8), offset, s)
      else if block == 2 then ParseEnhanced(d, raw, e, if |raw| < 32 then 0 else U16(e, raw, 8), offset, s)
      else if block == 3 then ParseSimple(d, raw, e, s)
      else ParseOther(d, raw, e, block, s.limits)
  }

  /** Interpret one whole record. */
  function Parse(d: Decoder, raw: seq<byte>, offset: nat, s: Setup): Result<Parsed> {
    if d.format.None? && !(|raw| >= 4 && raw[..4] == SHB) then
      if |raw| == 24 then ParseHeader(d, raw) else Err(Error(BadMagic, "magic"))
    else if d.format == Some(Pcap) then
      if |raw| >= 16 then ParsePacket(d, raw, offset, s.mode) else Err(Error(Invariant, "state"))
    else if |raw| >= 12 then ParseBlock(d, raw, offset, s)
    else Err(Error(InvalidLength, "block_length"))
  }

  datatype Decoded = NeedMore(need: nat) | Got(next: Decoder, record: Record)

  function Decode(d: Decoder, input: seq<byte>, offset: nat, s: Setup): Result<Decoded> {
    if d.records >= s.limits.maxRecords then Err(Limit("records"))
    else
      var need :- Required(d, input, offset, s.limits);
      if |input| < need then Ok(NeedMore(need))
      else
        var raw := input[..need];
        var p :- Parse(d, raw, offset, s);
        Ok(Got(p.next.(records := d.records + 1), Record(offset, p.endian, raw, p.kind, p.options, p.warnings)))
  }

  /** Whether the input may end here. */
  function Finish(d: Decoder, offset: nat): Option<Error> {
    if d.format.None? then Some(Error(Truncated, "capture_header"))
    else if d.sectionEnd.Some? && d.sectionEnd.value != offset then Some(Error(Truncated, "section_length"))
    else None
  }
}
