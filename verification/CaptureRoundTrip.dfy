/** Whole captures written by the PCAPNG writer come back record by record. */
module CaptureRoundTrip {
  import opened Common
  import opened Clock
  import opened CaptureModel
  import opened CaptureFields
  import opened CaptureBlocks
  import opened CaptureParity

  datatype Write =
    | NewInterface(linkType: u16, snaplen: u32, resolution: Resolution, shift: i64)
    | NewPacket(id: u32, ticks: u64, original: u32, data: seq<byte>)

  function InterfaceOf(w: Write, id: nat): Interface
    requires w.NewInterface?
  {
    Interface(0, id, w.linkType, w.snaplen, w.resolution, w.shift)
  }

  /** The interfaces declared by the first k writes. */
  function InterfacesTo(ws: seq<Write>, k: nat): seq<Interface>
    requires k <= |ws|
  {
    if k == 0 then []
    else
      var before := InterfacesTo(ws, k - 1);
      if ws[k - 1].NewInterface? then before + [InterfaceOf(ws[k - 1], |before|)] else before
  }

  /** What the writer checks before it writes. */
  predicate Accepted(w: Write, interfaces: seq<Interface>, limits: Limits) {
    match w
    case NewInterface(_, _, r, _) =>
      |interfaces| < limits.maxInterfaces && r.exponent <= 127 && 44 <= limits.maxBlockBytes
    case NewPacket(id, _, original, data) =>
      && id < |interfaces| && |data| <= limits.maxPacketBytes && |data| <= original
      && (interfaces[id].snaplen == 0 || |data| <= interfaces[id].snaplen)
      && 32 + Align4(|data|) <= limits.maxBlockBytes && 32 + Align4(|data|) < MODULUS
  }

  ghost predicate AllAccepted(ws: seq<Write>, limits: Limits) {
    forall k | 0 <= k < |ws| :: Accepted(ws[k], InterfacesTo(ws, k), limits)
  }

  function BodyOf(e: Endian, w: Write): seq<byte>
    requires w.NewInterface? ==> w.resolution.exponent <= 127
    requires w.NewPacket? ==> |w.data| < MODULUS
  {
    match w
    case NewInterface(linkType, snaplen, r, shift) => InterfaceBody(e, linkType, snaplen, ToPcapng(r).value, shift)
    case NewPacket(id, ticks, original, data) => PacketBody(e, id, ticks, original, data)
  }

  predicate Sized(w: Write) {
    if w.NewInterface? then w.resolution.exponent <= 127 else 32 + Align4(|w.data|) < MODULUS
  }

  function BlockOf(e: Endian, w: Write): (b: seq<byte>)
    requires Sized(w)
    ensures |b| == if w.NewInterface? then 44 else 32 + Align4(|w.data|)
  {
    Block(e, if w.NewInterface? then 1 else 6, BodyOf(e, w))
  }

  ghost predicate AllSized(ws: seq<Write>) {
    forall k | 0 <= k < |ws| :: Sized(ws[k])
  }

  /** The bytes of the writes from k on. */
  function FileFrom(e: Endian, ws: seq<Write>, k: nat): seq<byte>
    requires k <= |ws| && AllSized(ws)
    decreases |ws| - k
  {
    if k == |ws| then [] else BlockOf(e, ws[k]) + FileFrom(e, ws, k + 1)
  }

  // ---------------------------------------------------------------- what should come back

  function KindOf(w: Write, interfaces: seq<Interface>, frame: nat): Kind
    requires w.NewPacket? ==> w.id < |interfaces| && |w.data| < MODULUS
  {
    match w
    case NewInterface(_, _, _, _) => Declares(InterfaceOf(w, |interfaces|))
    case NewPacket(id, ticks, original, data) =>
      var i := interfaces[id];
      Packet(PacketMeta(frame, 0, id, i.linkType, |data|, original, 28, Some(Timestamp(ticks, i.resolution, i.offsetSeconds))))
  }

  function RecordOf(e: Endian, w: Write, interfaces: seq<Interface>, frame: nat, offset: nat): Record
    requires Sized(w) && (w.NewPacket? ==> w.id < |interfaces|)
  {
    Record(offset, e, BlockOf(e, w), KindOf(w, interfaces, frame), if w.NewInterface? then CLOCK_OPTIONS else [], [])
  }

  function FrameAfter(w: Write, frame: nat): nat {
    if w.NewPacket? then frame + 1 else frame
  }

  /** The records of the writes from k on. */
  ghost function Expected(e: Endian, ws: seq<Write>, k: nat, frame: nat, offset: nat, limits: Limits): seq<Record>
    requires k <= |ws| && AllAccepted(ws, limits) && AllSized(ws)
    decreases |ws| - k
  {
    if k == |ws| then []
    else
      assert Accepted(ws[k], InterfacesTo(ws, k), limits);
      [RecordOf(e, ws[k], InterfacesTo(ws, k), frame, offset)]
      + Expected(e, ws, k + 1, FrameAfter(ws[k], frame), offset + |BlockOf(e, ws[k])|, limits)
  }

  // ---------------------------------------------------------------- one write

  /** The decoder after a write. */
  function After(d: Decoder, w: Write): Decoder {
    match w
    case NewInterface(_, _, _, _) => d.(interfaces := d.interfaces + [InterfaceOf(w, |d.interfaces|)], records := d.records + 1)
    case NewPacket(_, _, _, _) => d.(nextFrame := d.nextFrame + 1, records := d.records + 1)
  }

  lemma {:induction false} BodyAligned(e: Endian, w: Write)
    requires Sized(w)
    ensures |BodyOf(e, w)| % 4 == 0 && |BodyOf(e, w)| + 12 == |BlockOf(e, w)| < MODULUS
  {
    hide InterfaceBody, PacketBody;
  }

  lemma {:induction false} WriteDecodes(d: Decoder, e: Endian, w: Write, rest: seq<byte>, offset: nat, s: Setup)
    requires InStep(d, e, d.interfaces) && Accepted(w, d.interfaces, s.limits) && Sized(w) && s.limits.maxOptions >= 2
    requires d.records < s.limits.maxRecords && offset + |BlockOf(e, w)| + |rest| <= U64_MAX
    ensures NextStep(d, BlockOf(e, w) + rest, offset, s) == Item(After(d, w), RecordOf(e, w, d.interfaces, d.nextFrame, offset))
  {
    hide Parse, Required, Block, InterfaceBody, PacketBody, Finish;
    var raw := BlockOf(e, w);
    BodyAligned(e, w);
    BlockRequired(d, e, if w.NewInterface? then 1 else 6, BodyOf(e, w), rest, offset, s.limits);
    assert (raw + rest)[..|raw|] == raw;
    match w {
      case NewInterface(linkType, snaplen, r, shift) => InterfaceParses(d, e, linkType, snaplen, r, shift, offset, s);
      case NewPacket(id, ticks, original, data) => PacketParses(d, e, id, ticks, original, data, offset, s);
    }
  }

  /** Reading back any sequence of accepted writes gives exactly their records and a clean end. */
  lemma {:induction false} WritesComeBack(d: Decoder, e: Endian, ws: seq<Write>, k: nat, offset: nat, s: Setup)
    requires k <= |ws| && AllAccepted(ws, s.limits) && AllSized(ws) && s.limits.maxOptions >= 2
    requires InStep(d, e, InterfacesTo(ws, k)) && d.records + (|ws| - k) <= s.limits.maxRecords
    requires offset + |FileFrom(e, ws, k)| <= U64_MAX
    ensures Records(d, FileFrom(e, ws, k), offset, s) == (Expected(e, ws, k, d.nextFrame, offset, s.limits), true)
    decreases |ws| - k
  {
    hide NextStep, Accepted, BlockOf, Sized, RecordOf, Records;
    if k == |ws| {
      NothingMore(d, e, offset, s);
    } else {
      var w, rest := ws[k], FileFrom(e, ws, k + 1);
      assert Accepted(w, InterfacesTo(ws, k), s.limits);
      WriteDecodes(d, e, w, rest, offset, s);
      AfterInStep(d, e, ws, k);
      RecordRaw(e, w, d.interfaces, d.nextFrame, offset, s.limits);
      RecordsUnfold(d, BlockOf(e, w), rest, offset, s);
      WritesComeBack(After(d, w), e, ws, k + 1, offset + |BlockOf(e, w)|, s);
    }
  }

  lemma {:induction false} NothingMore(d: Decoder, e: Endian, offset: nat, s: Setup)
    requires InStep(d, e, d.interfaces)
    ensures Records(d, [], offset, s) == ([], true)
  {
  }

  lemma {:induction false} RecordRaw(e: Endian, w: Write, interfaces: seq<Interface>, frame: nat, offset: nat, limits: Limits)
    requires Sized(w) && Accepted(w, interfaces, limits)
    ensures RecordOf(e, w, interfaces, frame, offset).raw == BlockOf(e, w)
  {
    hide Block;
  }

  lemma {:induction false} AfterInStep(d: Decoder, e: Endian, ws: seq<Write>, k: nat)
    requires k < |ws| && InStep(d, e, InterfacesTo(ws, k))
    ensures InStep(After(d, ws[k]), e, InterfacesTo(ws, k + 1))
    ensures After(d, ws[k]).nextFrame == FrameAfter(ws[k], d.nextFrame) && After(d, ws[k]).records == d.records + 1
  {
  }

  // ---------------------------------------------------------------- the whole file

  function SectionBlock(e: Endian): seq<byte> {
    Block(e, SECTION, SectionBody(e))
  }

  lemma {:induction false} SectionDecodes(e: Endian, rest: seq<byte>, s: Setup)
    requires s.limits.Valid() && 28 + |rest| <= U64_MAX
    ensures |SectionBlock(e)| == 28
    ensures NextStep(START, SectionBlock(e) + rest, 0, s)
         == Item(InSection(e).(records := 1), Record(0, e, SectionBlock(e), Section(0, None), [], []))
  {
    hide Parse, Required, Block, SectionBody, Finish;
    var raw := SectionBlock(e);
    assert |raw| == 28;
    SectionMagic(e);
    BlockRequired(START, e, SECTION, SectionBody(e), rest, 0, s.limits);
    assert (raw + rest)[..|raw|] == raw;
    SectionParses(e, s);
  }

  lemma {:induction false} SectionMagic(e: Endian)
    ensures SectionBody(e)[..4] == Put32(e, 0x1A2B3C4D)
  {
    hide Put32, Put16, Put64;
  }

  /** Under limits the writer itself kept to, a written capture decodes to exactly what was written. */
  lemma {:induction false} PcapngRoundTrip(e: Endian, ws: seq<Write>, s: Setup)
    requires s.limits.Valid() && AllAccepted(ws, s.limits) && AllSized(ws)
    requires s.limits.maxOptions >= 2 && |ws| + 1 <= s.limits.maxRecords && 28 + |FileFrom(e, ws, 0)| <= U64_MAX
    ensures Records(START, SectionBlock(e) + FileFrom(e, ws, 0), 0, s)
         == ([Record(0, e, SectionBlock(e), Section(0, None), [], [])] + Expected(e, ws, 0, 1, 28, s.limits), true)
  {
    hide NextStep, Records, FileFrom, AllAccepted, Expected, SectionBlock;
    var rest := FileFrom(e, ws, 0);
    SectionDecodes(e, rest, s);
    RecordsUnfold(START, SectionBlock(e), rest, 0, s);
    WritesComeBack(InSection(e).(records := 1), e, ws, 0, 28, s);
  }

  /** The packet bytes of a decoded record are the bytes that were written. */
  lemma {:induction false} PacketDataComesBack(e: Endian, w: Write)
    requires w.NewPacket? && Sized(w)
    ensures BlockOf(e, w)[28..28 + |w.data|] == w.data
  {
    hide Block, PacketBody;
    PacketFields(e, w.id, w.ticks, w.original, w.data);
  }

  // ---------------------------------------------------------------- the writer

  lemma {:induction false} FileSnoc(e: Endian, ws: seq<Write>, w: Write, k: nat)
    requires k <= |ws| && AllSized(ws) && Sized(w)
    ensures AllSized(ws + [w]) && FileFrom(e, ws + [w], k) == FileFrom(e, ws, k) + BlockOf(e, w)
    decreases |ws| - k
  {
    hide BlockOf, Sized;
    if k < |ws| {
      FileSnoc(e, ws, w, k + 1);
    } else {
      assert FileFrom(e, ws + [w], k + 1) == [];
    }
  }

  lemma {:induction false} InterfacesKept(ws: seq<Write>, w: Write, k: nat)
    requires k <= |ws|
    ensures InterfacesTo(ws + [w], k) == InterfacesTo(ws, k)
  {
    if k > 0 {
      InterfacesKept(ws, w, k - 1);
    }
  }

  lemma {:induction false} AcceptedSnoc(ws: seq<Write>, w: Write, limits: Limits)
    requires AllAccepted(ws, limits) && Accepted(w, InterfacesTo(ws, |ws|), limits)
    ensures AllAccepted(ws + [w], limits)
  {
    hide Accepted;
    forall k | 0 <= k < |ws + [w]| ensures Accepted((ws + [w])[k], InterfacesTo(ws + [w], k), limits) {
      InterfacesKept(ws, w, k);
    }
  }

  class PcapNgWriter {
    var output: seq<byte>
    var interfaces: seq<Interface>
    const endian: Endian
    const limits: Limits
    ghost var writes: seq<Write>

    /** The output is the section header and the blocks of the accepted writes. */
    ghost predicate Valid()
      reads this
    {
      && AllSized(writes) && AllAccepted(writes, limits) && interfaces == InterfacesTo(writes, |writes|)
      && output == SectionBlock(endian) + FileFrom(endian, writes, 0)
    }

    constructor (endian: Endian, limits: Limits)
      requires limits.Valid()
      ensures Valid() && writes == [] && this.endian == endian && this.limits == limits
    {
      this.output := SectionBlock(endian);
      this.interfaces := [];
      this.endian := endian;
      this.limits := limits;
      this.writes := [];
    }

    method DeclareInterface(linkType: u16, snaplen: u32, resolution: Resolution, shift: i64) returns (r: Result<nat>)
      requires Valid()
      modifies this
      ensures Valid()
      ensures r.Ok? <==> Accepted(NewInterface(linkType, snaplen, resolution, shift), old(interfaces), limits)
      ensures writes == old(writes) + if r.Ok? then [NewInterface(linkType, snaplen, resolution, shift)] else []
      ensures r.Ok? ==> r.value == |old(interfaces)|
    {
      hide AllAccepted, AllSized, FileFrom, Block, SectionBlock, InterfaceBody;
      if |interfaces| >= limits.maxInterfaces {
        return Err(Limit("interfaces"));
      }
      var octet := ToPcapng(resolution);
      if octet.Err? {
        return Err(octet.error);
      }
      if 44 > limits.maxBlockBytes {
        return Err(Limit("block_bytes"));
      }
      ghost var w := NewInterface(linkType, snaplen, resolution, shift);
      FileSnoc(endian, writes, w, 0);
      AcceptedSnoc(writes, w, limits);
      InterfacesKept(writes, w, |writes|);
      r := Ok(|interfaces|);
      output := output + Block(endian, 1, InterfaceBody(endian, linkType, snaplen, octet.value, shift));
      interfaces := interfaces + [Interface(0, |interfaces|, linkType, snaplen, resolution, shift)];
      writes := writes + [w];
    }

    method WritePacket(id: u32, t: Timestamp, original: u32, data: seq<byte>) returns (ok: bool)
      requires Valid()
      modifies this
      ensures Valid() && interfaces == old(interfaces)
      ensures ok <==>
                && Accepted(NewPacket(id, t.ticks, original, data), interfaces, limits)
                && t.resolution == interfaces[id].resolution && t.offsetSeconds == interfaces[id].offsetSeconds
      ensures writes == old(writes) + if ok then [NewPacket(id, t.ticks, original, data)] else []
    {
      hide AllAccepted, AllSized, FileFrom, Block, SectionBlock, PacketBody;
      if id >= |interfaces| {
        return false;
      }
      var i := interfaces[id];
      if t.resolution != i.resolution || t.offsetSeconds != i.offsetSeconds {
        return false;
      }
      if |data| > limits.maxPacketBytes || |data| > original || (i.snaplen != 0 && |data| > i.snaplen) {
        return false;
      }
      if 32 + Align4(|data|) > limits.maxBlockBytes || 32 + Align4(|data|) >= MODULUS {
        return false;
      }
      ghost var w := NewPacket(id, t.ticks, original, data);
      FileSnoc(endian, writes, w, 0);
      AcceptedSnoc(writes, w, limits);
      InterfacesKept(writes, w, |writes|);
      output := output + Block(endian, 6, PacketBody(endian, id, t.ticks, original, data));
      writes := writes + [w];
      ok := true;
    }
  }
}
