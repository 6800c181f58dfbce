/** Observed segments: header fields are derived from the raw bytes every time they are needed. */
module HistoryInput {
  import opened Common
  import opened Codec
  import opened HistoryModel

  /** The stored part of an observation. */
  datatype TcpInput = TcpInput(
    key: Key,
    direction: u8,
    frame: u64,
    when: Option<i128>,
    raw: seq<byte>,
    witnesses: seq<Witness>)

  /** The fields derived from it. */
  datatype Packet = Packet(
    key: Key,
    direction: Direction,
    frame: u64,
    when: Option<i128>,
    sequence: u32,
    acknowledgement: u32,
    syn: bool,
    ack: bool,
    fin: bool,
    rst: bool,
    window: u16,
    payload: nat)
  {
    function DataSequence(): u32 {
      Wrap32(sequence + if syn then 1 else 0)
    }
  }

  function U16At(raw: seq<byte>, n: nat): u16
    requires n + 2 <= |raw|
  {
    256 * (raw[n] as int) + raw[n + 1]
  }

  function U32At(raw: seq<byte>, n: nat): u32
    requires n + 4 <= |raw|
  {
    0x1_0000 * U16At(raw, n) + U16At(raw, n + 2)
  }

  predicate Bit(flags: byte, mask: int)
    requires mask > 0
  {
    (flags / mask) % 2 == 1
  }

  /** Every witness follows its predecessor, stays inside the raw bytes and overflows nothing. */
  predicate WitnessFits(w: Witness, cursor: nat, size: nat) {
    && w.start == cursor < w.end <= size && w.frame != 0
    && w.sourceOffset + (w.end - w.start) <= U64_MAX && w.packetStart + (w.end - w.start) < MODULUS
  }

  function WitnessCursor(ws: seq<Witness>, k: nat): nat
    requires k <= |ws|
  {
    if k == 0 then 0 else ws[k - 1].end
  }

  predicate WitnessesTile(ws: seq<Witness>, size: nat) {
    && (forall k | 0 <= k < |ws| :: WitnessFits(ws[k], WitnessCursor(ws, k), size))
    && WitnessCursor(ws, |ws|) == size
  }

  /** Walk the TCP options; only a timestamp has a fixed size and may not repeat. */
  function CheckOptions(raw: seq<byte>, at: nat, end: nat, timed: bool): Result<bool>
    requires end <= |raw|
    decreases end - at
  {
    if at >= end || raw[at] == 0 then Ok(timed)
    else if raw[at] == 1 then CheckOptions(raw, at + 1, end, timed)
    else if at + 1 >= |raw| then Err(Bad("tcp_option"))
    else
      var n := raw[at + 1];
      if n < 2 || at + n > end then Err(Bad("tcp_option"))
      else if raw[at] == 8 && (n != 10 || timed) then Err(Bad("tcp_timestamp"))
      else CheckOptions(raw, at + n, end, timed || raw[at] == 8)
  }

  /** Rebuild an observation from its stored part, refusing anything its raw bytes do not support. */
  function Derive(i: TcpInput, c: Config, o: Opaque): Result<Packet> {
    if !c.Valid() then Err(CONFIG_ERROR)
    else if !Canonical(i.key, o) then Err(Bad("history_tuple"))
    else if i.direction > 1 || i.frame == 0 || |i.raw| < 20 || |i.raw| > 65535 || |i.witnesses| > c.maxWitnesses then
      Err(Bad("tcp_input"))
    else
      var header := i.raw[12] / 16 * 4;
      var (source, destination) := if i.direction == 0 then (i.key.a, i.key.b) else (i.key.b, i.key.a);
      if header < 20 || header > |i.raw| then Err(Bad("tcp_header"))
      else if U16At(i.raw, 0) != source.port || U16At(i.raw, 2) != destination.port then Err(Bad("tcp_ports"))
      else if !WitnessesTile(i.witnesses, |i.raw|) then Err(Bad("tcp_witness"))
      else
        var timed :- CheckOptions(i.raw, 20, header, false);
        var flags := i.raw[13];
        Ok(Packet(
          i.key, if i.direction == 0 then Forward else Reverse, i.frame, i.when, U32At(i.raw, 4), U32At(i.raw, 8),
          Bit(flags, 2), Bit(flags, 16), Bit(flags, 1), Bit(flags, 4), U16At(i.raw, 14), |i.raw| - header))
  }

  lemma {:induction false} DerivedFields(i: TcpInput, c: Config, o: Opaque)
    requires Derive(i, c, o).Ok?
    ensures var p := Derive(i, c, o).value;
            p.key == i.key && Canonical(i.key, o) && p.frame == i.frame > 0 && p.payload <= 65515 && p.when == i.when
  {
    hide CheckOptions, WitnessesTile, Canonical;
  }

  // ---------------------------------------------------------------- codec

  function PutWitness(w: Witness, rest: seq<byte>): seq<byte> {
    PutNumber(w.start, 4, PutNumber(w.end, 4, PutNumber(w.frame, 8, PutNumber(w.recordOffset, 8,
      PutNumber(w.packetStart, 4, PutNumber(w.sourceOffset, 8, rest))))))
  }

  function ReadWitness(b: seq<byte>): Read<Witness> {
    var (start, b1) :- ReadU32(b);
    var (end, b2) :- ReadU32(b1);
    var (frame, b3) :- ReadU64(b2);
    var (recordOffset, b4) :- ReadU64(b3);
    var (packetStart, b5) :- ReadU32(b4);
    var (sourceOffset, b6) :- ReadU64(b5);
    Ok((Witness(start, end, frame, recordOffset, packetStart, sourceOffset), b6))
  }

  lemma {:induction false} WitnessRoundTrip(w: Witness, rest: seq<byte>)
    ensures ReadWitness(PutWitness(w, rest)) == Ok((w, rest))
  {
    hide PutNumber, ReadU32, ReadU64;
    U64RoundTrip(w.sourceOffset, rest);
    var e5 := PutNumber(w.sourceOffset, 8, rest);
    U32RoundTrip(w.packetStart, e5);
    var e4 := PutNumber(w.packetStart, 4, e5);
    U64RoundTrip(w.recordOffset, e4);
    var e3 := PutNumber(w.recordOffset, 8, e4);
    U64RoundTrip(w.frame, e3);
    var e2 := PutNumber(w.frame, 8, e3);
    U32RoundTrip(w.end, e2);
    U32RoundTrip(w.start, PutNumber(w.end, 4, e2));
  }

  function PutWitnesses(v: seq<Witness>, rest: seq<byte>): seq<byte> {
    if v == [] then rest else PutWitness(v[0], PutWitnesses(v[1..], rest))
  }

  function ReadWitnesses(b: seq<byte>, n: nat): Read<seq<Witness>> {
    if n == 0 then Ok(([], b))
    else
      var (v, b1) :- ReadWitness(b);
      var (vs, b2) :- ReadWitnesses(b1, n - 1);
      Ok(([v] + vs, b2))
  }

  lemma {:induction false} WitnessesRoundTrip(v: seq<Witness>, rest: seq<byte>)
    ensures ReadWitnesses(PutWitnesses(v, rest), |v|) == Ok((v, rest))
  {
    hide PutWitness, ReadWitness;
    if v != [] {
      WitnessesRoundTrip(v[1..], rest);
      WitnessRoundTrip(v[0], PutWitnesses(v[1..], rest));
      assert v == [v[0]] + v[1..];
    }
  }

  function PutTime(v: Option<i128>, rest: seq<byte>): seq<byte> {
    Powers();
    match v
    case None => PutFlag(false, rest)
    case Some(x) => PutFlag(true, PutSigned(x, 16, rest))
  }

  lemma {:induction false} FromSignedBound(b: seq<byte>, n: nat)
    requires ReadSigned(b, n).Ok?
    ensures 0 <= 2 * ReadSigned(b, n).value.0 + Power(n) < 2 * Power(n)
  {
    FromLeBound(b[..n]);
  }

  function ReadTime(b: seq<byte>): Read<Option<i128>> {
    var (some, rest) :- ReadFlag(b);
    if some then
      var (v, after) :- ReadSigned(rest, 16);
      FromSignedBound(rest, 16);
      Powers();
      Ok((Some(v), after))
    else Ok((None, rest))
  }

  lemma {:induction false} TimeRoundTrip(v: Option<i128>, rest: seq<byte>)
    ensures ReadTime(PutTime(v, rest)) == Ok((v, rest)) && |PutTime(v, rest)| <= 17 + |rest|
  {
    hide PutSigned, ReadSigned, PutFlag, ReadFlag, Power;
    Powers();
    if v.Some? {
      SignedRoundTrip(v.value, 16, rest);
      FlagRoundTrip(true, PutSigned(v.value, 16, rest));
    } else {
      FlagRoundTrip(false, rest);
    }
  }

  function EncodeInput(i: TcpInput, o: Opaque): Result<seq<byte>> {
    var key :- EncodeKey(i.key, o);
    if |i.raw| >= MODULUS || |i.witnesses| >= MODULUS then Err(Limit("history_blob"))
    else Ok(PutBytes(key, PutNumber(i.direction, 1, PutNumber(i.frame, 8, PutTime(i.when,
              PutBytes(i.raw, PutNumber(|i.witnesses|, 4, PutWitnesses(i.witnesses, []))))))))
  }

  /** The stored part as it was written; nothing in it is trusted yet. */
  function ReadInput(b: seq<byte>, c: Config, o: Opaque): Result<TcpInput> {
    var (blob, b1) :- ReadBytes(b, 10000);
    var key :- DecodeKey(blob, o);
    var (direction, b2) :- ReadNumber(b1, 1);
    var (frame, b3) :- ReadU64(b2);
    var (when, b4) :- ReadTime(b3);
    var (raw, b5) :- ReadBytes(b4, 65535);
    var (n, b6) :- ReadU32(b5);
    if n > c.maxWitnesses then Err(Limit("witnesses"))
    else
      var (witnesses, b7) :- ReadWitnesses(b6, n);
      var done :- Finish(witnesses, b7);
      ByteBound(b1);
      Ok(TcpInput(key, direction, frame, when, raw, witnesses))
  }

  function DecodeInput(b: seq<byte>, c: Config, o: Opaque): Result<Packet> {
    var i :- ReadInput(b, c, o);
    Derive(i, c, o)
  }

  lemma {:induction false} ByteBound(b: seq<byte>)
    ensures ReadNumber(b, 1).Ok? ==> ReadNumber(b, 1).value.0 < 256
  {
    if |b| >= 1 {
      FromLeBound(b[..1]);
      Powers();
    }
  }

  /** Sending an observation through its codec only re-derives its header fields. */
  lemma {:induction false} InputCodec(i: TcpInput, c: Config, o: Opaque)
    requires Strings(i.key, o) && Canonical(i.key, o) && |i.raw| <= 65535 && |i.witnesses| <= c.maxWitnesses < MODULUS
    ensures EncodeInput(i, o).Ok? && ReadInput(EncodeInput(i, o).value, c, o) == Ok(i)
    ensures DecodeInput(EncodeInput(i, o).value, c, o) == Derive(i, c, o)
  {
    hide PutBytes, ReadBytes, PutNumber, ReadNumber, PutTime, ReadTime, PutWitnesses, ReadWitnesses, EncodeKey, DecodeKey, Derive, ReadU32, ReadU64, Canonical;
    KeyCodec(i.key, o);
    var key := EncodeKey(i.key, o).value;
    WitnessesRoundTrip(i.witnesses, []);
    var e6 := PutWitnesses(i.witnesses, []);
    U32RoundTrip(|i.witnesses|, e6);
    var e5 := PutNumber(|i.witnesses|, 4, e6);
    BytesRoundTrip(i.raw, 65535, e5);
    var e4 := PutBytes(i.raw, e5);
    TimeRoundTrip(i.when, e4);
    var e3 := PutTime(i.when, e4);
    U64RoundTrip(i.frame, e3);
    var e2 := PutNumber(i.frame, 8, e3);
    ByteRoundTrip(i.direction, e2);
    BytesRoundTrip(key, 10000, PutNumber(i.direction, 1, e2));
  }
}
