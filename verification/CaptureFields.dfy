/** Fields of capture records in either byte order: what is written is what is read. */
module CaptureFields {
  import opened Common
  import opened CaptureModel

  function Put16(e: Endian, v: u16): (b: seq<byte>)
    ensures |b| == 2
  {
    match e
    case Little => [v % 256, v / 256]
    case Big => [v / 256, v % 256]
  }

  function Put32(e: Endian, v: u32): (b: seq<byte>)
    ensures |b| == 4
  {
    match e
    case Little => Put16(e, v % 0x1_0000) + Put16(e, v / 0x1_0000)
    case Big => Put16(e, v / 0x1_0000) + Put16(e, v % 0x1_0000)
  }

  function Put64(e: Endian, v: u64): (b: seq<byte>)
    ensures |b| == 8
  {
    match e
    case Little => Put32(e, v % MODULUS) + Put32(e, v / MODULUS)
    case Big => Put32(e, v / MODULUS) + Put32(e, v % MODULUS)
  }

  lemma {:induction false} Read16(e: Endian, v: u16, b: seq<byte>, p: nat)
    requires p + 2 <= |b| && b[p..p + 2] == Put16(e, v)
    ensures U16(e, b, p) == v
  {
    assert b[p] == b[p..p + 2][0] && b[p + 1] == b[p..p + 2][1];
  }

  lemma {:induction false} Read32(e: Endian, v: u32, b: seq<byte>, p: nat)
    requires p + 4 <= |b| && b[p..p + 4] == Put32(e, v)
    ensures U32(e, b, p) == v
  {
    hide Put16, U16;
    assert b[p..p + 2] == b[p..p + 4][..2] && b[p + 2..p + 4] == b[p..p + 4][2..];
    if e == Little {
      Read16(e, v % 0x1_0000, b, p);
      Read16(e, v / 0x1_0000, b, p + 2);
    } else {
      Read16(e, v / 0x1_0000, b, p);
      Read16(e, v % 0x1_0000, b, p + 2);
    }
  }

  lemma {:induction false} Read64(e: Endian, v: u64, b: seq<byte>, p: nat)
    requires p + 8 <= |b| && b[p..p + 8] == Put64(e, v)
    ensures U64(e, b, p) == v
  {
    hide Put32, U32;
    assert b[p..p + 4] == b[p..p + 8][..4] && b[p + 4..p + 8] == b[p..p + 8][4..];
    if e == Little {
      Read32(e, v % MODULUS, b, p);
      Read32(e, v / MODULUS, b, p + 4);
    } else {
      Read32(e, v / MODULUS, b, p);
      Read32(e, v % MODULUS, b, p + 4);
    }
  }

  function Unsigned(v: i64): u64 {
    if v >= 0 then v else v + U64_MAX + 1
  }

  lemma {:induction false} SignedUnsigned(v: i64)
    ensures Signed(Unsigned(v)) == v
  {
  }

  /** A block: type and length in front, the length again behind. */
  function Block(e: Endian, kind: u32, body: seq<byte>): (b: seq<byte>)
    requires |body| + 12 < MODULUS
    ensures |b| == |body| + 12
  {
    Put32(e, kind) + Put32(e, |body| + 12) + body + Put32(e, |body| + 12)
  }

  lemma {:induction false} BlockFields(e: Endian, kind: u32, body: seq<byte>)
    requires |body| + 12 < MODULUS
    ensures var b := Block(e, kind, body);
            && U32(e, b, 0) == kind && U32(e, b, 4) == |b| && U32(e, b, |b| - 4) == |b|
            && b[8..|b| - 4] == body && b[..4] == Put32(e, kind)
  {
    hide U32, Put32;
    var b := Block(e, kind, body);
    var n := |b|;
    assert b[0..4] == Put32(e, kind) && b[..4] == Put32(e, kind);
    assert b[4..8] == Put32(e, n);
    assert b[n - 4..n] == Put32(e, n);
    Read32(e, kind, b, 0);
    Read32(e, n, b, 4);
    Read32(e, n, b, n - 4);
  }

  /** Only section headers begin with the section type. */
  lemma {:induction false} NotSection(e: Endian, kind: u32)
    requires kind < 0x1_0000
    ensures Put32(e, kind) != SHB
  {
    assert Put32(e, kind)[0] == 0 || Put32(e, kind)[3] == 0;
  }

  lemma {:induction false} SectionType(e: Endian)
    ensures Put32(e, 0x0A0D0D0A) == SHB
  {
    assert 0x0A0D0D0A % 0x1_0000 == 0x0D0A && 0x0A0D0D0A / 0x1_0000 == 0x0A0D;
  }

  lemma {:induction false} OrderMagicIs(e: Endian, b: seq<byte>)
    requires |b| >= 12 && b[8..12] == Put32(e, 0x1A2B3C4D)
    ensures OrderMagic(b) == Ok(e)
  {
    assert 0x1A2B3C4D % 0x1_0000 == 0x3C4D && 0x1A2B3C4D / 0x1_0000 == 0x1A2B;
    assert Put32(Little, 0x1A2B3C4D) == [0x4D, 0x3C, 0x2B, 0x1A];
    assert Put32(Big, 0x1A2B3C4D) == [0x1A, 0x2B, 0x3C, 0x4D];
  }

  lemma {:induction false} LegacyMagicIs(e: Endian, nanos: bool)
    ensures LegacyMagic(Put32(e, if nanos then 0xA1B23C4D else 0xA1B2C3D4)) == Some((e, nanos))
    ensures Put32(e, if nanos then 0xA1B23C4D else 0xA1B2C3D4) != SHB
  {
    assert 0xA1B23C4D % 0x1_0000 == 0x3C4D && 0xA1B23C4D / 0x1_0000 == 0xA1B2;
    assert 0xA1B2C3D4 % 0x1_0000 == 0xC3D4 && 0xA1B2C3D4 / 0x1_0000 == 0xA1B2;
    assert Put32(Little, 0xA1B23C4D) == [0x4D, 0x3C, 0xB2, 0xA1] && Put32(Big, 0xA1B23C4D) == [0xA1, 0xB2, 0x3C, 0x4D];
    assert Put32(Little, 0xA1B2C3D4) == [0xD4, 0xC3, 0xB2, 0xA1] && Put32(Big, 0xA1B2C3D4) == [0xA1, 0xB2, 0xC3, 0xD4];
  }
}
