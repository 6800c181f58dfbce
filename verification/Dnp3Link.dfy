/** Link frames: ten header octets and data blocks of at most sixteen, each with its own checksum. */
module Dnp3Link {
  import opened Common
  import opened Provenance
  import opened Dnp3Model

  /** The link checksum, taken as given. */
  type Crc = seq<byte> -> u16

  function Le16(b: seq<byte>, n: nat): u16
    requires n + 2 <= |b|
  {
    b[n] + 256 * (b[n + 1] as int)
  }

  function Blocks(length: nat): nat {
    (length + 15) / 16
  }

  /** Octets of a frame that declares this much user data. */
  function Total(length: nat): nat {
    10 + length + 2 * Blocks(length)
  }

  predicate HeaderGood(b: seq<byte>, crc: Crc) {
    |b| >= 10 && b[0] == 0x05 && b[1] == 0x64 && b[2] >= 5 && crc(b[..8]) == Le16(b, 8)
  }

  function DataLength(b: seq<byte>): nat
    requires |b| >= 10 && b[2] >= 5
  {
    b[2] - 5
  }

  function BlockStart(k: nat): nat {
    10 + 18 * k
  }

  function BlockLength(length: nat, k: nat): nat
    requires 16 * k <= length
  {
    Min(16, length - 16 * k)
  }

  lemma {:induction false} BlockFits(length: nat, k: nat)
    requires k < Blocks(length)
    ensures 16 * k < length
    ensures BlockStart(k) + BlockLength(length, k) + 2 <= Total(length)
    ensures k + 1 == Blocks(length) ==> BlockStart(k) + BlockLength(length, k) + 2 == Total(length) && 16 * k + BlockLength(length, k) == length
    ensures k + 1 < Blocks(length) ==> BlockLength(length, k) == 16
  {
  }

  predicate BlockGood(b: seq<byte>, length: nat, k: nat, crc: Crc)
    requires k < Blocks(length) && Total(length) <= |b|
  {
    BlockFits(length, k);
    var p, n := BlockStart(k), BlockLength(length, k);
    crc(b[p..p + n]) == Le16(b, p + n)
  }

  /** A frame at the beginning of these octets, with every checksum good. */
  ghost predicate LinkGood(b: seq<byte>, crc: Crc) {
    && HeaderGood(b, crc) && Total(DataLength(b)) <= |b|
    && forall k: nat | k < Blocks(DataLength(b)) :: BlockGood(b, DataLength(b), k, crc)
  }

  /** The user data of the first k blocks, with its origins, checksums left out. */
  ghost function UserView(v: seq<Observed>, length: nat, k: nat): seq<Observed>
    requires k <= Blocks(length) && Total(length) <= |v|
  {
    if k == 0 then []
    else
      BlockFits(length, k - 1);
      UserView(v, length, k - 1) + v[BlockStart(k - 1)..BlockStart(k - 1) + BlockLength(length, k - 1)]
  }

  /** What a parsed frame has to do with the chunk it was read from. */
  ghost predicate FrameSound(f: Frame, bytes: Evidence, crc: Crc) {
    && Canonical(bytes) && f.start <= |bytes.data| && LinkGood(bytes.data[f.start..], crc)
    && var b := bytes.data[f.start..];
       var length := DataLength(b);
       && Canonical(f.raw) && View(f.raw) == View(bytes)[f.start..f.start + Total(length)]
       && Canonical(f.userData) && View(f.userData) == UserView(View(bytes)[f.start..], length, Blocks(length))
       && f.control == b[3] && f.address == Address(Le16(b, 6), Le16(b, 4))
  }

  lemma {:induction false} UserSize(v: seq<Observed>, length: nat, k: nat)
    requires k <= Blocks(length) && Total(length) <= |v|
    ensures |UserView(v, length, k)| == if k == Blocks(length) then length else 16 * k
  {
    if k > 0 {
      UserSize(v, length, k - 1);
      BlockFits(length, k - 1);
    }
  }

  lemma {:induction false} SliceOf(e: Evidence, offset: nat, lo: nat, hi: nat)
    requires Canonical(e) && lo <= hi && offset + hi <= |e.data|
    ensures Slice(e, offset + lo, offset + hi).Ok? && Canonical(Slice(e, offset + lo, offset + hi).value)
    ensures |Slice(e, offset + lo, offset + hi).value.data| == hi - lo
    ensures |View(e)| == |e.data| && View(Slice(e, offset + lo, offset + hi).value) == View(e)[offset..][lo..hi]
  {
    hide Slice, View, Tiled, Coalesced;
    SliceView(e, offset + lo, offset + hi);
    Sizes(e);
    Sizes(Slice(e, offset + lo, offset + hi).value);
    assert View(e)[offset + lo..offset + hi] == View(e)[offset..][lo..hi];
  }

  lemma {:induction false} Sizes(e: Evidence)
    requires Valid(e)
    ensures |View(e)| == |e.data|
  {
    hide Tiled;
  }

  ghost predicate BlocksGood(b: seq<byte>, length: nat, n: nat, crc: Crc)
    requires n <= Blocks(length) && Total(length) <= |b|
  {
    forall k: nat | k < n :: BlockGood(b, length, k, crc)
  }

  /** Read the data blocks behind a good header. */
  method ReadBlocks(bytes: Evidence, offset: nat, crc: Crc) returns (r: Result<Evidence>)
    requires Canonical(bytes) && offset <= |bytes.data| && HeaderGood(bytes.data[offset..], crc)
    requires Total(DataLength(bytes.data[offset..])) <= |bytes.data| - offset
    ensures var b := bytes.data[offset..];
            && (r.Ok? <==> BlocksGood(b, DataLength(b), Blocks(DataLength(b)), crc))
            && (r.Err? ==> r.error.code == Checksum)
    ensures var b := bytes.data[offset..];
            r.Ok? ==> |View(bytes)| == |bytes.data| && Canonical(r.value)
                      && View(r.value) == UserView(View(bytes)[offset..], DataLength(b), Blocks(DataLength(b)))
  {
    hide Slice, Append, View, Canonical, HeaderGood, BlockGood, UserView, Total, BlockStart, BlockLength, Blocks;
    var b := bytes.data[offset..];
    var length := HeaderLengthOf(b, crc);
    ghost var v := BytesView(bytes);
    var user := EMPTY;
    EmptyUser(v[offset..], length);
    var k := 0;
    while k < Blocks(length)
      invariant 0 <= k <= Blocks(length) && BlocksGood(b, length, k, crc)
      invariant Canonical(user) && Valid(user) && View(user) == UserView(v[offset..], length, k) && |user.data| <= 16 * k
      invariant |user.data| <= 250
      decreases Blocks(length) - k
    {
      BlockFits(length, k);
      var p, n := BlockStart(k), BlockLength(length, k);
      assert b[p..p + n] == bytes.data[offset + p..offset + p + n];
      var good := BlockGood(b, length, k, crc);
      if !good {
        assert !BlocksGood(b, length, Blocks(length), crc);
        return Err(Error(Checksum, "dnp3_data_crc"));
      }
      user := AddBlock(bytes, offset, length, k, user);
      k := k + 1;
    }
    r := Ok(user);
  }

  lemma {:induction false} EmptyUser(v: seq<Observed>, length: nat)
    requires Total(length) <= |v|
    ensures Canonical(EMPTY) && Valid(EMPTY) && View(EMPTY) == UserView(v, length, 0)
  {
  }

  function HeaderLengthOf(b: seq<byte>, crc: Crc): (n: nat)
    requires HeaderGood(b, crc)
    ensures n == DataLength(b) <= 250
  {
    DataLength(b)
  }

  ghost function BytesView(e: Evidence): (v: seq<Observed>)
    requires Canonical(e)
    ensures Valid(e) && v == View(e) && |v| == |e.data|
  {
    View(e)
  }

  lemma {:induction false} BlockSizes(length: nat, k: nat)
    requires k < Blocks(length) && length <= 250
    ensures 16 * k < length && 16 * k + BlockLength(length, k) <= 250 && BlockLength(length, k) <= 16
  {
  }

  /** Append block k to the user data read so far; 250 octets always suffice. */
  method AddBlock(bytes: Evidence, offset: nat, length: nat, k: nat, user: Evidence) returns (r: Evidence)
    requires Canonical(bytes) && offset + Total(length) <= |bytes.data| && k < Blocks(length) && length <= 250
    requires |BytesView(bytes)| == |bytes.data|
    requires Canonical(user) && Valid(user) && View(user) == UserView(BytesView(bytes)[offset..], length, k) && |user.data| <= 16 * k
    ensures Canonical(r) && Valid(r) && View(r) == UserView(BytesView(bytes)[offset..], length, k + 1)
    ensures |r.data| <= 16 * (k + 1) && |r.data| <= 250
  {
    hide Slice, Append, View, Tiled, Coalesced, UserView, Total, BlockStart, BlockLength, Blocks;
    BlockFits(length, k);
    BlockSizes(length, k);
    var p, n := BlockStart(k), BlockLength(length, k);
    SliceOf(bytes, offset, p, p + n);
    var block := Slice(bytes, offset + p, offset + p + n);
    assert block.Ok?;
    AppendView(user, block.value, 250);
    AppendLength(user, block.value, 250);
    var joined := Append(user, block.value, 250);
    assert joined.Ok?;
    UserStep(BytesView(bytes)[offset..], length, k);
    r := joined.value;
  }

  lemma {:induction false} AppendLength(e: Evidence, f: Evidence, limit: nat)
    ensures Append(e, f, limit).Ok? ==> |Append(e, f, limit).value.data| == |e.data| + |f.data|
  {
  }

  lemma {:induction false} UserStep(v: seq<Observed>, length: nat, k: nat)
    requires k < Blocks(length) && Total(length) <= |v|
    ensures BlockStart(k) <= BlockStart(k) + BlockLengthAt(length, k) <= |v|
    ensures UserView(v, length, k + 1) == UserView(v, length, k) + v[BlockStart(k)..BlockStart(k) + BlockLengthAt(length, k)]
  {
    BlockFits(length, k);
  }

  function BlockLengthAt(length: nat, k: nat): nat
    requires k < Blocks(length)
  {
    BlockFits(length, k);
    BlockLength(length, k)
  }

  /** Parse the frame at an offset of a chunk: exactly the good frames parse. */
  method ParseLink(bytes: Evidence, offset: nat, chunk: nat, crc: Crc) returns (r: Result<(Frame, nat)>)
    requires Canonical(bytes)
    ensures r.Ok? <==> offset <= |bytes.data| && LinkGood(bytes.data[offset..], crc)
    ensures r.Ok? ==>
              var (f, used) := r.value;
              && f.chunk == chunk && f.start == offset && FrameSound(f, bytes, crc)
              && used == |f.raw.data| == Total(DataLength(bytes.data[offset..])) && offset + used <= |bytes.data|
  {
    hide Slice, View, Canonical, BlockGood, UserView, Total, Blocks;
    if offset > |bytes.data| {
      return Err(Error(Truncated, "dnp3"));
    }
    var b := bytes.data[offset..];
    if |b| < 10 {
      return Err(Error(Truncated, "dnp3_header"));
    }
    if b[0] != 0x05 || b[1] != 0x64 {
      return Err(Error(ProtocolFraming, "dnp3_magic"));
    }
    if b[2] < 5 {
      return Err(Error(InvalidLength, "dnp3_length"));
    }
    if crc(b[..8]) != Le16(b, 8) {
      return Err(Error(Checksum, "dnp3_header_crc"));
    }
    var total := Total(DataLength(b));
    if |b| < total {
      return Err(Error(Truncated, "dnp3_frame"));
    }
    var user := ReadBlocks(bytes, offset, crc);
    if user.Err? {
      return Err(user.error);
    }
    SliceOf(bytes, offset, 0, total);
    ghost var v := BytesView(bytes);
    RawRange(bytes, offset, total);
    var raw := Slice(bytes, offset, offset + total);
    assert raw.Ok?;
    r := Ok((Frame(chunk, offset, b[3], Address(Le16(b, 6), Le16(b, 4)), user.value, raw.value), total));
  }

  lemma {:induction false} RawRange(e: Evidence, offset: nat, total: nat)
    requires Valid(e) && |View(e)| == |e.data| && offset + total <= |e.data|
    ensures View(e)[offset..][0..total] == View(e)[offset..offset + total]
  {
    hide View, Tiled;
  }
}
