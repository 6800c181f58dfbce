/** Link frames as octets: what a sender writes is what the scan finds. */
module Dnp3Encode {
  import opened Common
  import opened Provenance
  import opened Dnp3Model
  import opened Dnp3Link
  import opened Dnp3Decode

  /** A frame before it is written; the length octet leaves room for 250 octets of user data. */
  datatype LinkFrame = LinkFrame(control: u8, address: Address, user: seq<byte>) {
    predicate Fits() {
      |user| <= 250
    }
  }

  function PutLe16(v: u16): seq<byte> {
    [v % 256, v / 256]
  }

  function Head(x: LinkFrame): seq<byte>
    requires x.Fits()
  {
    [0x05, 0x64, 5 + |x.user|, x.control] + PutLe16(x.address.destination) + PutLe16(x.address.source)
  }

  /** Blocks of at most sixteen octets, each behind it its checksum. */
  function EncodeBlocks(user: seq<byte>, crc: Crc): seq<byte> {
    if user == [] then []
    else
      var n := Min(16, |user|);
      user[..n] + PutLe16(crc(user[..n])) + EncodeBlocks(user[n..], crc)
  }

  function EncodeFrame(x: LinkFrame, crc: Crc): seq<byte>
    requires x.Fits()
  {
    Head(x) + PutLe16(crc(Head(x))) + EncodeBlocks(x.user, crc)
  }

  // ---------------------------------------------------------------- blocks

  lemma {:induction false} BlocksSize(user: seq<byte>, crc: Crc)
    ensures |EncodeBlocks(user, crc)| == |user| + 2 * Blocks(|user|)
  {
    if user != [] {
      BlocksSize(user[Min(16, |user|)..], crc);
    }
  }

  lemma {:induction false} FirstBlock(user: seq<byte>, crc: Crc)
    requires user != []
    ensures var e, m := EncodeBlocks(user, crc), Min(16, |user|);
            && |e| >= m + 2 && e[..m] == user[..m] && Le16(e, m) == crc(user[..m])
            && e == (user[..m] + PutLe16(crc(user[..m]))) + EncodeBlocks(user[m..], crc)
  {
    var e, m := EncodeBlocks(user, crc), Min(16, |user|);
    var front := user[..m] + PutLe16(crc(user[..m]));
    assert e == front + EncodeBlocks(user[m..], crc);
    assert e[m] == front[m] && e[m + 1] == front[m + 1];
  }

  /** Where block k and its checksum stand. */
  lemma {:induction false} BlockAt(user: seq<byte>, crc: Crc, k: nat)
    requires 16 * k < |user|
    ensures var e, n := EncodeBlocks(user, crc), Min(16, |user| - 16 * k);
            && 18 * k + n + 2 <= |e| && e[18 * k..18 * k + n] == user[16 * k..16 * k + n]
            && Le16(e, 18 * k + n) == crc(user[16 * k..16 * k + n])
  {
    hide EncodeBlocks, Le16;
    FirstBlock(user, crc);
    if k > 0 {
      var rest := user[16..];
      BlockAt(rest, crc, k - 1);
      var n := Min(16, |user| - 16 * k);
      ShiftBlock(user[..16] + PutLe16(crc(user[..16])), EncodeBlocks(rest, crc), user, rest, k, n);
    }
  }

  lemma {:induction false} ShiftBlock(front: seq<byte>, f: seq<byte>, user: seq<byte>, rest: seq<byte>, k: nat, n: nat)
    requires |front| == 18 && k > 0 && 16 <= |user| && rest == user[16..] && 16 * k + n <= |user| && 18 * (k - 1) + n + 2 <= |f|
    ensures (front + f)[18 * k..18 * k + n] == f[18 * (k - 1)..18 * (k - 1) + n]
    ensures Le16(front + f, 18 * k + n) == Le16(f, 18 * (k - 1) + n)
    ensures rest[16 * (k - 1)..16 * (k - 1) + n] == user[16 * k..16 * k + n]
  {
    var there, here := (front + f)[18 * k..18 * k + n], f[18 * (k - 1)..18 * (k - 1) + n];
    assert forall i | 0 <= i < n :: there[i] == here[i];
  }

  // ---------------------------------------------------------------- one frame

  lemma {:induction false} FrameSize(x: LinkFrame, crc: Crc)
    requires x.Fits()
    ensures |Head(x)| == 8 && |EncodeFrame(x, crc)| == Total(|x.user|) >= 10
  {
    hide EncodeBlocks;
    BlocksSize(x.user, crc);
  }

  lemma {:induction false} HeadReads(x: LinkFrame, crc: Crc, rest: seq<byte>)
    requires x.Fits()
    ensures var b := EncodeFrame(x, crc) + rest;
            && HeaderGood(b, crc) && DataLength(b) == |x.user| && Total(|x.user|) <= |b|
            && b[3] == x.control && Le16(b, 4) == x.address.destination && Le16(b, 6) == x.address.source
  {
    hide EncodeBlocks, Total;
    FrameSize(x, crc);
    var b := EncodeFrame(x, crc) + rest;
    assert b[..8] == Head(x);
    assert b[8] == PutLe16(crc(Head(x)))[0] && b[9] == PutLe16(crc(Head(x)))[1];
  }

  lemma {:induction false} BlockReads(x: LinkFrame, crc: Crc, rest: seq<byte>, k: nat)
    requires x.Fits() && k < Blocks(|x.user|)
    ensures var b := EncodeFrame(x, crc) + rest;
            && Total(|x.user|) <= |b| && 16 * k < |x.user| && BlockGood(b, |x.user|, k, crc)
            && var n := BlockLength(|x.user|, k);
               BlockStart(k) + n <= |b| && b[BlockStart(k)..BlockStart(k) + n] == x.user[16 * k..16 * k + n]
  {
    hide EncodeBlocks, Head;
    FrameSize(x, crc);
    BlockFits(|x.user|, k);
    BlockAt(x.user, crc, k);
    var e := EncodeBlocks(x.user, crc);
    var front := Head(x) + PutLe16(crc(Head(x)));
    var b := EncodeFrame(x, crc) + rest;
    BehindHeader(front, e, rest, b, 18 * k, BlockLength(|x.user|, k));
  }

  lemma {:induction false} BehindHeader(front: seq<byte>, e: seq<byte>, rest: seq<byte>, b: seq<byte>, p: nat, n: nat)
    requires |front| == 10 && b == front + e + rest && p + n + 2 <= |e|
    ensures b[10 + p..10 + p + n] == e[p..p + n] && Le16(b, 10 + p + n) == Le16(e, p + n)
  {
    var there, here := b[10 + p..10 + p + n], e[p..p + n];
    assert forall i | 0 <= i < n :: there[i] == here[i];
    assert b[10 + p + n] == e[p + n] && b[10 + p + n + 1] == e[p + n + 1];
  }

  /** What is written parses, whatever stands behind it. */
  lemma {:induction false} EncodedGood(x: LinkFrame, crc: Crc, rest: seq<byte>)
    requires x.Fits()
    ensures LinkGood(EncodeFrame(x, crc) + rest, crc) && DataLength(EncodeFrame(x, crc) + rest) == |x.user|
  {
    hide EncodeFrame, HeaderGood, BlockGood, Total, Blocks;
    HeadReads(x, crc, rest);
    var b := EncodeFrame(x, crc) + rest;
    HeaderShort(b, crc);
    forall k: nat | k < Blocks(|x.user|) ensures BlockGood(b, |x.user|, k, crc) {
      BlockReads(x, crc, rest, k);
    }
  }

  lemma {:induction false} HeaderShort(b: seq<byte>, crc: Crc)
    requires HeaderGood(b, crc)
    ensures |b| >= 10 && b[2] >= 5
  {
  }

  // ---------------------------------------------------------------- the parsed frame

  ghost function Values(v: seq<Observed>): (r: seq<byte>)
    ensures |r| == |v| && forall i | 0 <= i < |v| :: r[i] == v[i].value
  {
    seq(|v|, i requires 0 <= i < |v| => v[i].value)
  }

  lemma {:induction false} ValuesOf(e: Evidence)
    requires Valid(e)
    ensures Values(View(e)) == e.data
  {
    hide Tiled;
  }

  lemma {:induction false} ValuesJoin(u: seq<Observed>, v: seq<Observed>, p: nat, n: nat)
    requires p + n <= |v|
    ensures Values(u + v[p..p + n]) == Values(u) + Values(v)[p..p + n]
  {
  }

  lemma {:induction false} UserFront(user: seq<byte>, k: nat, n: nat)
    requires 16 * k < |user| && n == Min(16, |user| - 16 * k)
    ensures user[..Min(16 * k, |user|)] + user[16 * k..16 * k + n] == user[..Min(16 * (k + 1), |user|)]
  {
  }

  /** The user data of the first k blocks is the beginning of what was written. */
  lemma {:induction false} UserReads(x: LinkFrame, crc: Crc, rest: seq<byte>, v: seq<Observed>, k: nat)
    requires x.Fits() && k <= Blocks(|x.user|) && Values(v) == EncodeFrame(x, crc) + rest && Total(|x.user|) <= |v|
    ensures Values(UserView(v, |x.user|, k)) == x.user[..Min(16 * k, |x.user|)]
  {
    hide EncodeFrame, Total, BlockGood, UserView, Values, Blocks;
    NoUser(v, |x.user|);
    if k > 0 {
      UserReads(x, crc, rest, v, k - 1);
      BlockFits(|x.user|, k - 1);
      BlockReads(x, crc, rest, k - 1);
      UserStep(v, |x.user|, k - 1);
      var p, n := BlockStart(k - 1), BlockLength(|x.user|, k - 1);
      ValuesJoin(UserView(v, |x.user|, k - 1), v, p, n);
      UserFront(x.user, k - 1, n);
    }
  }

  lemma {:induction false} NoUser(v: seq<Observed>, length: nat)
    requires Total(length) <= |v|
    ensures Values(UserView(v, length, 0)) == []
  {
  }

  /** The user data of any good frame exists as evidence. */
  lemma {:induction false} UserExists(bytes: Evidence, offset: nat, length: nat, k: nat) returns (e: Evidence)
    requires Canonical(bytes) && |View(bytes)| == |bytes.data| && offset + Total(length) <= |bytes.data| && k <= Blocks(length) && length <= 250
    ensures Canonical(e) && View(e) == UserView(View(bytes)[offset..], length, k) && |e.data| <= 16 * k
  {
    hide Slice, Append, View, Tiled, Coalesced, UserView, Total, BlockStart, BlockLength, Blocks;
    if k == 0 {
      EmptyUser(View(bytes)[offset..], length);
      e := EMPTY;
    } else {
      var user := UserExists(bytes, offset, length, k - 1);
      BlockFits(length, k - 1);
      BlockSizes(length, k - 1);
      var p, n := BlockStart(k - 1), BlockLength(length, k - 1);
      SliceOf(bytes, offset, p, p + n);
      var block := Slice(bytes, offset + p, offset + p + n).value;
      AppendView(user, block, 250);
      AppendLength(user, block, 250);
      UserStep(View(bytes)[offset..], length, k - 1);
      e := Append(user, block, 250).value;
    }
  }

  /** Every good frame of a chunk is the frame of some evidence. */
  lemma {:induction false} FrameExists(bytes: Evidence, c: nat, p: nat, crc: Crc) returns (f: Frame)
    requires Canonical(bytes) && p <= |bytes.data| && LinkGood(bytes.data[p..], crc)
    ensures FrameSound(f, bytes, crc) && f.chunk == c && f.start == p
    ensures |bytes.data[p..]| >= 10 && bytes.data[p..][2] >= 5 && |f.raw.data| == Total(DataLength(bytes.data[p..]))
  {
    hide Slice, View, Tiled, Coalesced, UserView, Blocks, BlockGood;
    var b := bytes.data[p..];
    var length := DataLength(b);
    Sizes(bytes);
    var user := UserExists(bytes, p, length, Blocks(length));
    SliceOf(bytes, p, 0, Total(length));
    RawRange(bytes, p, Total(length));
    f := Frame(c, p, b[3], Address(Le16(b, 6), Le16(b, 4)), user, Slice(bytes, p, p + Total(length)).value);
  }

  ghost predicate Represents(f: Frame, x: LinkFrame) {
    f.control == x.control && f.address == x.address && f.userData.data == x.user
  }

  lemma {:induction false} SoundRepresents(f: Frame, bytes: Evidence, crc: Crc, x: LinkFrame, rest: seq<byte>)
    requires FrameSound(f, bytes, crc) && x.Fits() && bytes.data[f.start..] == EncodeFrame(x, crc) + rest
    ensures Represents(f, x)
  {
    hide EncodeFrame, View, Tiled, Coalesced, UserView, BlockGood, Total;
    HeadReads(x, crc, rest);
    Sizes(bytes);
    var v := View(bytes)[f.start..];
    ValuesOf(bytes);
    ValuesOf(f.userData);
    assert Values(v) == bytes.data[f.start..];
    UserReads(x, crc, rest, v, Blocks(|x.user|));
    assert x.user[..|x.user|] == x.user;
  }

  // ---------------------------------------------------------------- many frames

  ghost predicate AllFit(xs: seq<LinkFrame>) {
    forall i | 0 <= i < |xs| :: xs[i].Fits()
  }

  function EncodeAll(xs: seq<LinkFrame>, crc: Crc): seq<byte>
    requires AllFit(xs)
  {
    if xs == [] then [] else EncodeFrame(xs[0], crc) + EncodeAll(xs[1..], crc)
  }

  /** From octet p on, the chunk is these frames. */
  ghost predicate Tail(fs: seq<Frame>, bytes: Evidence, c: nat, crc: Crc, p: nat) {
    && (forall k | 0 <= k < |fs| :: fs[k].chunk == c && fs[k].start == StartFrom(fs, p, k) && FrameSound(fs[k], bytes, crc))
    && StartFrom(fs, p, |fs|) == |bytes.data|
  }

  function StartFrom(fs: seq<Frame>, p: nat, k: nat): nat
    requires k <= |fs|
  {
    if k == 0 then p else fs[k - 1].End()
  }

  lemma {:induction false} TailCons(f: Frame, gs: seq<Frame>, bytes: Evidence, c: nat, crc: Crc)
    requires Tail(gs, bytes, c, crc, f.End()) && FrameSound(f, bytes, crc) && f.chunk == c
    ensures Tail([f] + gs, bytes, c, crc, f.start)
  {
    hide FrameSound, StartFrom;
    var fs, p, q := [f] + gs, f.start, f.End();
    forall k | 0 <= k < |fs| ensures fs[k].chunk == c && fs[k].start == StartFrom(fs, p, k) && FrameSound(fs[k], bytes, crc) {
      StartCons(f, gs, k);
    }
    StartCons(f, gs, |fs|);
  }

  lemma {:induction false} StartCons(f: Frame, gs: seq<Frame>, k: nat)
    requires k <= |gs| + 1
    ensures StartFrom([f] + gs, f.start, k) == if k == 0 then f.start else StartFrom(gs, f.End(), k - 1)
  {
  }

  lemma {:induction false} EncodedTail(xs: seq<LinkFrame>, bytes: Evidence, c: nat, crc: Crc, p: nat) returns (fs: seq<Frame>)
    requires Canonical(bytes) && AllFit(xs) && p <= |bytes.data| && bytes.data[p..] == EncodeAll(xs, crc)
    ensures Tail(fs, bytes, c, crc, p) && |fs| == |xs|
    ensures forall i | 0 <= i < |xs| :: Represents(fs[i], xs[i])
  {
    hide Canonical, EncodeFrame, FrameSound, Represents, LinkGood, Total;
    if xs == [] {
      fs := [];
    } else {
      hide Tail;
      var rest := EncodeAll(xs[1..], crc);
      EncodedGood(xs[0], crc, rest);
      FrameSize(xs[0], crc);
      var f := FrameExists(bytes, c, p, crc);
      SoundRepresents(f, bytes, crc, xs[0], rest);
      assert bytes.data[f.End()..] == bytes.data[p..][|EncodeFrame(xs[0], crc)|..] == rest;
      var gs := EncodedTail(xs[1..], bytes, c, crc, f.End());
      fs := [f] + gs;
      TailCons(f, gs, bytes, c, crc);
    }
  }

  /** Frames written one behind another are exactly the frames of the chunk, with their user data. */
  lemma {:induction false} EncodedChunk(xs: seq<LinkFrame>, bytes: Evidence, c: nat, crc: Crc) returns (fs: seq<Frame>)
    requires Canonical(bytes) && AllFit(xs) && bytes.data == EncodeAll(xs, crc)
    ensures BackToBack(fs, bytes, c, crc) && |fs| == |xs|
    ensures forall i | 0 <= i < |xs| :: Represents(fs[i], xs[i])
  {
    hide Canonical, EncodeAll, FrameSound, Represents;
    assert bytes.data[0..] == bytes.data;
    fs := EncodedTail(xs, bytes, c, crc, 0);
    forall k | 0 <= k <= |fs| ensures StartOf(fs, k) == StartFrom(fs, 0, k) {
    }
  }
}
