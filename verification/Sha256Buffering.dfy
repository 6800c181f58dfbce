/** SHA-256's buffering and padding: any split of the input gives the digest of the padded whole. */
module Sha256Buffering {
  import opened Common

  type State = seq<u32>
  type Compress = (State, seq<byte>) -> State

  const BLOCK: nat := 64

  const INITIAL: State := [
    0x6a09e667, 0xbb67ae85, 0x3c6ef372, 0xa54ff53a, 0x510e527f, 0x9b05688c, 0x1f83d9ab, 0x5be0cd19]

  /** A 64-bit counter. */
  function Wrapped(n: nat): nat {
    n % (U64_MAX + 1)
  }

  /** Bytes behind the last whole block of n bytes. */
  function Waiting(n: nat): nat {
    n % BLOCK
  }

  /** Whole blocks in n bytes. */
  function Whole(n: nat): nat {
    n / BLOCK
  }

  lemma {:induction false} Split(n: nat)
    ensures n == BLOCK * Whole(n) + Waiting(n) && Waiting(n) < BLOCK
  {
  }

  /** The state after the first k whole blocks. */
  function Absorb(m: seq<byte>, k: nat, compress: Compress): State
    requires BLOCK * k <= |m|
  {
    if k == 0 then INITIAL else compress(Absorb(m, k - 1, compress), m[BLOCK * (k - 1)..BLOCK * k])
  }

  lemma {:induction false} AbsorbPrefix(m: seq<byte>, more: seq<byte>, k: nat, compress: Compress)
    requires BLOCK * k <= |m|
    ensures Absorb(m + more, k, compress) == Absorb(m, k, compress)
  {
    if k > 0 {
      AbsorbPrefix(m, more, k - 1, compress);
      assert (m + more)[BLOCK * (k - 1)..BLOCK * k] == m[BLOCK * (k - 1)..BLOCK * k];
    }
  }

  function BigEndian(v: nat, n: nat): (b: seq<byte>)
    ensures |b| == n
  {
    if n == 0 then [] else BigEndian(v / 256, n - 1) + [v % 256]
  }

  function Zeros(n: nat): (b: seq<byte>)
    ensures |b| == n && forall i | 0 <= i < n :: b[i] == 0
  {
    seq(n, i => 0)
  }

  /** The bit length modulo 2^64, as section 5.1.1 of FIPS 180-4 appends it. */
  function BitLength(n: nat): nat {
    Wrapped(8 * Wrapped(n))
  }

  /** Zero bytes between the marker and the length. */
  function Gap(n: nat): (g: nat)
    ensures g < BLOCK && (n + 1 + g + 8) % BLOCK == 0
  {
    var used := Waiting(n) + 1;
    if used <= 56 then 56 - used else 120 - used
  }

  function Padded(m: seq<byte>): (p: seq<byte>)
    ensures |p| % BLOCK == 0 && |p| == |m| + 9 + Gap(|m|)
  {
    m + [0x80] + Zeros(Gap(|m|)) + BigEndian(BitLength(|m|), 8)
  }

  /** Hashing a whole message at once. */
  function Digest(m: seq<byte>, compress: Compress): State {
    Absorb(Padded(m), |Padded(m)| / BLOCK, compress)
  }

  lemma {:induction false} LastBlock(m: seq<byte>, k: nat, compress: Compress)
    requires BLOCK * (k + 1) <= |m|
    ensures Absorb(m, k + 1, compress) == compress(Absorb(m, k, compress), m[BLOCK * k..BLOCK * (k + 1)])
  {
  }

  class Sha256 {
    var state: State
    const buffer: array<byte>
    var used: nat
    var bytes: nat
    const compress: Compress
    ghost var seen: seq<byte>

    /** Whole blocks are absorbed; the rest waits in the buffer. */
    ghost predicate Valid()
      reads this, buffer
    {
      && buffer.Length == BLOCK && used == Waiting(|seen|) && bytes == Wrapped(|seen|)
      && buffer[..used] == seen[|seen| - used..] && state == Absorb(seen, Whole(|seen|), compress)
    }

    constructor (compress: Compress)
      ensures Valid() && seen == [] && fresh(buffer) && this.compress == compress
    {
      this.state := INITIAL;
      this.buffer := new byte[BLOCK](i => 0);
      this.used := 0;
      this.bytes := 0;
      this.compress := compress;
      this.seen := [];
    }

    /** Feeding more data is the same as having had it from the start. */
    method Update(data: seq<byte>)
      requires Valid()
      modifies this, buffer
      ensures Valid() && seen == old(seen) + data
    {
      hide Absorb, Waiting, Whole, Wrapped;
      ghost var all := seen + data;
      Split(|seen|);
      AbsorbPrefix(seen, data, Whole(|seen|), compress);
      WrapSum(|seen|, |data|);
      bytes := Wrapped(bytes + |data|);
      var at := 0;
      if used != 0 {
        at := TopUp(data, all);
        if used != 0 {
          seen := all;
          return;
        }
      }
      at := AbsorbBlocks(data, at, all);
      KeepRest(data, at);
      Split(|all|);
      RestWaits(seen, data, at);
      seen := all;
    }

    /** Complete the waiting block if the data suffices; otherwise keep all of it. */
    method TopUp(data: seq<byte>, ghost all: seq<byte>) returns (at: nat)
      requires buffer.Length == BLOCK && all == seen + data && 0 < used == Waiting(|seen|)
      requires buffer[..used] == seen[|seen| - used..] && state == Absorb(all, Whole(|seen|), compress)
      modifies this`state, this`used, buffer
      ensures used != 0 ==>
                && used == Waiting(|all|) && buffer[..used] == all[|all| - used..] && state == Absorb(all, Whole(|all|), compress)
      ensures used == 0 ==> at <= |data| && Waiting(|seen| + at) == 0 && state == Absorb(all, Whole(|seen| + at), compress)
    {
      hide Absorb;
      ghost var k := Whole(|seen|);
      TailJoins(seen, data);
      at := FillBuffer(data);
      if used < BLOCK {
        assert |all| - used == BLOCK * k;
        assert all[BLOCK * k..|seen| + at] == all[|all| - used..];
        return;
      }
      LastBlock(all, k, compress);
      assert buffer[..] == buffer[..used];
      state := compress(state, buffer[..]);
      used := 0;
    }

    /** Compress whole blocks straight from the data. */
    method AbsorbBlocks(data: seq<byte>, start: nat, ghost all: seq<byte>) returns (at: nat)
      requires start <= |data| && all == seen + data && Waiting(|seen| + start) == 0
      requires state == Absorb(all, Whole(|seen| + start), compress)
      modifies this`state
      ensures start <= at <= |data| < at + BLOCK && Waiting(|seen| + at) == 0
      ensures state == Absorb(all, Whole(|seen| + at), compress)
    {
      hide Absorb;
      at := start;
      while |data| - at >= BLOCK
        invariant start <= at <= |data| && Waiting(|seen| + at) == 0
        invariant state == Absorb(all, Whole(|seen| + at), compress)
        decreases |data| - at
      {
        ghost var k := Whole(|seen| + at);
        SecondPart(seen, data, at, at + BLOCK);
        LastBlock(all, k, compress);
        state := compress(state, data[at..at + BLOCK]);
        at := at + BLOCK;
      }
    }

    /** Copy as much as fits behind the bytes already waiting. */
    method FillBuffer(data: seq<byte>) returns (n: nat)
      requires buffer.Length == BLOCK && 0 < used < BLOCK
      modifies this`used, buffer
      ensures n == Min(BLOCK - old(used), |data|) && used == old(used) + n <= BLOCK
      ensures buffer[..used] == old(buffer[..used]) + data[..n]
    {
      n := Min(BLOCK - used, |data|);
      for i := 0 to n
        invariant buffer[..used + i] == old(buffer[..used]) + data[..i]
        modifies buffer
      {
        buffer[used + i] := data[i];
        assert buffer[..used + i + 1] == buffer[..used + i] + [data[i]];
        assert data[..i + 1] == data[..i] + [data[i]];
      }
      used := used + n;
    }

    /** Keep what is left of the data for later. */
    method KeepRest(data: seq<byte>, at: nat)
      requires buffer.Length == BLOCK && at <= |data| < at + BLOCK
      modifies this`used, buffer
      ensures used == |data| - at && buffer[..used] == data[at..]
    {
      var n := |data| - at;
      for i := 0 to n
        invariant buffer[..i] == data[at..at + i]
        modifies buffer
      {
        buffer[i] := data[at + i];
        assert buffer[..i + 1] == buffer[..i] + [data[at + i]];
        assert data[at..at + i + 1] == data[at..at + i] + [data[at + i]];
      }
      used := n;
      assert data[at..at + n] == data[at..];
    }

    /** Overwrite [from, to) of the buffer with zeros. */
    method Clear(from: nat, to: nat)
      requires buffer.Length == BLOCK && from <= to <= BLOCK
      modifies buffer
      ensures buffer[..from] == old(buffer[..from]) && buffer[from..to] == Zeros(to - from)
    {
      for i := from to to
        invariant buffer[..from] == old(buffer[..from])
        invariant forall j | from <= j < i :: buffer[j] == 0
      {
        buffer[i] := 0;
      }
    }

    /** Put the length in the last eight bytes. */
    method PutLength(bits: seq<byte>)
      requires buffer.Length == BLOCK && |bits| == 8
      modifies buffer
      ensures buffer[..56] == old(buffer[..56]) && buffer[56..] == bits
    {
      for i := 0 to 8
        invariant buffer[..56] == old(buffer[..56])
        invariant forall j | 0 <= j < i :: buffer[56 + j] == bits[j]
      {
        buffer[56 + i] := bits[i];
      }
    }

    /** The marker leaves room for the length: one last block. */
    method FinishShort(bits: seq<byte>, ghost m: seq<byte>, ghost tail: seq<byte>)
      requires buffer.Length == BLOCK && 0 < used <= 56 && |tail| == used - 1 == Waiting(|m|) && |bits| == 8
      requires buffer[..used] == tail + [0x80] && tail == m[|m| - |tail|..] && bits == BigEndian(BitLength(|m|), 8)
      modifies buffer
      ensures |Padded(m)| == BLOCK * (Whole(|m|) + 1)
      ensures buffer[..] == Padded(m)[BLOCK * (Whole(|m|))..BLOCK * (Whole(|m|) + 1)]
    {
      hide Padded, BigEndian;
      PaddedOne(m);
      Clear(used, 56);
      assert buffer[..56] == buffer[..used] + buffer[used..56];
      PutLength(bits);
      assert buffer[..] == buffer[..56] + buffer[56..];
    }

    /** No room left: a block that ends in zeros, and a block of zeros and the length. */
    method FinishLong(bits: seq<byte>, ghost m: seq<byte>, ghost tail: seq<byte>)
      requires buffer.Length == BLOCK && 56 < used <= BLOCK && |tail| == used - 1 == Waiting(|m|) && |bits| == 8
      requires buffer[..used] == tail + [0x80] && tail == m[|m| - |tail|..] && bits == BigEndian(BitLength(|m|), 8)
      modifies this`state, buffer
      ensures |Padded(m)| == BLOCK * (Whole(|m|) + 2)
      ensures state == compress(old(state), Padded(m)[BLOCK * (Whole(|m|))..BLOCK * (Whole(|m|) + 1)])
      ensures buffer[..] == Padded(m)[BLOCK * (Whole(|m|) + 1)..BLOCK * (Whole(|m|) + 2)]
    {
      hide Padded, BigEndian;
      PaddedTwo(m);
      Clear(used, BLOCK);
      assert buffer[..] == buffer[..used] + buffer[used..BLOCK];
      state := compress(state, buffer[..]);
      Clear(0, BLOCK);
      assert buffer[..56] == Zeros(56);
      PutLength(bits);
      assert buffer[..] == buffer[..56] + buffer[56..];
    }

    /** Pad, absorb the last one or two blocks and return the state. */
    method Finalize() returns (r: State)
      requires Valid()
      modifies this, buffer
      ensures r == Digest(old(seen), compress)
    {
      hide Absorb, Padded, BigEndian, Digest, Wrapped;
      ghost var m, k, tail := seen, Whole(|seen|), buffer[..used];
      var bits := BigEndian(Wrapped(8 * bytes), 8);
      PaddedBegins(m, compress);
      DigestIs(m, compress);
      buffer[used] := 0x80;
      used := used + 1;
      assert buffer[..used] == tail + [0x80];
      if used > 56 {
        FinishLong(bits, m, tail);
        LastBlock(Padded(m), k, compress);
        LastBlock(Padded(m), k + 1, compress);
      } else {
        FinishShort(bits, m, tail);
        LastBlock(Padded(m), k, compress);
      }
      state := compress(state, buffer[..]);
      r := state;
    }
  }

  lemma {:induction false} DigestIs(m: seq<byte>, compress: Compress)
    ensures |Padded(m)| % BLOCK == 0 && Digest(m, compress) == Absorb(Padded(m), |Padded(m)| / BLOCK, compress)
  {
  }

  lemma {:induction false} SecondPart(a: seq<byte>, b: seq<byte>, i: nat, j: nat)
    requires i <= j <= |b|
    ensures (a + b)[|a| + i..|a| + j] == b[i..j]
  {
  }

  lemma {:induction false} WrapSum(a: nat, b: nat)
    ensures Wrapped(Wrapped(a) + b) == Wrapped(a + b)
  {
  }

  /** The waiting bytes and the new data, up to a whole block. */
  lemma {:induction false} TailJoins(seen: seq<byte>, data: seq<byte>)
    ensures var used, k, all := Waiting(|seen|), Whole(|seen|), seen + data;
            var n := Min(BLOCK - used, |data|);
            && all[BLOCK * k..|seen| + n] == seen[|seen| - used..] + data[..n]
            && (used + n < BLOCK ==> Waiting(|all|) == used + n && Whole(|all|) == k && n == |data|)
            && (used + n == BLOCK ==> |seen| + n == BLOCK * (k + 1) && Waiting(|seen| + n) == 0 && Whole(|seen| + n) == k + 1)
  {
  }

  lemma {:induction false} RestWaits(seen: seq<byte>, data: seq<byte>, at: nat)
    requires at <= |data| < at + BLOCK && Waiting(|seen| + at) == 0
    ensures var all := seen + data;
            && Waiting(|all|) == |data| - at && Whole(|all|) == Whole(|seen| + at)
            && all[|all| - (|data| - at)..] == data[at..]
  {
    var all := seen + data;
    assert |all| - (|data| - at) == |seen| + at;
  }

  // ---------------------------------------------------------------- padding

  lemma {:induction false} PaddedOne(m: seq<byte>)
    requires Waiting(|m|) + 1 <= 56
    ensures var used, k := Waiting(|m|), Whole(|m|);
            && |Padded(m)| == BLOCK * (k + 1)
            && Padded(m)[BLOCK * k..] == m[|m| - used..] + [0x80] + Zeros(55 - used) + BigEndian(BitLength(|m|), 8)
  {
  }

  lemma {:induction false} PaddedTwo(m: seq<byte>)
    requires Waiting(|m|) + 1 > 56
    ensures var used, k := Waiting(|m|), Whole(|m|);
            && |Padded(m)| == BLOCK * (k + 2)
            && Padded(m)[BLOCK * k..BLOCK * (k + 1)] == m[|m| - used..] + [0x80] + Zeros(63 - used)
            && Padded(m)[BLOCK * (k + 1)..] == Zeros(56) + BigEndian(BitLength(|m|), 8)
  {
    var used, k := Waiting(|m|), Whole(|m|);
    var p := Padded(m);
    assert Zeros(Gap(|m|)) == Zeros(63 - used) + Zeros(56);
    var first := m + [0x80] + Zeros(63 - used);
    assert p == first + (Zeros(56) + BigEndian(BitLength(|m|), 8));
    assert |first| == BLOCK * (k + 1);
  }

  lemma {:induction false} PaddedBegins(m: seq<byte>, compress: Compress)
    ensures Absorb(Padded(m), Whole(|m|), compress) == Absorb(m, Whole(|m|), compress)
  {
    var rest := [0x80] + Zeros(Gap(|m|)) + BigEndian(BitLength(|m|), 8);
    assert Padded(m) == m + rest;
    AbsorbPrefix(m, rest, Whole(|m|), compress);
  }
}
