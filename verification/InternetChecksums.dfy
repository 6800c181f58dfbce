/** The Internet checksum over any split of its input, equal to the one-shot sum of RFC 1071. */
module InternetChecksums {
  import opened Common

  /** Word k of the input, big-endian. */
  function Word(b: seq<byte>, k: nat): nat
    requires 2 * k + 1 < |b|
  {
    256 * (b[2 * k] as int) + b[2 * k + 1]
  }

  /** One's-complement addition: the carry out of sixteen bits comes back in. */
  function Fold(sum: nat, word: nat): nat {
    (sum + word) % 0x1_0000 + (sum + word) / 0x1_0000
  }

  /** The first k words, folded as they come. */
  function FoldTo(b: seq<byte>, k: nat): nat
    requires 2 * k <= |b|
  {
    if k == 0 then 0 else Fold(FoldTo(b, k - 1), Word(b, k - 1))
  }

  /** The first k words, added exactly. */
  function SumTo(b: seq<byte>, k: nat): nat
    requires 2 * k <= |b|
  {
    if k == 0 then 0 else SumTo(b, k - 1) + Word(b, k - 1)
  }

  /** An odd last byte counts as the high half of a word. */
  function Odd(b: seq<byte>): nat {
    if |b| % 2 == 1 then 256 * (b[|b| - 1] as int) else 0
  }

  /** The exact sum of all words. */
  function Total(b: seq<byte>): nat {
    SumTo(b, |b| / 2) + Odd(b)
  }

  lemma {:induction false} FoldBounds(sum: nat, word: nat)
    requires sum <= 0xFFFF && word <= 0xFFFF
    ensures Fold(sum, word) <= 0xFFFF && (Fold(sum, word) == 0 <==> sum + word == 0)
    ensures Fold(sum, word) == sum + word || Fold(sum, word) == sum + word - 0xFFFF
  {
  }

  lemma {:induction false} Congruent(a: nat, b: nat, w: nat)
    requires a % 0xFFFF == b % 0xFFFF
    ensures (a + w) % 0xFFFF == (b + w) % 0xFFFF
    ensures a + w >= 0xFFFF ==> (a + w - 0xFFFF) % 0xFFFF == (b + w) % 0xFFFF
  {
  }

  /** Folding keeps the sum modulo 65535, never leaves sixteen bits and never turns a sum into zero. */
  lemma {:induction false} FoldMeans(b: seq<byte>, k: nat)
    requires 2 * k <= |b|
    ensures FoldTo(b, k) <= 0xFFFF && FoldTo(b, k) % 0xFFFF == SumTo(b, k) % 0xFFFF
    ensures FoldTo(b, k) == 0 <==> SumTo(b, k) == 0
  {
    hide Fold;
    if k > 0 {
      FoldMeans(b, k - 1);
      FoldBounds(FoldTo(b, k - 1), Word(b, k - 1));
      Congruent(FoldTo(b, k - 1), SumTo(b, k - 1), Word(b, k - 1));
    }
  }

  lemma {:induction false} FoldPrefix(b: seq<byte>, more: seq<byte>, k: nat)
    requires 2 * k <= |b|
    ensures FoldTo(b + more, k) == FoldTo(b, k)
  {
    hide Fold;
    if k > 0 {
      FoldPrefix(b, more, k - 1);
      assert Word(b + more, k - 1) == Word(b, k - 1);
    }
  }

  /** The checksum of a whole message in one go. */
  function OneShot(b: seq<byte>): u16 {
    FoldMeans(b, |b| / 2);
    FoldBounds(FoldTo(b, |b| / 2), Odd(b));
    0xFFFF - Fold(FoldTo(b, |b| / 2), Odd(b))
  }

  lemma {:induction false} ZeroResidue(x: nat, y: nat)
    requires x <= 0xFFFF && x % 0xFFFF == y % 0xFFFF && (x == 0 <==> y == 0)
    ensures x == 0xFFFF <==> y > 0 && y % 0xFFFF == 0
  {
  }

  /** A message checks out exactly when its words add up to a nonzero multiple of 65535. */
  lemma {:induction false} ChecksumZero(b: seq<byte>)
    ensures OneShot(b) == 0 <==> Total(b) > 0 && Total(b) % 0xFFFF == 0
  {
    hide Fold;
    var k := |b| / 2;
    FoldMeans(b, k);
    FoldBounds(FoldTo(b, k), Odd(b));
    Congruent(FoldTo(b, k), SumTo(b, k), Odd(b));
    ZeroResidue(Fold(FoldTo(b, k), Odd(b)), Total(b));
  }

  class InternetChecksum {
    var sum: nat
    var high: Option<byte>
    ghost var seen: seq<byte>

    /** The accumulator holds the whole words seen so far; an odd byte waits for its partner. */
    ghost predicate Valid()
      reads this
    {
      && sum == FoldTo(seen, |seen| / 2) <= 0xFFFF
      && high == if |seen| % 2 == 1 then Some(seen[|seen| - 1]) else None
    }

    constructor ()
      ensures Valid() && seen == []
    {
      sum := 0;
      high := None;
      seen := [];
    }

    method AddWord(word: nat)
      requires sum <= 0xFFFF && word <= 0xFFFF
      modifies this`sum
      ensures sum == Fold(old(sum), word) <= 0xFFFF
    {
      FoldBounds(sum, word);
      sum := sum + word;
      sum := sum % 0x1_0000 + sum / 0x1_0000;
    }

    /** Feeding more bytes is the same as having had them from the start. */
    method Update(bytes: seq<byte>)
      requires Valid()
      modifies this
      ensures Valid() && seen == old(seen) + bytes
    {
      hide Fold;
      if bytes == [] {
        assert seen + bytes == seen;
        return;
      }
      ghost var all := seen + bytes;
      var at := 0;
      ghost var before := |seen|;
      FoldPrefix(seen, bytes, before / 2);
      if high.Some? {
        assert Word(all, before / 2) == 256 * (high.value as int) + bytes[0];
        AddWord(256 * (high.value as int) + bytes[0]);
        high := None;
        at := 1;
      }
      at := AddPairs(bytes, at, before);
      high := if at < |bytes| then Some(bytes[at]) else None;
      seen := all;
    }

    /** Add the whole words of the data from an even position of the input on. */
    method AddPairs(bytes: seq<byte>, start: nat, ghost before: nat) returns (at: nat)
      requires before == |seen| && start <= |bytes| && (before + start) % 2 == 0
      requires sum == FoldTo(seen + bytes, (before + start) / 2) <= 0xFFFF
      modifies this`sum
      ensures start <= at <= |bytes| < at + 2 && (before + at) % 2 == 0
      ensures sum == FoldTo(seen + bytes, (before + at) / 2) <= 0xFFFF
    {
      hide Fold;
      at := start;
      while at + 1 < |bytes|
        invariant start <= at <= |bytes| && (before + at) % 2 == 0
        invariant sum == FoldTo(seen + bytes, (before + at) / 2) <= 0xFFFF
        decreases |bytes| - at
      {
        assert Word(seen + bytes, (before + at) / 2) == 256 * (bytes[at] as int) + bytes[at + 1];
        AddWord(256 * (bytes[at] as int) + bytes[at + 1]);
        at := at + 2;
      }
    }

    /** Reading the checksum leaves the state as it was. */
    method Finish() returns (r: u16)
      requires Valid()
      ensures r == OneShot(seen)
    {
      var s := sum;
      FoldBounds(sum, Odd(seen));
      if high.Some? {
        s := s + 256 * (high.value as int);
      }
      ghost var start := s;
      while s >= 0x1_0000
        invariant s == start <= 0x1_FFFE || (start >= 0x1_0000 && s == Fold(start, 0))
        decreases s
      {
        s := s % 0x1_0000 + s / 0x1_0000;
      }
      r := 0xFFFF - s;
    }
  }
}
