/**
 Sequence-epoch hypotheses. A 32-bit sequence number stands for every stream offset that is
 congruent to its distance from the anchor modulo 2^32.
 */
module Epochs {
  import opened Common
  import opened Boundaries

  const EPOCH_RANGE: Error := Bad("sequence_epoch")

  /** The offset that alias number k stands for. */
  function Alias(residue: int, k: int): int {
    residue + k * MODULUS
  }

  /** The aliases first, first + 1, .. as 64-bit offsets, failing on the first that does not fit. */
  function Collect(residue: int, first: int, count: nat): Result<seq<i64>> {
    if count == 0 then Ok([])
    else
      var before :- Collect(residue, first, count - 1);
      var x := Alias(residue, first + count - 1);
      if I64_MIN <= x <= I64_MAX then Ok(before + [x]) else Err(Limit("sequence_epoch"))
  }

  function EpochCandidates(sequence: u32, anchor: u32, low: i64, high: i64, max: nat): Result<seq<i64>> {
    if low > high || max == 0 || max > 64 then Err(EPOCH_RANGE)
    else
      var residue := Wrap32(sequence - anchor);
      var first := (low - residue + MODULUS - 1) / MODULUS;
      var last := (high - residue) / MODULUS;
      if last < first then Ok([])
      else if last - first + 1 > max then Err(Limit("sequence_epoch_candidates"))
      else Collect(residue, first, last - first + 1)
  }

  /** Every offset of the range that the sequence number can stand for. */
  ghost function Aliases(sequence: u32, anchor: u32, low: int, high: int): set<int> {
    set x | low <= x <= high && Congruent(sequence, anchor, x)
  }

  ghost predicate Congruent(sequence: u32, anchor: u32, x: int) {
    Wrap32(anchor + x) == sequence
  }

  // ---------------------------------------------------------------- arithmetic of one range

  lemma {:induction false} FirstAlias(residue: int, low: int)
    requires 0 <= residue < MODULUS
    ensures var first := (low - residue + MODULUS - 1) / MODULUS;
            Alias(residue, first - 1) < low <= Alias(residue, first)
  {
  }

  lemma {:induction false} LastAlias(residue: int, high: int)
    requires 0 <= residue < MODULUS
    ensures var last := (high - residue) / MODULUS;
            Alias(residue, last) <= high < Alias(residue, last + 1)
  {
  }

  lemma {:induction false} AliasOrder(residue: int, j: int, k: int)
    ensures j < k <==> Alias(residue, j) < Alias(residue, k)
  {
  }

  ghost predicate AliasOf(residue: int, x: int) {
    exists k :: x == Alias(residue, k)
  }

  /** The congruent offsets are the aliases of the residue. */
  lemma {:induction false} CongruentIsAlias(sequence: u32, anchor: u32, x: int)
    ensures Congruent(sequence, anchor, x) <==> AliasOf(Wrap32(sequence - anchor), x)
  {
    var residue := Wrap32(sequence - anchor);
    var q := (sequence - anchor) / MODULUS;
    assert sequence - anchor == residue + q * MODULUS;
    if Congruent(sequence, anchor, x) {
      var p := (anchor + x) / MODULUS;
      assert anchor + x == sequence + p * MODULUS;
      AliasSum(residue, q, p);
      assert x == Alias(residue, q + p);
    }
    if k :| x == Alias(residue, k) {
      AliasWraps(sequence, anchor, x, k - q);
    }
  }

  lemma {:induction false} AliasSum(residue: int, q: int, p: int)
    ensures residue + q * MODULUS + p * MODULUS == Alias(residue, q + p)
  {
  }

  lemma {:induction false} AliasWraps(sequence: u32, anchor: u32, x: int, p: int)
    requires anchor + x == sequence + p * MODULUS
    ensures Wrap32(anchor + x) == sequence
  {
  }

  lemma {:induction false} CollectValue(residue: int, first: int, count: nat, low: int, high: int)
    requires I64_MIN <= low && high <= I64_MAX && low <= Alias(residue, first)
    requires count > 0 ==> Alias(residue, first + count - 1) <= high
    ensures Collect(residue, first, count).Ok?
    ensures var s := Collect(residue, first, count).value;
            |s| == count && forall i | 0 <= i < count :: s[i] == Alias(residue, first + i)
  {
    hide Alias;
    if count > 0 {
      AliasOrder(residue, first + count - 2, first + count - 1);
      if first < first + count - 1 {
        AliasOrder(residue, first, first + count - 1);
      }
      CollectValue(residue, first, count - 1, low, high);
    }
  }

  lemma {:induction false} AscendingSize(s: seq<int>)
    requires Ascending(s)
    ensures |set x | x in s| == |s|
  {
    if s != [] {
      var init, last := s[..|s| - 1], s[|s| - 1];
      AscendingSize(init);
      assert s == init + [last];
      assert (set x | x in s) == (set x | x in init) + {last};
    }
  }

  lemma {:induction false} AliasesListed(sequence: u32, anchor: u32, low: int, high: int, s: seq<int>, first: int)
    requires low <= high
    requires var residue := Wrap32(sequence - anchor);
             && first == (low - residue + MODULUS - 1) / MODULUS
             && |s| == Max(0, (high - residue) / MODULUS - first + 1)
             && forall i | 0 <= i < |s| :: s[i] == Alias(residue, first + i)
    ensures Ascending(s) && (set x | x in s) == Aliases(sequence, anchor, low, high)
  {
    var residue := Wrap32(sequence - anchor);
    var last := (high - residue) / MODULUS;
    FirstAlias(residue, low);
    LastAlias(residue, high);
    hide Alias, Congruent;
    forall i, j | 0 <= i < j < |s| ensures s[i] < s[j] {
      AliasOrder(residue, first + i, first + j);
    }
    forall x ensures x in s <==> x in Aliases(sequence, anchor, low, high) {
      CongruentIsAlias(sequence, anchor, x);
      if x in s {
        var i :| 0 <= i < |s| && s[i] == x;
        InRange(residue, first, last, first + i, low, high);
      }
      if x in Aliases(sequence, anchor, low, high) {
        var k :| x == Alias(residue, k);
        InRange(residue, first, last, k, low, high);
        assert x == s[k - first];
      }
    }
  }

  lemma {:induction false} InRange(residue: int, first: int, last: int, k: int, low: int, high: int)
    requires Alias(residue, first - 1) < low <= Alias(residue, first)
    requires Alias(residue, last) <= high < Alias(residue, last + 1)
    ensures low <= Alias(residue, k) <= high <==> first <= k <= last
  {
    hide Alias;
    AliasOrder(residue, first - 1, k);
    AliasOrder(residue, k, first);
    AliasOrder(residue, k, last);
    AliasOrder(residue, last, k);
    AliasOrder(residue, k, last + 1);
    AliasOrder(residue, first, k);
  }

  /**
   On a valid range the enumeration is exact: it fails only when the range holds more aliases than
   allowed, and otherwise lists all of them once, in ascending order.
   */
  lemma {:induction false} EpochCandidatesExact(sequence: u32, anchor: u32, low: i64, high: i64, max: nat)
    requires low <= high && 0 < max <= 64
    ensures var r := EpochCandidates(sequence, anchor, low, high, max);
            && (r.Ok? <==> |Aliases(sequence, anchor, low, high)| <= max)
            && (r.Err? ==> r.error == Limit("sequence_epoch_candidates"))
            && (r.Ok? ==> Ascending(r.value) && (set x | x in r.value) == Aliases(sequence, anchor, low, high))
  {
    var residue := Wrap32(sequence - anchor);
    var first := (low - residue + MODULUS - 1) / MODULUS;
    var last := (high - residue) / MODULUS;
    var count := Max(0, last - first + 1);
    var listed := seq(count, i requires 0 <= i < count => Alias(residue, first + i));
    hide Alias, Aliases, Collect;
    AliasesListed(sequence, anchor, low, high, listed, first);
    AscendingSize(listed);
    assert |Aliases(sequence, anchor, low, high)| == count;
    if 0 < count <= max {
      FirstAlias(residue, low);
      LastAlias(residue, high);
      CollectValue(residue, first, count, low, high);
      assert Collect(residue, first, count).value == listed;
    }
  }

  /** An invalid range or budget is refused, whatever the sequence number. */
  lemma {:induction false} EpochCandidatesRefused(sequence: u32, anchor: u32, low: i64, high: i64, max: nat)
    ensures EpochCandidates(sequence, anchor, low, high, max) == Err(EPOCH_RANGE) <==> low > high || max == 0 || max > 64
  {
    if !(low > high || max == 0 || max > 64) {
      var residue := Wrap32(sequence - anchor);
      var first := (low - residue + MODULUS - 1) / MODULUS;
      CollectError(residue, first, Max(0, (high - residue) / MODULUS - first + 1));
    }
  }

  lemma {:induction false} CollectError(residue: int, first: int, count: nat)
    ensures Collect(residue, first, count).Err? ==> Collect(residue, first, count).error == Limit("sequence_epoch")
  {
    if count > 0 {
      CollectError(residue, first, count - 1);
    }
  }
}
