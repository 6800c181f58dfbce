/** Facts about the parts of one set: ordering, coverage and the joined payload. */
module FragmentParts {
  import opened Common
  import opened Provenance
  import opened FragmentSets

  ghost predicate PartOk(p: Part) {
    Valid(p.bytes) && p.bytes.data != [] && p.End() <= MAX_DATAGRAM
  }

  ghost predicate PartsOk(parts: seq<Part>) {
    forall i | 0 <= i < |parts| :: PartOk(parts[i])
  }

  ghost predicate SortedParts(parts: seq<Part>) {
    forall i, j | 0 <= i < j < |parts| :: parts[i].start <= parts[j].start
  }

  /** Two parts can stand in one datagram. */
  ghost predicate Compatible(p: Part, q: Part, ipv6: bool) {
    (Overlap(p, q) ==> !ipv6) && Agree(p, q)
  }

  ghost predicate AllCompatible(parts: seq<Part>, ipv6: bool) {
    forall i, j | 0 <= i < j < |parts| :: Compatible(parts[i], parts[j], ipv6)
  }

  predicate Holds(p: Part, x: int) {
    p.start <= x < p.End()
  }

  // ---------------------------------------------------------------- insertion

  lemma {:induction false} InsertAtSplits(parts: seq<Part>, start: nat)
    requires SortedParts(parts)
    ensures var k := InsertAt(parts, start);
            && (forall i | 0 <= i < k :: parts[i].start <= start)
            && (forall i | k <= i < |parts| :: start < parts[i].start)
  {
    if parts != [] && parts[|parts| - 1].start > start {
      var init := parts[..|parts| - 1];
      InsertAtSplits(init, start);
      assert forall i | 0 <= i < |init| :: init[i] == parts[i];
    }
  }

  /** Where each element of the extended list comes from. */
  lemma {:induction false} InsertIndex(parts: seq<Part>, p: Part, i: int)
    requires 0 <= i <= |parts|
    ensures var k := InsertAt(parts, p.start);
            && |Insert(parts, p)| == |parts| + 1
            && Insert(parts, p)[i] == if i < k then parts[i] else if i == k then p else parts[i - 1]
  {
    hide InsertAt;
  }

  lemma {:induction false} InsertSorted(parts: seq<Part>, p: Part)
    requires SortedParts(parts)
    ensures SortedParts(Insert(parts, p))
  {
    hide InsertAt, Insert;
    InsertAtSplits(parts, p.start);
    var r := Insert(parts, p);
    InsertIndex(parts, p, 0);
    forall i, j | 0 <= i < j < |r| ensures r[i].start <= r[j].start {
      InsertIndex(parts, p, i);
      InsertIndex(parts, p, j);
    }
  }

  lemma {:induction false} InsertMember(parts: seq<Part>, p: Part, x: Part)
    ensures x in Insert(parts, p) <==> x == p || x in parts
  {
    hide InsertAt;
    var k := InsertAt(parts, p.start);
    assert parts == parts[..k] + parts[k..];
  }

  lemma {:induction false} InsertOk(parts: seq<Part>, p: Part, ipv6: bool)
    requires PartsOk(parts) && PartOk(p)
    ensures PartsOk(Insert(parts, p))
    ensures AllCompatible(parts, ipv6) && (forall i | 0 <= i < |parts| :: Compatible(parts[i], p, ipv6)) ==>
              AllCompatible(Insert(parts, p), ipv6)
  {
    hide InsertAt, Insert, PartOk, Overlap, Agree;
    var r := Insert(parts, p);
    InsertIndex(parts, p, 0);
    forall i | 0 <= i < |r| ensures PartOk(r[i]) {
      InsertIndex(parts, p, i);
    }
    if AllCompatible(parts, ipv6) && (forall i | 0 <= i < |parts| :: Compatible(parts[i], p, ipv6)) {
      forall i, j | 0 <= i < j < |r| ensures Compatible(r[i], r[j], ipv6) {
        InsertIndex(parts, p, i);
        InsertIndex(parts, p, j);
        if i == InsertAt(parts, p.start) {
          CompatibleSymmetric(r[j], p, ipv6);
        }
      }
    }
  }

  lemma {:induction false} CompatibleSymmetric(p: Part, q: Part, ipv6: bool)
    requires Compatible(p, q, ipv6)
    ensures Compatible(q, p, ipv6)
  {
    hide Window;
    assert Max(p.start, q.start) == Max(q.start, p.start) && Min(p.End(), q.End()) == Min(q.End(), p.End());
  }

  lemma {:induction false} PartsLengthSplit(a: seq<Part>, b: seq<Part>)
    ensures PartsLength(a + b) == PartsLength(a) + PartsLength(b)
  {
    if b == [] {
      assert a + b == a;
    } else {
      PartsLengthSplit(a, b[..|b| - 1]);
      assert (a + b)[..|a + b| - 1] == a + b[..|b| - 1];
    }
  }

  lemma {:induction false} InsertLength(parts: seq<Part>, p: Part)
    ensures PartsLength(Insert(parts, p)) == PartsLength(parts) + |p.bytes.data|
  {
    hide InsertAt, PartsLength;
    var k := InsertAt(parts, p.start);
    assert parts == parts[..k] + parts[k..];
    PartsLengthSplit(parts[..k], parts[k..]);
    PartsLengthSplit(parts[..k], [p]);
    PartsLengthSplit(parts[..k] + [p], parts[k..]);
    assert PartsLength([p]) == |p.bytes.data| by {
      OnePart(p);
    }
  }

  lemma {:induction false} OnePart(p: Part)
    ensures PartsLength([p]) == |p.bytes.data|
  {
    assert [p][..0] == [];
  }

  // ---------------------------------------------------------------- coverage

  /** The highest position covered by the first k parts. */
  function Reach(parts: seq<Part>, k: nat): nat
    requires k <= |parts|
  {
    if k == 0 then 0 else Max(Reach(parts, k - 1), parts[k - 1].End())
  }

  /** None of the first k parts leaves a hole behind it. */
  ghost predicate Contiguous(parts: seq<Part>, k: nat)
    requires k <= |parts|
  {
    forall i | 0 <= i < k :: parts[i].start <= Reach(parts, i)
  }

  ghost predicate EndsBy(parts: seq<Part>, total: nat) {
    forall i | 0 <= i < |parts| :: parts[i].start < parts[i].End() <= total
  }

  /** The cursor reaches the terminal length exactly when the parts cover everything below it. */
  lemma {:induction false} CursorCovers(parts: seq<Part>, k: nat, total: nat)
    requires k <= |parts| && EndsBy(parts, total) && Contiguous(parts, k)
    ensures Cursor(parts, k, Reach(parts, k)) == total
       <==> Contiguous(parts, |parts|) && Reach(parts, |parts|) == total
    decreases |parts| - k
  {
    hide Reach, EndsBy, Cursor;
    CursorStep(parts, k, total);
    if k < |parts| {
      if parts[k].start <= Reach(parts, k) {
        CursorCovers(parts, k + 1, total);
      } else {
        ReachBelow(parts, k, total);
      }
    }
  }

  lemma {:induction false} CursorStep(parts: seq<Part>, k: nat, total: nat)
    requires k <= |parts| && EndsBy(parts, total)
    ensures k == |parts| ==> Cursor(parts, k, Reach(parts, k)) == Reach(parts, k)
    ensures k < |parts| && parts[k].start > Reach(parts, k) ==> Cursor(parts, k, Reach(parts, k)) == Reach(parts, k)
    ensures k < |parts| && parts[k].start <= Reach(parts, k) ==>
              Cursor(parts, k, Reach(parts, k)) == Cursor(parts, k + 1, Reach(parts, k + 1))
  {
  }

  lemma {:induction false} ReachBelow(parts: seq<Part>, k: nat, total: nat)
    requires k < |parts| && EndsBy(parts, total) && parts[k].start > Reach(parts, k)
    ensures Reach(parts, k) < total
  {
    hide Reach;
  }

  ghost predicate JoinedFrom(parts: seq<Part>, k: nat, x: int, o: Observed)
    requires k <= |parts| && PartsOk(parts)
  {
    exists i | 0 <= i < k :: Holds(parts[i], x) && At(parts[i].bytes, x - parts[i].start) == o
  }

  /** One join step is an append of the part's new bytes, or nothing. */
  lemma {:induction false} JoinedStep(parts: seq<Part>, k: nat)
    requires 0 < k <= |parts| && PartOk(parts[k - 1])
    requires Joined(parts, k - 1).layoutValid && |Joined(parts, k - 1).data| <= MAX_DATAGRAM
    requires parts[k - 1].start <= |Joined(parts, k - 1).data|
    ensures var p, before := parts[k - 1], Joined(parts, k - 1);
            var skip := |before.data| - p.start;
            if skip < |p.bytes.data| then
              && Slice(p.bytes, skip, |p.bytes.data|).Ok?
              && Valid(Slice(p.bytes, skip, |p.bytes.data|).value)
              && |Slice(p.bytes, skip, |p.bytes.data|).value.data| == p.End() - |before.data|
              && Append(before, Slice(p.bytes, skip, |p.bytes.data|).value, MAX_DATAGRAM) == Ok(Joined(parts, k))
            else Joined(parts, k) == before
  {
    hide Tiled, SliceSpans, AppendSpans;
    var p, before := parts[k - 1], Joined(parts, k - 1);
    if |before.data| - p.start < |p.bytes.data| {
      SliceValid(p.bytes, |before.data| - p.start, |p.bytes.data|);
    }
  }

  lemma {:induction false} JoinedSize(parts: seq<Part>, k: nat)
    requires k <= |parts| && PartsOk(parts) && Contiguous(parts, k)
    ensures Valid(Joined(parts, k)) && |Joined(parts, k).data| == Reach(parts, k) <= MAX_DATAGRAM
  {
    hide Tiled, Slice, Append;
    if k == 0 {
      NothingJoined(parts);
    } else {
      hide Joined;
      JoinedSize(parts, k - 1);
      var p, before := parts[k - 1], Joined(parts, k - 1);
      assert PartOk(p) && p.start <= Reach(parts, k - 1);
      JoinedStep(parts, k);
      if |before.data| - p.start < |p.bytes.data| {
        var tail := Slice(p.bytes, |before.data| - p.start, |p.bytes.data|).value;
        AppendValid(before, tail, MAX_DATAGRAM);
        AppendSize(before, tail, MAX_DATAGRAM);
      }
    }
  }

  lemma {:induction false} NothingJoined(parts: seq<Part>)
    ensures Joined(parts, 0) == EMPTY && Valid(EMPTY) && Reach(parts, 0) == 0
  {
  }

  lemma {:induction false} AppendSize(e: Evidence, f: Evidence, limit: nat)
    ensures Append(e, f, limit).Ok? ==> |Append(e, f, limit).value.data| == |e.data| + |f.data|
  {
  }

  /** Every joined byte, with its origin, is a byte of some part at that position. */
  lemma {:induction false} JoinedOrigins(parts: seq<Part>, k: nat, x: int)
    requires k <= |parts| && PartsOk(parts) && Contiguous(parts, k) && 0 <= x < Reach(parts, k)
    ensures Valid(Joined(parts, k)) && x < |Joined(parts, k).data|
    ensures JoinedFrom(parts, k, x, At(Joined(parts, k), x))
  {
    hide *;
    JoinedSize(parts, k);
    ReachStarts(parts, k);
    ContiguousPrefix(parts, k);
    JoinedSize(parts, k - 1);
    if x < Reach(parts, k - 1) {
      JoinedOrigins(parts, k - 1, x);
      JoinedKeeps(parts, k, x);
      FromEarlier(parts, k, x, At(Joined(parts, k), x));
    } else {
      JoinedExtends(parts, k, x);
      FromLast(parts, k, x, At(Joined(parts, k), x));
    }
  }

  lemma {:induction false} ReachStarts(parts: seq<Part>, k: nat)
    requires k <= |parts| && Reach(parts, k) > 0
    ensures k > 0
  {
  }

  lemma {:induction false} ContiguousPrefix(parts: seq<Part>, k: nat)
    requires 0 < k <= |parts| && Contiguous(parts, k)
    ensures Contiguous(parts, k - 1)
  {
    hide Reach;
  }

  lemma {:induction false} FromLast(parts: seq<Part>, k: nat, x: int, o: Observed)
    requires 0 < k <= |parts| && PartsOk(parts)
    requires Holds(parts[k - 1], x) && Valid(parts[k - 1].bytes) && At(parts[k - 1].bytes, x - parts[k - 1].start) == o
    ensures JoinedFrom(parts, k, x, o)
  {
    hide At, Tiled;
  }

  lemma {:induction false} FromEarlier(parts: seq<Part>, k: nat, x: int, o: Observed)
    requires 0 < k <= |parts| && PartsOk(parts) && JoinedFrom(parts, k - 1, x, o)
    ensures JoinedFrom(parts, k, x, o)
  {
    hide At, Tiled;
    var i :| 0 <= i < k - 1 && Holds(parts[i], x) && At(parts[i].bytes, x - parts[i].start) == o;
  }

  lemma {:induction false} JoinedKeeps(parts: seq<Part>, k: nat, x: int)
    requires 0 < k <= |parts| && PartsOk(parts) && Contiguous(parts, k) && 0 <= x < Reach(parts, k - 1)
    requires Valid(Joined(parts, k - 1)) && |Joined(parts, k - 1).data| == Reach(parts, k - 1) <= MAX_DATAGRAM
    requires Valid(Joined(parts, k)) && |Joined(parts, k).data| == Reach(parts, k)
    ensures At(Joined(parts, k), x) == At(Joined(parts, k - 1), x)
  {
    hide Tiled, At, Slice, Append, Joined;
    var p, before := parts[k - 1], Joined(parts, k - 1);
    assert PartOk(p);
    JoinedStep(parts, k);
    if |before.data| - p.start < |p.bytes.data| {
      var tail := Slice(p.bytes, |before.data| - p.start, |p.bytes.data|).value;
      AppendAt(before, tail, Joined(parts, k), MAX_DATAGRAM, x);
    }
  }

  lemma {:induction false} JoinedExtends(parts: seq<Part>, k: nat, x: int)
    requires 0 < k <= |parts| && PartsOk(parts) && Contiguous(parts, k) && Reach(parts, k - 1) <= x < Reach(parts, k)
    requires Valid(Joined(parts, k - 1)) && |Joined(parts, k - 1).data| == Reach(parts, k - 1) <= MAX_DATAGRAM
    requires Valid(Joined(parts, k)) && |Joined(parts, k).data| == Reach(parts, k)
    ensures Holds(parts[k - 1], x) && Valid(parts[k - 1].bytes)
    ensures At(Joined(parts, k), x) == At(parts[k - 1].bytes, x - parts[k - 1].start)
  {
    hide Tiled, At, Slice, Append, Joined;
    var p, before := parts[k - 1], Joined(parts, k - 1);
    assert PartOk(p) && p.start <= Reach(parts, k - 1);
    JoinedStep(parts, k);
    var skip := |before.data| - p.start;
    var tail := Slice(p.bytes, skip, |p.bytes.data|).value;
    AppendAt(before, tail, Joined(parts, k), MAX_DATAGRAM, x);
    SliceAt(p.bytes, tail, skip, |p.bytes.data|, x - |before.data|);
  }

  lemma {:induction false} WindowAt(p: Part, a: nat, b: nat, x: int)
    requires p.start <= a <= x < b <= p.End()
    ensures |Window(p, a, b)| == b - a && Window(p, a, b)[x - a] == p.bytes.data[x - p.start]
  {
  }

  /** Agreeing parts give the same byte wherever both hold one. */
  lemma {:induction false} AgreeAt(p: Part, q: Part, x: int)
    requires Agree(p, q) && Holds(p, x) && Holds(q, x)
    ensures p.bytes.data[x - p.start] == q.bytes.data[x - q.start]
  {
    hide Window;
    WindowAt(p, Max(p.start, q.start), Min(p.End(), q.End()), x);
    WindowAt(q, Max(p.start, q.start), Min(p.End(), q.End()), x);
  }

  /** The joined payload agrees with every part at every position the part holds. */
  lemma {:induction false} JoinedAgrees(parts: seq<Part>, ipv6: bool, i: int, x: int)
    requires PartsOk(parts) && AllCompatible(parts, ipv6) && Contiguous(parts, |parts|)
    requires 0 <= i < |parts| && Holds(parts[i], x)
    ensures 0 <= x < |Joined(parts, |parts|).data|
    ensures Joined(parts, |parts|).data[x] == parts[i].bytes.data[x - parts[i].start]
  {
    hide Tiled, Joined, Agree, Overlap, Reach, Locate;
    ReachCovers(parts, |parts|, i);
    JoinedOrigins(parts, |parts|, x);
    var j :| 0 <= j < |parts| && Holds(parts[j], x)
      && At(parts[j].bytes, x - parts[j].start) == At(Joined(parts, |parts|), x);
    if i < j {
      assert Compatible(parts[i], parts[j], ipv6);
      AgreeAt(parts[i], parts[j], x);
    } else if j < i {
      assert Compatible(parts[j], parts[i], ipv6);
      AgreeAt(parts[j], parts[i], x);
    }
  }

  lemma {:induction false} ReachCovers(parts: seq<Part>, k: nat, i: int)
    requires 0 <= i < k <= |parts|
    ensures parts[i].End() <= Reach(parts, k)
  {
    if i < k - 1 {
      ReachCovers(parts, k - 1, i);
    }
  }
}
