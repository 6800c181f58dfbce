/**
 Evidence bytes: captured data together with the spans that map every byte back to
 the packet it came from. A span list is read as the origin it gives to each position,
 which makes slicing and appending ordinary sequence operations on observed bytes.
 */
module Provenance {
  import opened Common

  datatype PacketId = PacketId(capture: seq<byte>, frame: nat, recordOffset: nat)

  /** Bytes [start, end) of the data are bytes [packetStart, ..) of the packet. */
  datatype Span = Span(start: nat, end: nat, packet: PacketId, packetStart: nat)

  datatype Evidence = Evidence(data: seq<byte>, spans: seq<Span>, layoutValid: bool)

  datatype Origin = Origin(packet: PacketId, offset: nat)

  /** One reconstructed byte with the packet byte it stands for. */
  datatype Observed = Observed(value: byte, origin: Origin)

  const EMPTY: Evidence := Evidence([], [], true)

  const LAYOUT_ERROR: Error := Error(Invariant, "provenance")

  /** The spans are nonempty, adjacent, cover exactly [0, n) and never overflow a packet offset. */
  predicate Tiled(spans: seq<Span>, n: nat) {
    if spans == [] then n == 0
    else
      var last := spans[|spans| - 1];
      SpanFits(last) && last.end == n && Tiled(spans[..|spans| - 1], last.start)
  }

  predicate SpanFits(s: Span) {
    s.start < s.end && s.packetStart + (s.end - s.start) <= USIZE_MAX
  }

  /** Where the byte at position p came from. */
  ghost function Locate(spans: seq<Span>, p: nat): Option<Origin> {
    if spans == [] then None
    else
      var last := spans[|spans| - 1];
      if last.start <= p then
        if p < last.end then Some(Origin(last.packet, last.packetStart + (p - last.start))) else None
      else Locate(spans[..|spans| - 1], p)
  }

  predicate Mergeable(p: Span, q: Span) {
    p.packet == q.packet && p.end == q.start && p.packetStart + (p.end - p.start) == q.packetStart
  }

  /** No two neighbouring spans could be written as one. */
  ghost predicate Coalesced(spans: seq<Span>) {
    |spans| <= 1
    || (!Mergeable(spans[|spans| - 2], spans[|spans| - 1]) && Coalesced(spans[..|spans| - 1]))
  }

  predicate Valid(e: Evidence) {
    e.layoutValid && Tiled(e.spans, |e.data|)
  }

  /** The shape every evidence value reachable through the interface has. */
  ghost predicate Canonical(e: Evidence) {
    Valid(e) && Coalesced(e.spans)
  }

  lemma {:induction false} Covered(spans: seq<Span>, n: nat, p: nat)
    requires Tiled(spans, n)
    ensures Locate(spans, p).Some? <==> p < n
  {
    if spans != [] && p < spans[|spans| - 1].start {
      Covered(spans[..|spans| - 1], spans[|spans| - 1].start, p);
    }
  }

  lemma {:induction false} Snoc(spans: seq<Span>, m: nat, last: Span)
    requires Tiled(spans, m) && SpanFits(last) && last.start == m
    ensures Tiled(spans + [last], last.end)
  {
    assert (spans + [last])[..|spans|] == spans;
  }

  lemma {:induction false} LastEnds(spans: seq<Span>, n: nat)
    requires Tiled(spans, n) && spans != []
    ensures spans[|spans| - 1].end == n && SpanFits(spans[|spans| - 1])
  {
  }

  /** The byte at position p with its origin. */
  ghost function At(e: Evidence, p: nat): Observed
    requires Valid(e) && p < |e.data|
  {
    Covered(e.spans, |e.data|, p);
    Observed(e.data[p], Locate(e.spans, p).value)
  }

  /** The evidence as a sequence of bytes with their origins. */
  ghost function View(e: Evidence): (v: seq<Observed>)
    requires Valid(e)
    ensures |v| == |e.data|
    ensures forall p | 0 <= p < |e.data| :: v[p] == At(e, p)
  {
    seq(|e.data|, p requires 0 <= p < |e.data| => At(e, p))
  }

  // ---------------------------------------------------------------- construction

  function FromPacket(data: seq<byte>, packet: PacketId, packetStart: nat): Evidence {
    Evidence(
      data,
      if data == [] then [] else [Span(0, |data|, packet, packetStart)],
      data == [] || packetStart + |data| <= USIZE_MAX)
  }

  /** A packet's bytes are their own origins, unless the packet offset would overflow. */
  lemma {:induction false} FromPacketView(data: seq<byte>, packet: PacketId, packetStart: nat)
    ensures var e := FromPacket(data, packet, packetStart);
            && (e.layoutValid <==> (data == [] || packetStart + |data| <= USIZE_MAX))
            && (e.layoutValid ==> Canonical(e))
            && (e.layoutValid ==>
                  forall i | 0 <= i < |data| :: View(e)[i] == Observed(data[i], Origin(packet, packetStart + i)))
  {
    var e := FromPacket(data, packet, packetStart);
    if e.layoutValid && data != [] {
      Snoc([], 0, e.spans[0]);
      assert [] + [e.spans[0]] == e.spans;
    }
  }

  // ---------------------------------------------------------------- slice

  function Clip(s: Span, lo: nat, hi: nat): seq<Span> {
    var a := Max(s.start, lo);
    var b := Min(s.end, hi);
    if a < b then [Span(a - lo, b - lo, s.packet, s.packetStart + (a - s.start))] else []
  }

  function SliceSpans(spans: seq<Span>, lo: nat, hi: nat): seq<Span> {
    if spans == [] then []
    else SliceSpans(spans[..|spans| - 1], lo, hi) + Clip(spans[|spans| - 1], lo, hi)
  }

  function Slice(e: Evidence, lo: nat, hi: nat): Result<Evidence> {
    if !e.layoutValid then Err(LAYOUT_ERROR)
    else if lo > hi || hi > |e.data| then Err(Error(Invariant, "evidence_slice"))
    else Ok(Evidence(e.data[lo..hi], SliceSpans(e.spans, lo, hi), true))
  }

  lemma {:induction false} SliceSpansTile(spans: seq<Span>, n: nat, lo: nat, hi: nat)
    requires Tiled(spans, n) && lo <= hi
    ensures Tiled(SliceSpans(spans, lo, hi), Min(hi, n) - Min(lo, n))
  {
    if spans != [] {
      var init, last := spans[..|spans| - 1], spans[|spans| - 1];
      SliceSpansTile(init, last.start, lo, hi);
      var front, c := SliceSpans(init, lo, hi), Clip(last, lo, hi);
      if c == [] {
        assert front + c == front;
      } else {
        Snoc(front, Min(hi, last.start) - Min(lo, last.start), c[0]);
      }
    }
  }

  lemma {:induction false} SliceLocate(spans: seq<Span>, n: nat, lo: nat, hi: nat, p: nat)
    requires Tiled(spans, n) && lo <= p < hi && p < n
    ensures Locate(SliceSpans(spans, lo, hi), p - lo) == Locate(spans, p)
  {
    var init, last := spans[..|spans| - 1], spans[|spans| - 1];
    var front, c := SliceSpans(init, lo, hi), Clip(last, lo, hi);
    if c == [] {
      assert front + c == front;
      SliceLocate(init, last.start, lo, hi, p);
    } else {
      var q := c[0];
      assert q.start == Max(last.start, lo) - lo && q.end == Min(last.end, hi) - lo;
      assert front + c == front + [q];
      LocateSnoc(front, q, p - lo);
      if p < last.start {
        SliceLocate(init, last.start, lo, hi, p);
      }
    }
  }

  lemma {:induction false} LocateSnoc(spans: seq<Span>, last: Span, p: nat)
    ensures Locate(spans + [last], p)
         == if p < last.start then Locate(spans, p)
            else if p < last.end then Some(Origin(last.packet, last.packetStart + (p - last.start)))
            else None
  {
    assert (spans + [last])[..|spans|] == spans;
  }

  lemma {:induction false} SliceSpansCoalesced(spans: seq<Span>, n: nat, lo: nat, hi: nat)
    requires Tiled(spans, n) && Coalesced(spans) && lo <= hi
    ensures Coalesced(SliceSpans(spans, lo, hi))
    ensures lo < n <= hi ==>
              SliceSpans(spans, lo, hi) != [] && spans != []
              && EndsAlike(SliceSpans(spans, lo, hi)[|SliceSpans(spans, lo, hi)| - 1], spans[|spans| - 1])
  {
    if spans != [] {
      var init, last := spans[..|spans| - 1], spans[|spans| - 1];
      SliceSpansCoalesced(init, last.start, lo, hi);
      SliceSpansTile(init, last.start, lo, hi);
      var front, c := SliceSpans(init, lo, hi), Clip(last, lo, hi);
      if c == [] {
        assert front + c == front;
      } else {
        if front != [] {
          LastEnds(front, Min(hi, last.start) - Min(lo, last.start));
          LastEnds(init, last.start);
          ClipSeparate(front[|front| - 1], init[|init| - 1], last, lo, hi);
        }
        CoalescedSnoc(front, c[0]);
      }
    }
  }

  /** Two spans of one packet whose last bytes have the same origin. */
  ghost predicate EndsAlike(p: Span, q: Span) {
    && p.packet == q.packet
    && p.packetStart + (p.end - p.start) == q.packetStart + (q.end - q.start)
  }

  lemma {:induction false} ClipSeparate(p: Span, previous: Span, last: Span, lo: nat, hi: nat)
    requires SpanFits(previous) && SpanFits(last) && previous.end == last.start
    requires !Mergeable(previous, last) && EndsAlike(p, previous) && lo < last.start
    requires Clip(last, lo, hi) != []
    ensures !Mergeable(p, Clip(last, lo, hi)[0])
  {
  }

  lemma {:induction false} CoalescedSnoc(spans: seq<Span>, last: Span)
    requires Coalesced(spans) && (spans != [] ==> !Mergeable(spans[|spans| - 1], last))
    ensures Coalesced(spans + [last])
  {
    assert (spans + [last])[..|spans|] == spans;
  }

  lemma {:induction false} SliceValid(e: Evidence, lo: nat, hi: nat)
    requires Valid(e) && lo <= hi <= |e.data|
    ensures Slice(e, lo, hi).Ok? && Valid(Slice(e, lo, hi).value)
  {
    SliceSpansTile(e.spans, |e.data|, lo, hi);
  }

  lemma {:induction false} SliceCanonical(e: Evidence, lo: nat, hi: nat)
    requires Canonical(e) && lo <= hi <= |e.data|
    ensures Canonical(Slice(e, lo, hi).value)
  {
    SliceSpansTile(e.spans, |e.data|, lo, hi);
    SliceSpansCoalesced(e.spans, |e.data|, lo, hi);
  }

  lemma {:induction false} SliceAt(e: Evidence, r: Evidence, lo: nat, hi: nat, p: nat)
    requires Valid(e) && Valid(r) && Slice(e, lo, hi) == Ok(r) && p < hi - lo
    ensures At(r, p) == At(e, lo + p)
  {
    SliceLocate(e.spans, |e.data|, lo, hi, lo + p);
  }

  /** Slicing succeeds exactly on ranges inside valid evidence and is then subsequence on views. */
  lemma {:induction false} SliceView(e: Evidence, lo: nat, hi: nat)
    requires Canonical(e)
    ensures Slice(e, lo, hi).Ok? <==> lo <= hi <= |e.data|
    ensures Slice(e, lo, hi).Ok? ==>
              Canonical(Slice(e, lo, hi).value) && View(Slice(e, lo, hi).value) == View(e)[lo..hi]
  {
    if lo <= hi <= |e.data| {
      var r := Slice(e, lo, hi).value;
      SliceCanonical(e, lo, hi);
      forall p: nat | p < hi - lo ensures View(r)[p] == View(e)[lo..hi][p] {
        SliceAt(e, r, lo, hi, p);
      }
    }
  }

  // ---------------------------------------------------------------- append

  function Shift(s: Span, base: nat): Span {
    Span(base + s.start, base + s.end, s.packet, s.packetStart)
  }

  /** Push a span, or extend the last one when it continues the same packet bytes. */
  function Join(spans: seq<Span>, next: Span): seq<Span> {
    if spans != [] && Mergeable(spans[|spans| - 1], next)
    then spans[..|spans| - 1] + [spans[|spans| - 1].(end := next.end)]
    else spans + [next]
  }

  function AppendSpans(spans: seq<Span>, base: nat, more: seq<Span>): seq<Span> {
    if more == [] then spans
    else Join(AppendSpans(spans, base, more[..|more| - 1]), Shift(more[|more| - 1], base))
  }

  function Append(e: Evidence, other: Evidence, limit: nat): Result<Evidence> {
    if !e.layoutValid || !other.layoutValid then Err(LAYOUT_ERROR)
    else if |e.data| + |other.data| > Min(limit, USIZE_MAX) then Err(Limit("evidence_bytes"))
    else Ok(Evidence(e.data + other.data, AppendSpans(e.spans, |e.data|, other.spans), true))
  }

  lemma {:induction false} JoinTile(spans: seq<Span>, m: nat, next: Span)
    requires Tiled(spans, m) && SpanFits(next) && next.start == m
    ensures Tiled(Join(spans, next), next.end)
  {
    if spans != [] && Mergeable(spans[|spans| - 1], next) {
      var init, last := spans[..|spans| - 1], spans[|spans| - 1];
      Snoc(init, last.start, last.(end := next.end));
    } else {
      Snoc(spans, m, next);
    }
  }

  lemma {:induction false} JoinLocate(spans: seq<Span>, next: Span, p: nat)
    requires spans != [] ==> spans[|spans| - 1].start < spans[|spans| - 1].end == next.start
    requires p < next.end
    ensures p < next.start ==> Locate(Join(spans, next), p) == Locate(spans, p)
    ensures next.start <= p ==>
              Locate(Join(spans, next), p) == Some(Origin(next.packet, next.packetStart + (p - next.start)))
  {
    if spans != [] && Mergeable(spans[|spans| - 1], next) {
      LocateSnoc(spans[..|spans| - 1], spans[|spans| - 1].(end := next.end), p);
    } else {
      LocateSnoc(spans, next, p);
    }
  }

  lemma {:induction false} JoinCoalesced(spans: seq<Span>, next: Span)
    requires Coalesced(spans)
    ensures Coalesced(Join(spans, next))
  {
    if spans != [] && Mergeable(spans[|spans| - 1], next) {
      CoalescedSnoc(spans[..|spans| - 1], spans[|spans| - 1].(end := next.end));
    } else {
      CoalescedSnoc(spans, next);
    }
  }

  lemma {:induction false} AppendSpansTile(spans: seq<Span>, base: nat, more: seq<Span>, n: nat)
    requires Tiled(spans, base) && Tiled(more, n)
    ensures Tiled(AppendSpans(spans, base, more), base + n)
  {
    if more != [] {
      var init, last := more[..|more| - 1], more[|more| - 1];
      AppendSpansTile(spans, base, init, last.start);
      JoinTile(AppendSpans(spans, base, init), base + last.start, Shift(last, base));
    }
  }

  lemma {:induction false} AppendLocate(spans: seq<Span>, base: nat, more: seq<Span>, n: nat, p: nat)
    requires Tiled(spans, base) && Tiled(more, n) && p < base + n
    ensures p < base ==> Locate(AppendSpans(spans, base, more), p) == Locate(spans, p)
    ensures base <= p ==> Locate(AppendSpans(spans, base, more), p) == Locate(more, p - base)
  {
    if more != [] {
      var init, last := more[..|more| - 1], more[|more| - 1];
      var front := AppendSpans(spans, base, init);
      AppendSpansTile(spans, base, init, last.start);
      if front != [] {
        LastEnds(front, base + last.start);
      }
      JoinLocate(front, Shift(last, base), p);
      if p < base + last.start {
        AppendLocate(spans, base, init, last.start, p);
      }
    }
  }

  lemma {:induction false} AppendSpansCoalesced(spans: seq<Span>, base: nat, more: seq<Span>)
    requires Coalesced(spans)
    ensures Coalesced(AppendSpans(spans, base, more))
  {
    if more != [] {
      AppendSpansCoalesced(spans, base, more[..|more| - 1]);
      JoinCoalesced(AppendSpans(spans, base, more[..|more| - 1]), Shift(more[|more| - 1], base));
    }
  }

  lemma {:induction false} AppendValid(e: Evidence, other: Evidence, limit: nat)
    requires Valid(e) && Valid(other) && Append(e, other, limit).Ok?
    ensures Valid(Append(e, other, limit).value)
  {
    AppendSpansTile(e.spans, |e.data|, other.spans, |other.data|);
  }

  lemma {:induction false} AppendCanonical(e: Evidence, other: Evidence, limit: nat)
    requires Canonical(e) && Canonical(other) && Append(e, other, limit).Ok?
    ensures Canonical(Append(e, other, limit).value)
  {
    AppendSpansTile(e.spans, |e.data|, other.spans, |other.data|);
    AppendSpansCoalesced(e.spans, |e.data|, other.spans);
  }

  lemma {:induction false} AppendAt(e: Evidence, other: Evidence, r: Evidence, limit: nat, p: nat)
    requires Valid(e) && Valid(other) && Valid(r) && Append(e, other, limit) == Ok(r) && p < |r.data|
    ensures At(r, p) == if p < |e.data| then At(e, p) else At(other, p - |e.data|)
  {
    AppendLocate(e.spans, |e.data|, other.spans, |other.data|, p);
  }

  /** Appending succeeds exactly within the limit and is then concatenation on views. */
  lemma {:induction false} AppendView(e: Evidence, other: Evidence, limit: nat)
    requires Canonical(e) && Canonical(other)
    ensures Append(e, other, limit).Ok? <==> |e.data| + |other.data| <= Min(limit, USIZE_MAX)
    ensures Append(e, other, limit).Ok? ==>
              Canonical(Append(e, other, limit).value)
              && View(Append(e, other, limit).value) == View(e) + View(other)
  {
    if Append(e, other, limit).Ok? {
      var r := Append(e, other, limit).value;
      AppendCanonical(e, other, limit);
      forall p: nat | p < |r.data| ensures View(r)[p] == (View(e) + View(other))[p] {
        AppendAt(e, other, r, limit, p);
      }
    }
  }

  // ---------------------------------------------------------------- canonical form

  lemma {:induction false} LocateIn(spans: seq<Span>, n: nat, k: nat, p: nat)
    requires Tiled(spans, n) && k < |spans| && spans[k].start <= p < spans[k].end
    ensures p < n
    ensures Locate(spans, p) == Some(Origin(spans[k].packet, spans[k].packetStart + (p - spans[k].start)))
  {
    if k < |spans| - 1 {
      LocateIn(spans[..|spans| - 1], spans[|spans| - 1].start, k, p);
    }
  }

  ghost predicate SameOrigins(s: seq<Span>, t: seq<Span>, n: nat) {
    forall p: nat | p < n :: Locate(s, p) == Locate(t, p)
  }

  lemma {:induction false} SameOriginsPrefix(s: seq<Span>, t: seq<Span>, n: nat)
    requires Tiled(s, n) && Tiled(t, n) && s != [] && t != [] && SameOrigins(s, t, n)
    requires s[|s| - 1].start == t[|t| - 1].start
    ensures SameOrigins(s[..|s| - 1], t[..|t| - 1], s[|s| - 1].start)
  {
    var a, b := s[..|s| - 1], t[..|t| - 1];
    forall p: nat | p < s[|s| - 1].start ensures Locate(a, p) == Locate(b, p) {
      assert Locate(s, p) == Locate(t, p);
    }
  }

  /** Span lists in coalesced form are determined by the origins they give. */
  lemma {:induction false} CoalescedUnique(s: seq<Span>, t: seq<Span>, n: nat)
    requires Tiled(s, n) && Tiled(t, n) && Coalesced(s) && Coalesced(t)
    requires SameOrigins(s, t, n)
    ensures s == t
  {
    if n > 0 {
      LastStartNotBefore(s, t, n);
      LastStartNotBefore(t, s, n);
      var init, final := s[|s| - 1].start, s[|s| - 1];
      assert Locate(s, init) == Locate(t, init);
      assert final == t[|t| - 1];
      SameOriginsPrefix(s, t, n);
      CoalescedUnique(s[..|s| - 1], t[..|t| - 1], init);
      assert s == s[..|s| - 1] + [final] && t == t[..|t| - 1] + [final];
    }
  }

  lemma {:induction false} LastStartNotBefore(s: seq<Span>, t: seq<Span>, n: nat)
    requires n > 0 && Tiled(s, n) && Tiled(t, n) && Coalesced(t)
    requires SameOrigins(s, t, n)
    ensures s != [] && t != []
    ensures t[|t| - 1].start <= s[|s| - 1].start
  {
    if t[|t| - 1].start > s[|s| - 1].start {
      InnerBoundaryMerges(s, t, n);
    }
  }

  /** If the last span of t begins inside the last span of s, t could be coalesced further. */
  lemma {:induction false} InnerBoundaryMerges(s: seq<Span>, t: seq<Span>, n: nat)
    requires n > 0 && Tiled(s, n) && Tiled(t, n) && s != [] && t != []
    requires SameOrigins(s, t, n)
    requires t[|t| - 1].start > s[|s| - 1].start
    ensures |t| >= 2 && Mergeable(t[|t| - 2], t[|t| - 1])
  {
    var q := t[|t| - 1].start;
    LastEnds(t[..|t| - 1], q);
    LocateIn(t, n, |t| - 2, q - 1);
    assert Locate(s, q - 1) == Locate(t, q - 1) && Locate(s, q) == Locate(t, q);
  }

  /** Two reachable values that show the same bytes from the same packet positions are identical. */
  lemma {:induction false} CanonicalUnique(e: Evidence, f: Evidence)
    requires Canonical(e) && Canonical(f) && View(e) == View(f)
    ensures e == f
  {
    var n := |View(e)|;
    forall p | 0 <= p < n ensures e.data[p] == f.data[p] && Locate(e.spans, p) == Locate(f.spans, p) {
      assert View(e)[p] == View(f)[p];
      Covered(e.spans, n, p);
      Covered(f.spans, n, p);
    }
    CoalescedUnique(e.spans, f.spans, n);
  }

  // ---------------------------------------------------------------- contributing packets

  /** The packets a span list names; the source keeps them sorted and without repetition. */
  function Packets(e: Evidence): set<PacketId> {
    set i | 0 <= i < |e.spans| :: e.spans[i].packet
  }

  /** The packets named by the spans that meet [lo, hi). */
  function WindowPackets(spans: seq<Span>, lo: nat, hi: nat): set<PacketId> {
    set i | 0 <= i < |spans| && lo < spans[i].end && spans[i].start < hi :: spans[i].packet
  }

  /** Exactly the packets of the window's bytes, no neighbour's. */
  lemma {:induction false} WindowPacketsExact(e: Evidence, lo: nat, hi: nat)
    requires Valid(e) && lo < hi <= |e.data|
    ensures WindowPackets(e.spans, lo, hi) == set p | lo <= p < hi :: At(e, p).origin.packet
  {
    var n := |e.data|;
    forall i | 0 <= i < |e.spans| && lo < e.spans[i].end && e.spans[i].start < hi
      ensures exists p :: lo <= p < hi && At(e, p).origin.packet == e.spans[i].packet
    {
      EachFits(e.spans, n, i);
      var p := Max(lo, e.spans[i].start);
      LocateIn(e.spans, n, i, p);
      assert At(e, p).origin.packet == e.spans[i].packet;
    }
    forall p | lo <= p < hi
      ensures At(e, p).origin.packet in WindowPackets(e.spans, lo, hi)
    {
      var i := SpanHolding(e.spans, n, p);
      LocateIn(e.spans, n, i, p);
    }
  }

  lemma {:induction false} EachFits(spans: seq<Span>, n: nat, k: nat)
    requires Tiled(spans, n) && k < |spans|
    ensures SpanFits(spans[k]) && spans[k].end <= n
  {
    if k < |spans| - 1 {
      EachFits(spans[..|spans| - 1], spans[|spans| - 1].start, k);
    }
  }

  lemma {:induction false} SpanHolding(spans: seq<Span>, n: nat, p: nat) returns (i: nat)
    requires Tiled(spans, n) && p < n
    ensures i < |spans| && spans[i].start <= p < spans[i].end
  {
    i := |spans| - 1;
    if p < spans[i].start {
      i := SpanHolding(spans[..|spans| - 1], spans[|spans| - 1].start, p);
    }
  }
}
