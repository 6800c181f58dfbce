/** The evidence buffer as the program keeps it: fields extended in place, scanned by cursors. */
module EvidenceBuffer {
  import opened Common
  import opened Provenance

  lemma {:induction false} TiledAt(spans: seq<Span>, n: nat, i: nat)
    requires Tiled(spans, n) && i < |spans|
    ensures SpanFits(spans[i]) && Tiled(spans[..i], spans[i].start) && spans[i].end <= n
    ensures i + 1 < |spans| ==> spans[i + 1].start == spans[i].end
    ensures i + 1 == |spans| ==> spans[i].end == n
  {
    if i < |spans| - 1 {
      var init := spans[..|spans| - 1];
      TiledAt(init, spans[|spans| - 1].start, i);
      assert init[..i] == spans[..i];
    }
  }

  /** The clipped forms of the first k spans. */
  function ClippedTo(spans: seq<Span>, k: nat, lo: nat, hi: nat): seq<Span>
    requires k <= |spans|
  {
    if k == 0 then [] else ClippedTo(spans, k - 1, lo, hi) + Clip(spans[k - 1], lo, hi)
  }

  lemma {:induction false} ClippedStep(spans: seq<Span>, k: nat, lo: nat, hi: nat)
    requires k <= |spans|
    ensures k == 0 ==> ClippedTo(spans, k, lo, hi) == []
    ensures k > 0 ==>
              var s := spans[k - 1];
              var a, b := Max(s.start, lo), Min(s.end, hi);
              ClippedTo(spans, k, lo, hi) ==
                if a < b then
                  ClippedTo(spans, k - 1, lo, hi) + [Span(a - lo, b - lo, s.packet, s.packetStart + (a - s.start))]
                else ClippedTo(spans, k - 1, lo, hi)
  {
    if k > 0 && Clip(spans[k - 1], lo, hi) == [] {
      assert ClippedTo(spans, k - 1, lo, hi) + [] == ClippedTo(spans, k - 1, lo, hi);
    }
  }

  lemma {:induction false} ClippedPrefix(spans: seq<Span>, k: nat, lo: nat, hi: nat)
    requires k <= |spans|
    ensures ClippedTo(spans, k, lo, hi) == SliceSpans(spans[..k], lo, hi)
  {
    if k > 0 {
      ClippedPrefix(spans, k - 1, lo, hi);
      assert spans[..k][..k - 1] == spans[..k - 1];
    }
  }

  /** Spans at or beyond the end of a window add nothing to a slice. */
  lemma {:induction false} ClippedStops(spans: seq<Span>, n: nat, i: nat, k: nat, lo: nat, hi: nat)
    requires Tiled(spans, n) && i <= k <= |spans|
    requires i < |spans| ==> hi <= spans[i].start
    ensures ClippedTo(spans, k, lo, hi) == ClippedTo(spans, i, lo, hi)
  {
    if i < k {
      ClippedStops(spans, n, i, k - 1, lo, hi);
      StartsAscend(spans, n, i, k - 1);
    }
  }

  lemma {:induction false} StartsAscend(spans: seq<Span>, n: nat, i: nat, j: nat)
    requires Tiled(spans, n) && i <= j < |spans|
    ensures spans[i].start <= spans[j].start
  {
    if i < j {
      StartsAscend(spans, n, i, j - 1);
      TiledAt(spans, n, j - 1);
    }
  }

  /** Skip the spans before the window, then clip until the first span beyond it. */
  method ClipSpans(spans: seq<Span>, n: nat, lo: nat, hi: nat) returns (out: seq<Span>)
    requires Tiled(spans, n)
    ensures out == SliceSpans(spans, lo, hi)
  {
    hide Tiled, SliceSpans, ClippedTo, Clip;
    ClippedStep(spans, 0, lo, hi);
    var i := 0;
    while i < |spans| && spans[i].end <= lo
      invariant i <= |spans|
      invariant ClippedTo(spans, i, lo, hi) == []
    {
      ClippedStep(spans, i + 1, lo, hi);
      i := i + 1;
    }
    out := [];
    while i < |spans| && spans[i].start < hi
      invariant i <= |spans|
      invariant out == ClippedTo(spans, i, lo, hi)
    {
      var s := spans[i];
      var a := Max(s.start, lo);
      var b := Min(s.end, hi);
      ClippedStep(spans, i + 1, lo, hi);
      if a < b {
        out := out + [Span(a - lo, b - lo, s.packet, s.packetStart + (a - s.start))];
      }
      i := i + 1;
    }
    ClippedStops(spans, n, i, |spans|, lo, hi);
    ClippedPrefix(spans, |spans|, lo, hi);
    assert spans[..|spans|] == spans;
  }

  /** The result of appending the first k of the new spans. */
  function ExtendedTo(spans: seq<Span>, base: nat, more: seq<Span>, k: nat): seq<Span>
    requires k <= |more|
  {
    if k == 0 then spans else Join(ExtendedTo(spans, base, more, k - 1), Shift(more[k - 1], base))
  }

  lemma {:induction false} ExtendedPrefix(spans: seq<Span>, base: nat, more: seq<Span>, k: nat)
    requires k <= |more|
    ensures ExtendedTo(spans, base, more, k) == AppendSpans(spans, base, more[..k])
  {
    if k > 0 {
      ExtendedPrefix(spans, base, more, k - 1);
      assert more[..k][..k - 1] == more[..k - 1];
    }
  }

  /** Push each span, or widen the last one when the next continues the same packet bytes. */
  method ExtendSpans(spans: seq<Span>, base: nat, more: seq<Span>) returns (out: seq<Span>)
    ensures out == AppendSpans(spans, base, more)
  {
    hide AppendSpans;
    out := spans;
    var i := 0;
    while i < |more|
      invariant i <= |more|
      invariant out == ExtendedTo(spans, base, more, i)
    {
      var s := more[i];
      var next := Span(base + s.start, base + s.end, s.packet, s.packetStart);
      if out != [] && Mergeable(out[|out| - 1], next) {
        out := out[..|out| - 1] + [out[|out| - 1].(end := next.end)];
      } else {
        out := out + [next];
      }
      i := i + 1;
    }
    ExtendedPrefix(spans, base, more, |more|);
    assert more[..|more|] == more;
  }

  class EvidenceBytes {
    var data: seq<byte>
    var spans: seq<Span>
    var layoutValid: bool

    ghost function Value(): Evidence
      reads this
    {
      Evidence(data, spans, layoutValid)
    }

    /** The cached flag is only ever set over a sound layout. */
    ghost predicate Sound()
      reads this
    {
      layoutValid ==> Tiled(spans, |data|)
    }

    constructor FromPacket(data: seq<byte>, packet: PacketId, packetStart: nat)
      ensures Sound() && Value() == Provenance.FromPacket(data, packet, packetStart)
    {
      this.data := data;
      this.spans := if data == [] then [] else [Span(0, |data|, packet, packetStart)];
      this.layoutValid := data == [] || packetStart + |data| <= USIZE_MAX;
      new;
      FromPacketView(data, packet, packetStart);
    }

    method Slice(lo: nat, hi: nat) returns (r: Result<Evidence>)
      requires Sound()
      ensures r == Provenance.Slice(Value(), lo, hi)
    {
      if !layoutValid {
        return Err(LAYOUT_ERROR);
      }
      if lo > hi || hi > |data| {
        return Err(Error(Invariant, "evidence_slice"));
      }
      var out := ClipSpans(spans, |data|, lo, hi);
      r := Ok(Evidence(data[lo..hi], out, true));
    }

    method Append(other: EvidenceBytes, limit: nat) returns (r: Result<()>)
      requires other != this && Sound() && other.Sound()
      modifies this
      ensures Sound()
      ensures var spec := Provenance.Append(old(Value()), other.Value(), limit);
              if spec.Ok? then r == Ok(()) && Value() == spec.value
              else r == Err(spec.error) && Value() == old(Value())
    {
      if !layoutValid || !other.layoutValid {
        return Err(LAYOUT_ERROR);
      }
      var base := |data|;
      if base + |other.data| > Min(limit, USIZE_MAX) {
        return Err(Limit("evidence_bytes"));
      }
      data := data + other.data;
      spans := ExtendSpans(spans, base, other.spans);
      AppendSpansTile(old(spans), base, other.spans, |other.data|);
      r := Ok(());
    }

    method Validate() returns (ok: bool)
      ensures ok <==> Provenance.Valid(Value())
    {
      if !layoutValid {
        return false;
      }
      var cursor := 0;
      var i := 0;
      while i < |spans|
        invariant i <= |spans|
        invariant Tiled(spans[..i], cursor)
      {
        var span := spans[i];
        if span.start != cursor || span.end <= span.start || span.end > |data|
           || span.packetStart + (span.end - span.start) > USIZE_MAX
        {
          if Tiled(spans, |data|) {
            TiledAt(spans, |data|, i);
          }
          return false;
        }
        assert spans[..i + 1][..i] == spans[..i];
        cursor := span.end;
        i := i + 1;
      }
      assert spans[..i] == spans;
      ok := cursor == |data|;
    }
  }
}
