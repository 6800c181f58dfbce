/** Decoding a whole reconstructed stream: the scan for frames, and what is lost when it is interrupted. */
module Dnp3Decode {
  import opened Common
  import opened Boundaries
  import opened Provenance
  import opened Dnp3Model
  import opened Dnp3Shape
  import opened Dnp3Safety
  import opened Dnp3Transport
  import opened Dnp3Link
  import opened Dnp3Conservation
  import opened Dnp3Messages
  import opened Dnp3Mixed

  datatype Chunk = Chunk(offset: i64, bytes: Evidence)

  /** Reconstructed bytes are always coalesced; whether their layout is valid is checked here. */
  ghost predicate Reachable(chunks: seq<Chunk>) {
    forall i | 0 <= i < |chunks| :: Coalesced(chunks[i].bytes.spans)
  }

  /** Every frame of the output is a good frame of its chunk. */
  ghost predicate FramesSound(frames: seq<Frame>, chunks: seq<Chunk>, crc: Crc) {
    forall i | 0 <= i < |frames| :: SoundIn(frames[i], chunks, crc)
  }

  ghost predicate SoundIn(f: Frame, chunks: seq<Chunk>, crc: Crc) {
    f.chunk < |chunks| && FrameSound(f, chunks[f.chunk].bytes, crc)
  }

  // ---------------------------------------------------------------- dropping everything

  function AddressCode(a: Address): nat {
    0x1_0000 * a.source + a.destination
  }

  function ClassCode(c: Class): nat {
    match c case Request => 0 case Response => 1 case Unsolicited => 2 case Confirm => 3 case UnknownClass => 4
  }

  function KeyCode(k: AppKey): nat {
    5 * AddressCode(k.address) + ClassCode(k.class_)
  }

  method FirstAddress(m: map<Address, Assembly>) returns (a: Address)
    requires m != map[]
    ensures a in m && forall b | b in m :: AddressCode(a) <= AddressCode(b)
  {
    var codes := set b | b in m :: AddressCode(b);
    assert (forall b :: b !in m) ==> m == map[];
    var some :| some in m;
    assert AddressCode(some) in codes;
    var least := Least(codes);
    a :| a in m && AddressCode(a) == least;
    assert forall b | b in m :: AddressCode(b) in codes;
  }

  method FirstKey(m: map<AppKey, App>) returns (k: AppKey)
    requires m != map[]
    ensures k in m && forall j | j in m :: KeyCode(k) <= KeyCode(j)
  {
    var codes := set j | j in m :: KeyCode(j);
    assert (forall j :: j !in m) ==> m == map[];
    var some :| some in m;
    assert KeyCode(some) in codes;
    var least := Least(codes);
    k :| k in m && KeyCode(k) == least;
    assert forall j | j in m :: KeyCode(j) in codes;
  }

  lemma {:induction false} Smaller<K, V>(m: map<K, V>, k: K)
    requires k in m
    ensures |m - {k}| < |m|
  {
    assert (m - {k}).Keys == m.Keys - {k};
  }

  ghost predicate SameFrames(w: Work, v: Work) {
    v.out.frames == w.out.frames && v.out.fragments == w.out.fragments
  }

  /** Report every open transport assembly and put out every open message; then a new run begins. */
  method Flush(w: Work, code: IssueCode, at: int, limits: Limits) returns (r: Result<Work>)
    requires Good(w) && OpenBut(w, None) && AllOwned(w)
    ensures r.Ok? ==> Good(r.value) && r.value.transport == map[] && r.value.apps == map[] && SameFrames(w, r.value)
    ensures r.Ok? ==> r.value.runStart == |w.out.frames| && AllOwned(r.value)
    ensures w.transport == map[] && w.apps == map[] ==> r == Ok(w.(runStart := |w.out.frames|))
  {
    hide Good, OpenBut, AddressCode, KeyCode, Packets, AllOwned;
    var v := w;
    while v.transport != map[]
      invariant Good(v) && OpenBut(v, None) && SameFrames(w, v) && AllOwned(v)
      invariant w.transport == map[] ==> v == w
      decreases |v.transport|
    {
      var a := FirstAddress(v.transport);
      var packets := Packets(v.transport[a].bytes);
      ReportGood(v, code, packets, at, limits, None);
      ReportAllOwned(v, code, packets, at, limits);
      var next := Report(v, code, packets, at, limits);
      if next.Err? {
        return next;
      }
      Smaller(v.transport, a);
      WithoutTransport(next.value, a);
      TransportOwned(next.value, next.value.transport - {a});
      v := next.value.(transport := next.value.transport - {a});
    }
    while v.apps != map[]
      invariant Good(v) && OpenBut(v, None) && SameFrames(w, v) && v.transport == map[] && AllOwned(v)
      invariant w.transport == map[] && w.apps == map[] ==> v == w
      decreases |v.apps|
    {
      var k := FirstKey(v.apps);
      GoodApp(v, k);
      EmitGood(v, k, false, limits, None);
      EmitAllOwned(v, k, limits);
      var next := Emit(v, k, false, limits);
      if next.Err? {
        return next;
      }
      Smaller(v.apps, k);
      v := next.value;
    }
    Restart(v);
    SameOwned(v, v.(runStart := |v.out.frames|));
    r := Ok(v.(runStart := |v.out.frames|));
  }

  lemma {:induction false} EmitAllOwned(w: Work, key: AppKey, limits: Limits)
    requires AllOwned(w) && key in w.apps
    ensures var r := Emit(w, key, false, limits);
            r.Ok? ==> AllOwned(r.value)
  {
    hide Owned;
    EmitOwned(w, key, false, limits, |w.out.fragments|);
  }

  /** With nothing open, a new run may begin anywhere. */
  lemma {:induction false} Restart(w: Work)
    requires Good(w) && w.transport == map[] && w.apps == map[]
    ensures Good(w.(runStart := |w.out.frames|))
  {
    hide FragmentsOk, MessagesOk, FramesOk;
  }

  lemma {:induction false} NothingOpen(w: Work)
    requires w.apps == map[]
    ensures OpenBut(w, None)
  {
    hide EndsFinal;
  }

  // ---------------------------------------------------------------- a frame that does not parse

  /** The length a good header declares for a frame whose body is short or damaged. */
  function Declared(tail: seq<byte>, crc: Crc): Option<nat> {
    if |tail| >= 10 && tail[2] >= 5 && crc(tail[..8]) == Le16(tail, 8) then Some(Total(tail[2] - 5)) else None
  }

  function RejectFrame(w: Work, tail: Evidence, at: int, error: Error, declared: Option<nat>, limits: Limits): Result<Work> {
    if |w.out.rejected| >= limits.maxProtocolMessages then Err(Limit("dnp3_rejected_link_ranges"))
    else
      var captured := if declared.Some? then Min(declared.value, |tail.data|) else |tail.data|;
      var raw :- Slice(tail, 0, captured);
      Ok(w.(out := w.out.(rejected := w.out.rejected + [Rejected(at, declared, error.code == Truncated, raw)])))
  }

  lemma {:induction false} RejectGood(w: Work, tail: Evidence, at: int, error: Error, declared: Option<nat>, limits: Limits)
    requires Good(w)
    ensures var r := RejectFrame(w, tail, at, error, declared, limits);
            r.Ok? ==> Good(r.value) && r.value == w.(out := w.out.(rejected := r.value.out.rejected))
  {
    hide AssembliesOk, AppsOk, FragmentsOk, MessagesOk, FramesOk, Slice;
    var r := RejectFrame(w, tail, at, error, declared, limits);
    if r.Ok? {
      assert Grows(w.out, r.value.out);
      GoodGrows(w, r.value.out);
    }
  }

  /** Everything open is dropped, and the rejected range is reported and kept. */
  method RejectAt(w: Work, chunk: Chunk, p: nat, error: Error, rejected: nat, limits: Limits, crc: Crc)
    returns (r: Result<Work>, total: nat, declared: Option<nat>)
    requires Good(w) && OpenBut(w, None) && AllOwned(w) && p < |chunk.bytes.data|
    ensures declared == Declared(chunk.bytes.data[p..], crc)
    ensures r.Ok? ==> Good(r.value) && r.value.transport == map[] && r.value.apps == map[] && SameFrames(w, r.value)
    ensures r.Ok? ==> r.value.runStart == |w.out.frames| && AllOwned(r.value)
  {
    hide Good, OpenBut, Slice, Packets, AllOwned;
    var at := chunk.offset + p;
    var tail := chunk.bytes.data[p..];
    declared := Declared(tail, crc);
    var captured := if declared.Some? then Min(declared.value, |tail|) else |tail|;
    total := rejected + captured;
    var flushed := Flush(w, InterruptedByBadFrame, at, limits);
    if flushed.Err? {
      return flushed, total, declared;
    }
    NothingOpen(flushed.value);
    var head := Slice(chunk.bytes, p, Min(p + 10, |chunk.bytes.data|));
    var rest := Slice(chunk.bytes, p, |chunk.bytes.data|);
    if head.Err? || rest.Err? {
      return Err(LAYOUT_ERROR), total, declared;
    }
    var code := if error.code == Checksum then CrcFailure else InvalidFrame;
    ReportGood(flushed.value, code, Packets(head.value), at, limits, None);
    ReportAllOwned(flushed.value, code, Packets(head.value), at, limits);
    r := Report(flushed.value, code, Packets(head.value), at, limits);
    if r.Err? {
      return;
    }
    if total > limits.maxApplicationBytes {
      return Err(Limit("dnp3_rejected_link_bytes")), total, declared;
    }
    RejectGood(r.value, rest.value, at, error, declared, limits);
    ghost var told := r.value;
    r := RejectFrame(r.value, rest.value, at, error, declared, limits);
    if r.Err? {
      return;
    }
    SameOwned(told, r.value);
    NothingOpen(r.value);
    var lost := Slice(chunk.bytes, p, p + captured);
    if lost.Err? {
      return Err(LAYOUT_ERROR), total, declared;
    }
    var end := if declared.Some? then RejectedRange else BoundaryLost;
    ReportGood(r.value, end, Packets(lost.value), at, limits, None);
    ReportAllOwned(r.value, end, Packets(lost.value), at, limits);
    r := Report(r.value, end, Packets(lost.value), at, limits);
  }

  // ---------------------------------------------------------------- which frames there are

  /**
   Where the good frames of a chunk stand: an octet without the magic is skipped, a good frame is
   taken whole, a damaged frame is skipped as far as its good header declares, and behind a damaged
   header nothing more is trusted.
   */
  ghost function GoodStarts(b: seq<byte>, p: nat, crc: Crc): seq<nat>
    requires p <= |b|
    decreases |b| - p
  {
    if p == |b| then []
    else if !MagicAt(b, p) then GoodStarts(b, p + 1, crc)
    else if LinkGood(b[p..], crc) then [p] + GoodStarts(b, p + Total(DataLength(b[p..])), crc)
    else if Declared(b[p..], crc).Some? then
      DeclaredPositive(b[p..], crc);
      GoodStarts(b, p + Min(Declared(b[p..], crc).value, |b| - p), crc)
    else []
  }

  /** The chunk and position of each frame. */
  ghost function Places(frames: seq<Frame>): (r: seq<(nat, nat)>)
    ensures |r| == |frames| && forall i | 0 <= i < |frames| :: r[i] == (frames[i].chunk, frames[i].start)
  {
    seq(|frames|, i requires 0 <= i < |frames| => (frames[i].chunk, frames[i].start))
  }

  ghost function InChunk(c: nat, starts: seq<nat>): (r: seq<(nat, nat)>)
    ensures |r| == |starts| && forall i | 0 <= i < |starts| :: r[i] == (c, starts[i])
  {
    seq(|starts|, i requires 0 <= i < |starts| => (c, starts[i]))
  }

  /** The places of all good frames of the first k chunks. */
  ghost function GoodPlaces(chunks: seq<Chunk>, k: nat, crc: Crc): seq<(nat, nat)>
    requires k <= |chunks|
  {
    if k == 0 then [] else GoodPlaces(chunks, k - 1, crc) + InChunk(k - 1, GoodStarts(chunks[k - 1].bytes.data, 0, crc))
  }

  /** What has been taken and what is still ahead make up the chunk's good frames. */
  ghost predicate OnTrack(before: seq<Frame>, now: seq<Frame>, c: nat, b: seq<byte>, p: nat, crc: Crc) {
    p <= |b| && Places(now) + InChunk(c, GoodStarts(b, p, crc)) == Places(before) + InChunk(c, GoodStarts(b, 0, crc))
  }

  lemma {:induction false} TrackBegins(frames: seq<Frame>, c: nat, b: seq<byte>, crc: Crc)
    ensures OnTrack(frames, frames, c, b, 0, crc)
  {
  }

  lemma {:induction false} TrackSkips(before: seq<Frame>, now: seq<Frame>, c: nat, b: seq<byte>, p: nat, crc: Crc)
    requires OnTrack(before, now, c, b, p, crc) && p < |b| && !MagicAt(b, p)
    ensures OnTrack(before, now, c, b, p + 1, crc)
  {
    hide LinkGood, MagicAt, Declared, Total;
  }

  lemma {:induction false} TrackTakes(before: seq<Frame>, now: seq<Frame>, f: Frame, c: nat, b: seq<byte>, p: nat, crc: Crc)
    requires OnTrack(before, now, c, b, p, crc) && p < |b| && MagicAt(b, p) && LinkGood(b[p..], crc)
    requires f.chunk == c && f.start == p
    ensures |b[p..]| >= 10 && b[p..][2] >= 5 && p + Total(DataLength(b[p..])) <= |b|
    ensures OnTrack(before, now + [f], c, b, p + Total(DataLength(b[p..])), crc)
  {
    hide MagicAt, Declared, GoodStarts;
    TotalPositive(b[p..], crc);
    StartsTake(b, p, crc);
    var next := GoodStarts(b, p + Total(DataLength(b[p..])), crc);
    assert InChunk(c, [p] + next) == [(c, p)] + InChunk(c, next);
    assert Places(now + [f]) == Places(now) + [(c, p)];
    assert Places(now) + ([(c, p)] + InChunk(c, next)) == (Places(now) + [(c, p)]) + InChunk(c, next);
  }

  lemma {:induction false} StartsTake(b: seq<byte>, p: nat, crc: Crc)
    requires p < |b| && MagicAt(b, p) && LinkGood(b[p..], crc)
    ensures |b[p..]| >= 10 && b[p..][2] >= 5 && p + Total(DataLength(b[p..])) <= |b|
    ensures GoodStarts(b, p, crc) == [p] + GoodStarts(b, p + Total(DataLength(b[p..])), crc)
  {
    hide MagicAt, Declared;
    TotalPositive(b[p..], crc);
  }

  lemma {:induction false} TrackRejects(before: seq<Frame>, now: seq<Frame>, c: nat, b: seq<byte>, p: nat, crc: Crc)
    requires OnTrack(before, now, c, b, p, crc) && p < |b| && MagicAt(b, p) && !LinkGood(b[p..], crc)
    ensures Declared(b[p..], crc).Some? ==>
              Declared(b[p..], crc).value >= 10 && OnTrack(before, now, c, b, p + Min(Declared(b[p..], crc).value, |b| - p), crc)
    ensures Declared(b[p..], crc).None? ==> Places(now) == Places(before) + InChunk(c, GoodStarts(b, 0, crc))
  {
    hide MagicAt, LinkGood, Declared, Total;
    DeclaredPositive(b[p..], crc);
    if Declared(b[p..], crc).None? {
      assert GoodStarts(b, p, crc) == [];
      assert Places(now) + InChunk(c, []) == Places(now);
    }
  }

  lemma {:induction false} TrackEnds(before: seq<Frame>, now: seq<Frame>, c: nat, b: seq<byte>, crc: Crc)
    requires OnTrack(before, now, c, b, |b|, crc)
    ensures Places(now) == Places(before) + InChunk(c, GoodStarts(b, 0, crc))
  {
    assert GoodStarts(b, |b|, crc) == [];
    assert Places(now) + InChunk(c, []) == Places(now);
  }

  // ---------------------------------------------------------------- one chunk

  /** Where the scan stands: `skipped` octets behind the last frame of the current run. */
  ghost predicate Position(w: Work, chunk: nat, p: nat, skipped: nat) {
    skipped <= p &&
    (|w.out.frames| > w.runStart ==>
       var last := w.out.frames[|w.out.frames| - 1];
       last.chunk == chunk && last.End() + skipped == p)
  }

  lemma {:induction false} PositionFollows(w: Work, chunk: nat, p: nat, f: Frame)
    requires Position(w, chunk, p, 0) && f.chunk == chunk && f.start == p
    ensures Follows(w, f)
  {
  }

  lemma {:induction false} PositionNew(w: Work, chunk: nat, p: nat, skipped: nat)
    requires w.runStart >= |w.out.frames| && skipped <= p
    ensures Position(w, chunk, p, skipped)
  {
  }

  lemma {:induction false} PositionAfter(w: Work, f: Frame, p: nat)
    requires w.out.frames != [] && w.out.frames[|w.out.frames| - 1] == f && f.End() == p
    ensures Position(w, f.chunk, p, 0)
  {
  }

  lemma {:induction false} SoundSnoc(frames: seq<Frame>, f: Frame, chunks: seq<Chunk>, crc: Crc)
    requires FramesSound(frames, chunks, crc) && SoundIn(f, chunks, crc)
    ensures FramesSound(frames + [f], chunks, crc)
  {
    hide SoundIn;
  }

  /** A good frame after skipped octets starts over; directly behind the last one it continues the run. */
  method TakeFrame(w: Work, chunks: seq<Chunk>, c: nat, p: nat, skipped: nat, f: Frame, limits: Limits, rules: LinkRules, crc: Crc)
    returns (r: Result<Work>)
    requires Good(w) && OpenBut(w, None) && AllOwned(w) && Position(w, c, p, skipped) && FramesSound(w.out.frames, chunks, crc)
    requires c < |chunks| && f.chunk == c && f.start == p && SoundIn(f, chunks, crc) && Canonical(f.userData)
    ensures r.Ok? ==> r.value.out.frames == w.out.frames + [f]
    ensures skipped == 0 ==> r == AcceptFrame(w, f, chunks[c].offset + p, limits, rules)
    ensures r.Ok? ==> Good(r.value) && OpenBut(r.value, None) && AllOwned(r.value) && Position(r.value, c, f.End(), 0)
                      && FramesSound(r.value.out.frames, chunks, crc)
  {
    hide Good, OpenBut, AllOwned, Position, FramesSound, SoundIn, Canonical, Slice, Packets, AcceptFrame, Follows;
    var v := w;
    var chunk := chunks[c];
    if skipped > 0 {
      var flushed := Flush(v, InterruptedByResync, chunk.offset + p, limits);
      if flushed.Err? {
        return flushed;
      }
      NothingOpen(flushed.value);
      SkippedFits(w, c, p, skipped);
      var gone := Slice(chunk.bytes, p - skipped, p);
      if gone.Err? {
        return Err(LAYOUT_ERROR);
      }
      ReportGood(flushed.value, Resynchronized, Packets(gone.value), chunk.offset + (p - skipped), limits, None);
      ReportAllOwned(flushed.value, Resynchronized, Packets(gone.value), chunk.offset + (p - skipped), limits);
      var told := Report(flushed.value, Resynchronized, Packets(gone.value), chunk.offset + (p - skipped), limits);
      if told.Err? {
        return told;
      }
      v := told.value;
      PositionNew(v, c, p, 0);
    }
    PositionFollows(v, c, p, f);
    AcceptGood(v, f, chunk.offset + p, limits, rules);
    AcceptOwned(v, f, chunk.offset + p, limits, rules);
    r := AcceptFrame(v, f, chunk.offset + p, limits, rules);
    if r.Ok? {
      SoundSnoc(v.out.frames, f, chunks, crc);
      PositionAfter(r.value, f, f.End());
    }
  }

  lemma {:induction false} SkippedFits(w: Work, chunk: nat, p: nat, skipped: nat)
    requires Position(w, chunk, p, skipped)
    ensures skipped <= p
  {
  }

  predicate MagicAt(b: seq<byte>, p: nat) {
    p + 2 <= |b| && b[p] == 0x05 && b[p + 1] == 0x64
  }

  // ---------------------------------------------------------------- chunks of good frames only

  /** Where frame k begins, or the octets end. */
  function StartOf(fs: seq<Frame>, k: nat): nat
    requires k <= |fs|
  {
    if k == 0 then 0 else fs[k - 1].End()
  }

  /** The chunk consists of exactly these good frames. */
  ghost predicate BackToBack(fs: seq<Frame>, bytes: Evidence, c: nat, crc: Crc) {
    && (forall k | 0 <= k < |fs| :: fs[k].chunk == c && fs[k].start == StartOf(fs, k) && FrameSound(fs[k], bytes, crc))
    && StartOf(fs, |fs|) == |bytes.data|
  }

  /** A frame is determined by where it stands. */
  lemma {:induction false} FrameUnique(f: Frame, g: Frame, bytes: Evidence, crc: Crc)
    requires FrameSound(f, bytes, crc) && FrameSound(g, bytes, crc) && f.chunk == g.chunk && f.start == g.start
    ensures f == g
  {
    hide Canonical, LinkGood, View, UserView;
    CanonicalUnique(f.raw, g.raw);
    CanonicalUnique(f.userData, g.userData);
  }

  /** These frames and no others, all accepted. */
  ghost predicate Plain(before: Work, fs: seq<Frame>, chunk: Chunk, c: nat, limits: Limits, rules: LinkRules, crc: Crc) {
    BackToBack(fs, chunk.bytes, c, crc) && AcceptAll(before, fs, chunk.offset, limits, rules, |fs|).Ok?
  }

  /** The scan is in front of frame k and has accepted the frames before it. */
  ghost predicate Walking(before: Work, w: Work, fs: seq<Frame>, base: int, limits: Limits, rules: LinkRules, p: nat, skipped: nat, k: nat) {
    k <= |fs| && skipped == 0 && p == StartOf(fs, k) && AcceptAll(before, fs, base, limits, rules, k) == Ok(w)
  }

  lemma {:induction false} WalkBegins(before: Work, fs: seq<Frame>, base: int, limits: Limits, rules: LinkRules)
    ensures Walking(before, before, fs, base, limits, rules, 0, 0, 0)
  {
    hide AcceptFrame;
  }

  lemma {:induction false} SoundMagic(f: Frame, bytes: Evidence, crc: Crc)
    requires FrameSound(f, bytes, crc)
    ensures MagicAt(bytes.data, f.start) && LinkGood(bytes.data[f.start..], crc)
  {
    hide Canonical, View, UserView, BlockGood, Total;
    var b := bytes.data[f.start..];
    assert b[0] == bytes.data[f.start] && b[1] == bytes.data[f.start + 1];
  }

  lemma {:induction false} WalkMeets(before: Work, w: Work, fs: seq<Frame>, chunk: Chunk, c: nat, limits: Limits, rules: LinkRules, crc: Crc, p: nat, skipped: nat, k: nat)
    requires Plain(before, fs, chunk, c, limits, rules, crc) && p < |chunk.bytes.data|
    requires Walking(before, w, fs, chunk.offset, limits, rules, p, skipped, k)
    ensures skipped == 0 && k < |fs| && fs[k].chunk == c && fs[k].start == p && FrameSound(fs[k], chunk.bytes, crc)
    ensures MagicAt(chunk.bytes.data, p) && LinkGood(chunk.bytes.data[p..], crc)
  {
    hide AcceptAll, FrameSound, LinkGood, MagicAt;
    SoundMagic(fs[k], chunk.bytes, crc);
  }

  lemma {:induction false} WalkSteps(before: Work, w: Work, fs: seq<Frame>, chunk: Chunk, c: nat, limits: Limits, rules: LinkRules, crc: Crc, p: nat, skipped: nat, k: nat)
    requires Plain(before, fs, chunk, c, limits, rules, crc) && k < |fs| && fs[k].start == p
    requires Walking(before, w, fs, chunk.offset, limits, rules, p, skipped, k)
    ensures var r := AcceptFrame(w, fs[k], chunk.offset + p, limits, rules);
            r.Ok? && Walking(before, r.value, fs, chunk.offset, limits, rules, fs[k].End(), 0, k + 1)
  {
    hide AcceptFrame, AcceptAll, BackToBack;
    PrefixAccepted(before, fs, chunk.offset, limits, rules, k + 1);
    AcceptStep(before, fs, chunk.offset, limits, rules, k);
  }

  lemma {:induction false} AcceptStep(before: Work, fs: seq<Frame>, base: int, limits: Limits, rules: LinkRules, k: nat)
    requires k < |fs| && AcceptAll(before, fs, base, limits, rules, k).Ok?
    ensures AcceptAll(before, fs, base, limits, rules, k + 1)
            == AcceptFrame(AcceptAll(before, fs, base, limits, rules, k).value, fs[k], base + fs[k].start, limits, rules)
  {
    hide AcceptFrame;
  }

  lemma {:induction false} WalkEnds(before: Work, w: Work, fs: seq<Frame>, chunk: Chunk, c: nat, limits: Limits, rules: LinkRules, crc: Crc, skipped: nat, k: nat)
    requires Plain(before, fs, chunk, c, limits, rules, crc)
    requires Walking(before, w, fs, chunk.offset, limits, rules, |chunk.bytes.data|, skipped, k)
    ensures skipped == 0 && AcceptAll(before, fs, chunk.offset, limits, rules, |fs|) == Ok(w)
  {
    hide AcceptAll, FrameSound, LinkGood;
    if k < |fs| {
      SoundMagic(fs[k], chunk.bytes, crc);
    }
  }

  /**
   Decode one chunk. If it consists of good frames only, those frames are accepted one after another,
   and what they leave settled is the result.
   */
  method DecodeChunk(before: Work, chunks: seq<Chunk>, c: nat, rejectedBefore: nat, limits: Limits, rules: LinkRules, crc: Crc, ghost fs: seq<Frame>)
    returns (r: Result<Work>, rejected: nat)
    requires Good(before) && before.transport == map[] && before.apps == map[] && before.runStart == |before.out.frames|
    requires c < |chunks| && Canonical(chunks[c].bytes) && FramesSound(before.out.frames, chunks, crc) && AllOwned(before)
    ensures r.Ok? ==> AllOwned(r.value)
    ensures r.Ok? ==> Places(r.value.out.frames) == Places(before.out.frames) + InChunk(c, GoodStarts(chunks[c].bytes.data, 0, crc))
    ensures r.Ok? ==> Good(r.value) && r.value.transport == map[] && r.value.apps == map[]
                      && r.value.runStart == |r.value.out.frames| && FramesSound(r.value.out.frames, chunks, crc)
    ensures Plain(before, fs, chunks[c], c, limits, rules, crc) ==>
              var v := AcceptAll(before, fs, chunks[c].offset, limits, rules, |fs|).value;
              v.transport == map[] && v.apps == map[] ==> r == Ok(v.(runStart := |v.out.frames|))
  {
    hide Good, OpenBut, AllOwned, Position, FramesSound, Canonical, Slice, Packets, LinkGood, FrameSound, OnTrack, Places, InChunk, GoodStarts, MagicAt, Plain, Walking, AcceptAll, AcceptFrame;
    var chunk, w := chunks[c], before;
    var data := chunk.bytes.data;
    var p, skipped := 0, 0;
    rejected := rejectedBefore;
    NothingOpen(w);
    PositionNew(w, c, 0, 0);
    TrackBegins(w.out.frames, c, data, crc);
    ghost var lost := false;
    ghost var plain := Plain(before, fs, chunk, c, limits, rules, crc);
    ghost var k := 0;
    WalkBegins(before, fs, chunk.offset, limits, rules);
    while p < |data|
      invariant plain ==> Walking(before, w, fs, chunk.offset, limits, rules, p, skipped, k)
      invariant 0 <= skipped <= p <= |data| && OnTrack(before.out.frames, w.out.frames, c, data, p, crc)
      invariant Good(w) && OpenBut(w, None) && AllOwned(w) && Position(w, c, p, skipped) && FramesSound(w.out.frames, chunks, crc)
      decreases |data| - p
    {
      if plain {
        WalkMeets(before, w, fs, chunk, c, limits, rules, crc, p, skipped, k);
        WalkSteps(before, w, fs, chunk, c, limits, rules, crc, p, skipped, k);
      }
      if !MagicAt(data, p) {
        PositionSkip(w, c, p, skipped);
        TrackSkips(before.out.frames, w.out.frames, c, data, p, crc);
        skipped := skipped + 1;
        p := p + 1;
        continue;
      }
      var parsed := ParseLink(chunk.bytes, p, c, crc);
      if parsed.Err? {
        TrackRejects(before.out.frames, w.out.frames, c, data, p, crc);
        var bad, declared;
        bad, rejected, declared := RejectAt(w, chunk, p, parsed.error, rejected, limits, crc);
        if bad.Err? {
          return bad, rejected;
        }
        w := bad.value;
        NothingOpen(w);
        PositionNew(w, c, p, skipped);
        if declared.None? {
          lost := true;
          break;
        }
        p := p + Min(declared.value, |data| - p);
        skipped := 0;
        PositionNew(w, c, p, skipped);
        continue;
      }
      var (f, used) := parsed.value;
      FrameParts(f, chunk.bytes, crc);
      if plain {
        FrameUnique(f, fs[k], chunk.bytes, crc);
        k := k + 1;
      }
      TrackTakes(before.out.frames, w.out.frames, f, c, data, p, crc);
      var taken := TakeFrame(w, chunks, c, p, skipped, f, limits, rules, crc);
      if taken.Err? {
        return taken, rejected;
      }
      w := taken.value;
      p := p + used;
      skipped := 0;
    }
    if !lost {
      TrackEnds(before.out.frames, w.out.frames, c, data, crc);
    }
    if plain {
      WalkEnds(before, w, fs, chunk, c, limits, rules, crc, skipped, k);
    }
    if skipped > 0 {
      var trailing := Slice(chunk.bytes, p - skipped, p);
      if trailing.Err? {
        return Err(LAYOUT_ERROR), rejected;
      }
      ReportGood(w, TrailingBytes, Packets(trailing.value), chunk.offset + (p - skipped), limits, None);
      ReportAllOwned(w, TrailingBytes, Packets(trailing.value), chunk.offset + (p - skipped), limits);
      var told := Report(w, TrailingBytes, Packets(trailing.value), chunk.offset + (p - skipped), limits);
      if told.Err? {
        return told, rejected;
      }
      w := told.value;
    }
    r := Flush(w, IncompleteTransport, chunk.offset + |data|, limits);
  }

  lemma {:induction false} PositionSkip(w: Work, chunk: nat, p: nat, skipped: nat)
    requires Position(w, chunk, p, skipped)
    ensures Position(w, chunk, p + 1, skipped + 1)
  {
  }

  lemma {:induction false} DeclaredPositive(tail: seq<byte>, crc: Crc)
    ensures Declared(tail, crc).Some? ==> Declared(tail, crc).value >= 10
  {
  }

  lemma {:induction false} TotalPositive(b: seq<byte>, crc: Crc)
    requires LinkGood(b, crc)
    ensures |b| >= 10 && b[2] >= 5 && Total(DataLength(b)) >= 10
  {
  }

  lemma {:induction false} FrameParts(f: Frame, bytes: Evidence, crc: Crc)
    requires FrameSound(f, bytes, crc)
    ensures Canonical(f.userData)
  {
    hide Canonical, LinkGood, View, UserView;
  }

  // ---------------------------------------------------------------- the whole stream

  /** The only chunk consists of exactly these frames. */
  ghost predicate Consists(fs: seq<Frame>, chunks: seq<Chunk>, limits: Limits, crc: Crc) {
    && |chunks| == 1 && limits.Valid() && Valid(chunks[0].bytes) && chunks[0].offset + |chunks[0].bytes.data| <= I64_MAX
    && BackToBack(fs, chunks[0].bytes, 0, crc)
  }

  /** The only chunk consists of the frames of these messages, within every budget. */
  ghost predicate Transmitted(ss: seq<Sending>, chunks: seq<Chunk>, limits: Limits, rules: LinkRules, crc: Crc) {
    Consists(OnWire(ss, |ss|), chunks, limits, crc) && AllSound(ss, limits, rules) && Suffices(ss, limits)
  }

  /** The only chunk consists of the frames of this traffic. */
  ghost predicate Overheard(m: Mix, chunks: seq<Chunk>, limits: Limits, rules: LinkRules, crc: Crc) {
    Consists(m.frames, chunks, limits, crc) && Traffic(m, limits, rules)
  }

  /** The frames of the only chunk are accepted and leave nothing open. */
  ghost predicate Settles(fs: seq<Frame>, chunks: seq<Chunk>, limits: Limits, rules: LinkRules, crc: Crc) {
    && Consists(fs, chunks, limits, crc) && Plain(FRESH, fs, chunks[0], 0, limits, rules, crc)
    && AcceptAll(FRESH, fs, chunks[0].offset, limits, rules, |fs|).Ok?
    && var v := AcceptAll(FRESH, fs, chunks[0].offset, limits, rules, |fs|).value;
       v.transport == map[] && v.apps == map[]
  }

  function Outcome(fs: seq<Frame>, chunks: seq<Chunk>, limits: Limits, rules: LinkRules): Output {
    if |chunks| == 1 && AcceptAll(FRESH, fs, chunks[0].offset, limits, rules, |fs|).Ok?
    then AcceptAll(FRESH, fs, chunks[0].offset, limits, rules, |fs|).value.out else FRESH.out
  }

  lemma {:induction false} Transmits(ss: seq<Sending>, chunks: seq<Chunk>, limits: Limits, rules: LinkRules, crc: Crc)
    requires Transmitted(ss, chunks, limits, rules, crc)
    ensures var fs := OnWire(ss, |ss|);
            Settles(fs, chunks, limits, rules, crc) && AllTold(Outcome(fs, chunks, limits, rules), ss, |ss|)
  {
    hide BackToBack, AllSound, Suffices, AcceptAll, OnWire, AllTold, Tiled;
    AllDelivered(ss, chunks[0].offset, limits, rules, |ss|);
  }

  lemma {:induction false} Overhears(m: Mix, chunks: seq<Chunk>, limits: Limits, rules: LinkRules, crc: Crc)
    requires Overheard(m, chunks, limits, rules, crc)
    ensures Settles(m.frames, chunks, limits, rules, crc) && TrafficTold(Outcome(m.frames, chunks, limits, rules), m)
  {
    hide BackToBack, Traffic, AcceptAll, TrafficTold, Tiled;
    TrafficDelivers(m, chunks[0].offset, limits, rules);
  }

  /** Frame k begins with the magic where the frames before it end; behind the last one the octets end. */
  lemma {:induction false} BackAt(fs: seq<Frame>, bytes: Evidence, c: nat, crc: Crc, k: nat)
    requires BackToBack(fs, bytes, c, crc) && k <= |fs|
    ensures k == |fs| ==> StartOf(fs, k) == |bytes.data|
    ensures k < |fs| ==>
              && fs[k].chunk == c && fs[k].start == StartOf(fs, k) && FrameSound(fs[k], bytes, crc)
              && MagicAt(bytes.data, StartOf(fs, k))
  {
    hide FrameSound, LinkGood, StartOf;
    if k < |fs| {
      SoundMagic(fs[k], bytes, crc);
    }
  }

  lemma {:induction false} SameStart(fs: seq<Frame>, gs: seq<Frame>, k: nat)
    requires k <= |fs| && k <= |gs| && fs[..k] == gs[..k]
    ensures StartOf(fs, k) == StartOf(gs, k)
  {
    if k > 0 {
      assert fs[..k][k - 1] == gs[..k][k - 1];
    }
  }

  /** A chunk consists of one sequence of frames only. */
  lemma {:induction false} ConsistsOnce(fs: seq<Frame>, gs: seq<Frame>, bytes: Evidence, crc: Crc, k: nat)
    requires BackToBack(fs, bytes, 0, crc) && BackToBack(gs, bytes, 0, crc) && k <= |fs|
    ensures k <= |gs| && fs[..k] == gs[..k] && (k == |fs| ==> fs == gs)
  {
    hide FrameSound, BackToBack, StartOf;
    if k > 0 {
      ConsistsOnce(fs, gs, bytes, crc, k - 1);
      BackAt(fs, bytes, 0, crc, k - 1);
      BackAt(gs, bytes, 0, crc, k - 1);
      SameStart(fs, gs, k - 1);
      FrameUnique(fs[k - 1], gs[k - 1], bytes, crc);
      assert fs[..k] == fs[..k - 1] + [fs[k - 1]] && gs[..k] == gs[..k - 1] + [gs[k - 1]];
    }
    BackAt(fs, bytes, 0, crc, k);
    BackAt(gs, bytes, 0, crc, k);
    SameStart(fs, gs, k);
  }

  /** The frames to follow the chunk with, if it consists of what was sent or overheard. */
  ghost function FramesOf(ss: seq<Sending>, m: Mix, chunks: seq<Chunk>, limits: Limits, rules: LinkRules, crc: Crc): (fs: seq<Frame>)
    ensures Transmitted(ss, chunks, limits, rules, crc) ==>
              Settles(fs, chunks, limits, rules, crc) && AllTold(Outcome(fs, chunks, limits, rules), ss, |ss|)
    ensures Overheard(m, chunks, limits, rules, crc) ==>
              Settles(fs, chunks, limits, rules, crc) && TrafficTold(Outcome(fs, chunks, limits, rules), m)
  {
    hide AllTold, TrafficTold, Settles, Outcome, Transmitted, Overheard, OnWire;
    if Overheard(m, chunks, limits, rules, crc) then
      Overhears(m, chunks, limits, rules, crc);
      if Transmitted(ss, chunks, limits, rules, crc) then
        Transmits(ss, chunks, limits, rules, crc);
        BothConsist(ss, m, chunks, limits, rules, crc);
        m.frames
      else m.frames
    else if Transmitted(ss, chunks, limits, rules, crc) then
      Transmits(ss, chunks, limits, rules, crc);
      OnWire(ss, |ss|)
    else []
  }

  lemma {:induction false} BothConsist(ss: seq<Sending>, m: Mix, chunks: seq<Chunk>, limits: Limits, rules: LinkRules, crc: Crc)
    requires Transmitted(ss, chunks, limits, rules, crc) && Overheard(m, chunks, limits, rules, crc)
    ensures OnWire(ss, |ss|) == m.frames
  {
    hide BackToBack, AllSound, Suffices, Traffic, OnWire, Tiled;
    ConsistsOnce(OnWire(ss, |ss|), m.frames, chunks[0].bytes, crc, |OnWire(ss, |ss|)|);
  }

  lemma {:induction false} NothingYet(chunks: seq<Chunk>, crc: Crc)
    ensures Good(FRESH) && FramesSound([], chunks, crc) && Places([]) == []
  {
  }

  /**
   Decode every chunk of a stream. The frames are exactly the good frames of the chunks, in order; each fragment is a
   whole chain of segments from FIR to FIN in one unbroken run of frames; each message is an ordered
   chain of such fragments in one run, with one address pair and direction, complete exactly when its
   last fragment has FIN. No fragment is in two messages and each one with FIR is in one. Whatever
   messages `ss` a single chunk carries, frame behind frame, exactly those come out; and whatever traffic
   `m` of many address pairs it carries, interleaved and with repeated segments, each pair's messages do.
   */
  method Decode(chunks: seq<Chunk>, limits: Limits, rules: LinkRules, crc: Crc, ghost ss: seq<Sending>, ghost m: Mix)
    returns (r: Result<Output>)
    requires Reachable(chunks)
    ensures Transmitted(ss, chunks, limits, rules, crc) ==> r.Ok? && AllTold(r.value, ss, |ss|)
    ensures Overheard(m, chunks, limits, rules, crc) ==> r.Ok? && TrafficTold(r.value, m)
    ensures r.Ok? ==> FramesSound(r.value.frames, chunks, crc) && FragmentsOk(r.value) && MessagesOk(r.value)
    ensures r.Ok? ==> EachFragmentOnce(r.value) && Places(r.value.frames) == GoodPlaces(chunks, |chunks|, crc)
  {
    hide Good, FramesSound, FragmentsOk, MessagesOk, Tiled, Coalesced, AllOwned, EachFragmentOnce, Places, InChunk, GoodStarts,
         Transmitted, Overheard, Plain, AllTold, TrafficTold, OnWire, AcceptAll, BackToBack;
    ghost var fs := FramesOf(ss, m, chunks, limits, rules, crc);
    ghost var plain := Settles(fs, chunks, limits, rules, crc);
    if !limits.Valid() {
      return Err(LIMITS_ERROR);
    }
    var w := FRESH;
    var rejected := 0;
    NothingYet(chunks, crc);
    StartOwned();
    for c := 0 to |chunks|
      invariant Good(w) && w.transport == map[] && w.apps == map[] && w.runStart == |w.out.frames|
      invariant FramesSound(w.out.frames, chunks, crc) && AllOwned(w) && Places(w.out.frames) == GoodPlaces(chunks, c, crc)
      invariant plain && c == 0 ==> w == FRESH
      invariant plain && c == 1 ==> w.out == Outcome(fs, chunks, limits, rules)
    {
      if chunks[c].offset + |chunks[c].bytes.data| > I64_MAX {
        return Err(Limit("stream_offset"));
      }
      if !Valid(chunks[c].bytes) {
        return Err(LAYOUT_ERROR);
      }
      var next;
      next, rejected := DecodeChunk(w, chunks, c, rejected, limits, rules, crc, fs);
      if next.Err? {
        return Err(next.error);
      }
      w := next.value;
    }
    GoodOutput(w);
    NothingOwnedOpen(w);
    r := Ok(w.out);
  }

  lemma {:induction false} GoodOutput(w: Work)
    requires Good(w)
    ensures FragmentsOk(w.out) && MessagesOk(w.out)
  {
  }
}
