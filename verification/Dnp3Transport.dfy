/** Transport segments: how one frame changes the open assemblies, and that each step stays meaningful. */
module Dnp3Transport {
  import opened Common
  import opened Provenance
  import opened Dnp3Model
  import opened Dnp3Shape
  import opened Dnp3Safety

  /** The frame just pushed, with a transport segment in it. */
  ghost predicate Current(frames: seq<Frame>, runStart: nat, f: Frame, id: nat) {
    && id == |frames| - 1 && id >= runStart && frames[id] == f
    && Canonical(f.userData) && f.userData.data != []
  }

  lemma {:induction false} CurrentSegment(frames: seq<Frame>, runStart: nat, f: Frame, id: nat)
    requires Current(frames, runStart, f, id)
    ensures HasSegment(frames, id) && Header(frames, id) == f.userData.data[0] && Belongs(frames, id, f.address, f.Forward(), runStart, |frames|)
  {
    hide Canonical;
  }

  lemma {:induction false} TailView(e: Evidence)
    requires Canonical(e) && e.data != []
    ensures Slice(e, 1, |e.data|).Ok? && Canonical(Slice(e, 1, |e.data|).value)
    ensures View(Slice(e, 1, |e.data|).value) == View(e)[1..]
  {
    hide Slice, View, Tiled, Coalesced;
    SliceView(e, 1, |e.data|);
    ViewSize(e);
    assert View(e)[1..|e.data|] == View(e)[1..];
  }

  lemma {:induction false} CarriedStep(frames: seq<Frame>, ids: seq<nat>, k: nat)
    requires AllSegments(frames, ids) && 0 < k <= |ids| && HasSegment(frames, ids[k - 1])
    ensures Carried(frames, ids, 0) == []
    ensures Carried(frames, ids, k) == Carried(frames, ids, k - 1) + View(frames[ids[k - 1]].userData)[1..]
  {
    hide View, Tiled, Coalesced;
  }

  lemma {:induction false} OpenShape(frames: seq<Frame>, runStart: nat, f: Frame, id: nat, limits: Limits)
    requires Current(frames, runStart, f, id) && First(f.userData.data[0])
    ensures var r := OpenAssembly(f.userData, id, f.Forward(), limits);
            r.Ok? ==> AssemblyShape(frames, runStart, f.address, r.value, Last(f.userData.data[0])) && r.value.direction == f.Forward()
  {
    hide Canonical, View, Slice, Carried;
    var r := OpenAssembly(f.userData, id, f.Forward(), limits);
    if r.Ok? {
      var ids := [id];
      CurrentSegment(frames, runStart, f, id);
      TailView(f.userData);
      CarriedStep(frames, ids, 1);
      assert Linked(frames, ids, 0);
      assert frames[ids[0]].userData.data == f.userData.data;
      assert Repeats(frames, id, ids);
      assert AllSegments(frames, ids);
      CanonicalValid(f.userData);
      assert [] + View(f.userData)[1..] == View(f.userData)[1..];
    }
  }

  lemma {:induction false} ChainedSnoc(frames: seq<Frame>, ids: seq<nat>, id: nat)
    requires Chained(frames, ids) && HasSegment(frames, id) && !First(Header(frames, id))
    requires HasSegment(frames, ids[|ids| - 1]) && !Last(Header(frames, ids[|ids| - 1]))
    requires Sequence(Header(frames, id)) == NextSegment(Sequence(Header(frames, ids[|ids| - 1])))
    ensures Chained(frames, ids + [id])
  {
    hide Canonical, Last, First;
    var more := ids + [id];
    forall j: nat | j < |more| ensures Linked(frames, more, j) {
      if j < |ids| {
        assert Linked(frames, ids, j);
      }
    }
  }

  lemma {:induction false} CarriedAlike(frames: seq<Frame>, ids: seq<nat>, id: nat, k: nat)
    requires AllSegments(frames, ids) && HasSegment(frames, id) && k <= |ids|
    ensures AllSegments(frames, ids + [id]) && Carried(frames, ids + [id], k) == Carried(frames, ids, k)
  {
    hide Canonical, View;
    if k > 0 {
      CarriedAlike(frames, ids, id, k - 1);
      assert HasSegment(frames, ids[k - 1]);
    }
  }

  lemma {:induction false} RepeatSnoc(frames: seq<Frame>, ids: seq<nat>, accepted: seq<nat>, id: nat)
    requires AllRepeat(frames, ids, accepted) && id < |frames|
    ensures AllRepeat(frames, ids + [id], accepted + [id])
    ensures Repeats(frames, id, accepted) ==> AllRepeat(frames, ids + [id], accepted)
  {
    var more, longer := ids + [id], accepted + [id];
    forall j | 0 <= j < |more| ensures Repeats(frames, more[j], longer)
    {
      if j < |ids| {
        assert Repeats(frames, ids[j], accepted);
        var m :| 0 <= m < |accepted| && accepted[m] < |frames| && frames[accepted[m]].userData.data == frames[ids[j]].userData.data;
        assert longer[m] == accepted[m];
      } else {
        assert longer[|accepted|] == id;
      }
    }
  }

  lemma {:induction false} RememberedSnoc(frames: seq<Frame>, accepted: seq<nat>, seen: map<nat, seq<byte>>, id: nat, s: nat)
    requires Remembered(frames, accepted, seen) && id < |frames|
    ensures Remembered(frames, accepted + [id], seen[s := frames[id].userData.data])
  {
    var longer, more := accepted + [id], seen[s := frames[id].userData.data];
    forall t | t in more
      ensures exists m | 0 <= m < |longer| :: longer[m] < |frames| && frames[longer[m]].userData.data == more[t]
    {
      if t == s {
        assert longer[|accepted|] == id;
      } else {
        var m :| 0 <= m < |accepted| && accepted[m] < |frames| && frames[accepted[m]].userData.data == seen[t];
        assert longer[m] == accepted[m];
      }
    }
  }

  lemma {:induction false} BelongSnoc(frames: seq<Frame>, ids: seq<nat>, a: Address, d: bool, lo: nat, hi: nat, id: nat)
    requires AllBelong(frames, ids, a, d, lo, hi) && Belongs(frames, id, a, d, lo, hi)
    ensures AllBelong(frames, ids + [id], a, d, lo, hi)
  {
    hide Belongs;
  }

  lemma {:induction false} BuiltSnoc(frames: seq<Frame>, ids: seq<nat>, accepted: seq<nat>, bytes: Evidence, id: nat, more: Evidence)
    requires Built(frames, ids, accepted, bytes) && HasSegment(frames, id) && !First(Header(frames, id))
    requires accepted != [] && HasSegment(frames, accepted[|accepted| - 1]) && !Last(Header(frames, accepted[|accepted| - 1]))
    requires Sequence(Header(frames, id)) == NextSegment(Sequence(Header(frames, accepted[|accepted| - 1])))
    requires Canonical(more) && Valid(bytes) && View(more) == View(bytes) + View(frames[id].userData)[1..]
    ensures Built(frames, ids + [id], accepted + [id], more)
  {
    hide Canonical, View, Carried, Chained, AllRepeat, AllSegments, Linked, First, Last;
    ChainedSnoc(frames, accepted, id);
    CarriedAlike(frames, accepted, id, |accepted|);
    CarriedStep(frames, accepted + [id], |accepted| + 1);
    RepeatSnoc(frames, ids, accepted, id);
    assert (accepted + [id])[|accepted|] == id;
    forall m | 0 <= m < |accepted + [id]| ensures (accepted + [id])[m] in ids + [id] {
      if m < |accepted| {
        assert accepted[m] in ids;
      }
    }
  }

  lemma {:induction false} ExtendShape(frames: seq<Frame>, runStart: nat, f: Frame, id: nat, t: Assembly, limits: Limits)
    requires AssemblyOk(frames, runStart, f.address, t) && Current(frames, runStart, f, id) && t.direction == f.Forward()
    requires !First(f.userData.data[0]) && Sequence(f.userData.data[0]) == NextSegment(t.lastSequence)
    ensures var r := ExtendAssembly(t, f.userData, id, limits);
            r.Ok? ==> AssemblyShape(frames, runStart, f.address, r.value, Last(f.userData.data[0])) && r.value.direction == f.Forward()
  {
    hide Built, AllBelong, Remembered, Canonical, View, Slice, Append, First, Last;
    var r := ExtendAssembly(t, f.userData, id, limits);
    if r.Ok? {
      BuiltNonempty(frames, t.frames, t.accepted, t.bytes);
      BuiltCanonical(frames, t.frames, t.accepted, t.bytes);
      CurrentSegment(frames, runStart, f, id);
      TailView(f.userData);
      CanonicalValid(t.bytes);
      CanonicalValid(f.userData);
      AppendView(t.bytes, Slice(f.userData, 1, |f.userData.data|).value, limits.maxApplicationBytes);
      BuiltSnoc(frames, t.frames, t.accepted, t.bytes, id, r.value.bytes);
      RememberedSnoc(frames, t.accepted, t.seen, id, Sequence(f.userData.data[0]));
      BelongSnoc(frames, t.frames, f.address, t.direction, runStart, |frames|, id);
      assert (t.accepted + [id])[|t.accepted|] == id;
    }
  }

  lemma {:induction false} CanonicalValid(e: Evidence)
    requires Canonical(e)
    ensures Valid(e)
  {
  }

  lemma {:induction false} RepeatShape(frames: seq<Frame>, runStart: nat, f: Frame, id: nat, t: Assembly)
    requires AssemblyOk(frames, runStart, f.address, t) && Current(frames, runStart, f, id) && t.direction == f.Forward()
    requires Sequence(f.userData.data[0]) in t.seen && t.seen[Sequence(f.userData.data[0])] == f.userData.data
    ensures AssemblyOk(frames, runStart, f.address, t.(frames := t.frames + [id]))
  {
    hide AllBelong, Chained, AllSegments, AllRepeat, Canonical, View, Carried, First, Last;
    BuiltNonempty(frames, t.frames, t.accepted, t.bytes);
    CurrentSegment(frames, runStart, f, id);
    BelongSnoc(frames, t.frames, f.address, t.direction, runStart, |frames|, id);
    var m :| 0 <= m < |t.accepted| && t.accepted[m] < |frames| && frames[t.accepted[m]].userData.data == t.seen[Sequence(f.userData.data[0])];
    assert Repeats(frames, id, t.accepted);
    RepeatSnoc(frames, t.frames, t.accepted, id);
    forall k | 0 <= k < |t.accepted| ensures t.accepted[k] in t.frames + [id] {
      assert t.accepted[k] in t.frames;
    }
  }

  // ---------------------------------------------------------------- the state around it

  /** The open state of the frame's address agrees with its direction. */
  ghost predicate SameDirection(w: Work, f: Frame) {
    && (f.address in w.transport ==> w.transport[f.address].direction == f.Forward())
    && (forall c: Class | AppKey(f.address, c) in w.apps :: w.apps[AppKey(f.address, c)].direction == f.Forward())
  }

  ghost predicate Ready(w: Work, f: Frame, id: nat) {
    Good(w) && OpenBut(w, None) && Current(w.out.frames, w.runStart, f, id) && SameDirection(w, f)
  }

  /** What every step guarantees about its result. */
  ghost predicate Kept(w: Work, v: Work) {
    Good(v) && OpenBut(v, None) && v.out.frames == w.out.frames && v.runStart == w.runStart
  }

  lemma {:induction false} StoreTransport(w: Work, a: Address, t: Assembly)
    requires Good(w) && OpenBut(w, None) && AssemblyOk(w.out.frames, w.runStart, a, t)
    ensures Kept(w, w.(transport := w.transport[a := t]))
  {
    hide AssemblyOk, AppOk, FragmentsOk, MessagesOk, Run, FramesOk, EndsFinal;
  }

  lemma {:induction false} GoodAssembly(w: Work, a: Address)
    requires Good(w) && a in w.transport
    ensures AssemblyOk(w.out.frames, w.runStart, a, w.transport[a])
  {
    hide AssemblyOk, AppsOk, FragmentsOk, MessagesOk, Run, FramesOk;
  }

  lemma {:induction false} ShapeOpen(frames: seq<Frame>, runStart: nat, a: Address, t: Assembly)
    requires AssemblyShape(frames, runStart, a, t, false)
    ensures AssemblyOk(frames, runStart, a, t)
  {
    hide Built, AllBelong, Remembered, Canonical, Last;
  }

  lemma {:induction false} FinishGood(w: Work, t: Assembly, f: Frame, id: nat, at: int, limits: Limits)
    requires Good(w) && OpenBut(w, None) && Current(w.out.frames, w.runStart, f, id)
    requires AssemblyShape(w.out.frames, w.runStart, f.address, t, Last(f.userData.data[0])) && t.direction == f.Forward()
    requires forall c: Class | AppKey(f.address, c) in w.apps :: w.apps[AppKey(f.address, c)].direction == f.Forward()
    ensures var r := FinishSegment(w, t, f, at, limits);
            r.Ok? ==> Kept(w, r.value)
  {
    hide Good, OpenBut, AssemblyShape, AssemblyOk, Complete, Last;
    if Last(f.userData.data[0]) {
      CompleteGood(w, t, f.address, at, limits);
    } else {
      ShapeOpen(w.out.frames, w.runStart, f.address, t);
      StoreTransport(w, f.address, t);
    }
  }

  lemma {:induction false} BeginGood(w: Work, f: Frame, id: nat, at: int, limits: Limits)
    requires Ready(w, f, id) && First(f.userData.data[0])
    ensures var r := BeginSegment(w, f, id, at, limits);
            r.Ok? ==> Kept(w, r.value)
  {
    hide Good, OpenBut, AssemblyShape, Drop, OpenAssembly, FinishSegment, Current, First, Packets;
    CurrentData(w.out.frames, w.runStart, f, id);
    var r := BeginSegment(w, f, id, at, limits);
    if r.Ok? {
      var dropped :=
        if f.address in w.transport
        then Drop(w, f.address, RestartBeforeFin, Packets(w.transport[f.address].bytes), at, limits)
        else Ok(w);
      var w1 := dropped.value;
      if f.address in w.transport {
        DropGood(w, f.address, RestartBeforeFin, Packets(w.transport[f.address].bytes), at, limits);
      }
      OpenShape(w.out.frames, w.runStart, f, id, limits);
      FinishGood(w1, OpenAssembly(f.userData, id, f.Forward(), limits).value, f, id, at, limits);
    }
  }

  lemma {:induction false} CurrentData(frames: seq<Frame>, runStart: nat, f: Frame, id: nat)
    requires Current(frames, runStart, f, id)
    ensures f.userData.data != []
  {
    hide Canonical;
  }

  lemma {:induction false} RepeatGood(w: Work, f: Frame, id: nat, at: int, limits: Limits)
    requires Ready(w, f, id) && f.address in w.transport
    requires var s := Sequence(f.userData.data[0]);
             s in w.transport[f.address].seen && w.transport[f.address].seen[s] == f.userData.data
    ensures var r := RepeatSegment(w, f, id, at, limits);
            r.Ok? ==> Kept(w, r.value)
  {
    hide Good, OpenBut, AssemblyOk, Report, Current, Packets;
    CurrentData(w.out.frames, w.runStart, f, id);
    var r := RepeatSegment(w, f, id, at, limits);
    if r.Ok? {
      GoodAssembly(w, f.address);
      var t := w.transport[f.address];
      RepeatShape(w.out.frames, w.runStart, f, id, t);
      var w1 := w.(transport := w.transport[f.address := t.(frames := t.frames + [id])]);
      StoreTransport(w, f.address, t.(frames := t.frames + [id]));
      var code := if t.lastSequence == Sequence(f.userData.data[0]) then DuplicateSegment else ReorderedDuplicate;
      ReportGood(w1, code, Packets(f.userData), at, limits, None);
    }
  }

  /** Whatever a segment does to the open assemblies, the state stays meaningful. */
  lemma {:induction false} SegmentGood(w: Work, f: Frame, id: nat, at: int, limits: Limits)
    requires Ready(w, f, id)
    ensures f.userData.data != []
    ensures var r := Segment(w, f, id, at, limits);
            r.Ok? ==> Kept(w, r.value)
  {
    hide Good, OpenBut, AssemblyOk, AssemblyShape, Current, Drop, RepeatSegment, BeginSegment, ExtendAssembly, FinishSegment, Packets, First, Last;
    CurrentData(w.out.frames, w.runStart, f, id);
    var data, a := f.userData.data, f.address;
    var open := a in w.transport;
    if open && Seen(w.transport[a], data) && w.transport[a].seen[Sequence(data[0])] == data {
      RepeatGood(w, f, id, at, limits);
    } else if open && !First(data[0]) && Seen(w.transport[a], data) {
      DropGood(w, a, ConflictingDuplicate, Packets(w.transport[a].bytes) + Packets(f.userData), at, limits);
    } else if First(data[0]) {
      BeginGood(w, f, id, at, limits);
    } else if !open {
      DropGood(w, a, OrphanSegment, Packets(f.userData), at, limits);
    } else if Sequence(data[0]) != NextSegment(w.transport[a].lastSequence) {
      DropGood(w, a, SegmentGap, Packets(w.transport[a].bytes) + Packets(f.userData), at, limits);
    } else {
      GoodAssembly(w, a);
      ExtendShape(w.out.frames, w.runStart, f, id, w.transport[a], limits);
      if ExtendAssembly(w.transport[a], f.userData, id, limits).Ok? {
        FinishGood(w, ExtendAssembly(w.transport[a], f.userData, id, limits).value, f, id, at, limits);
      }
    }
  }

  // ---------------------------------------------------------------- one frame

  lemma {:induction false} DirectionAgrees(w: Work, f: Frame)
    ensures !DirectionDiffers(w, f.address, f.Forward()) ==> SameDirection(w, f)
    ensures Cleared(w, f.address) ==> SameDirection(w, f)
  {
  }

  lemma {:induction false} InterpretGood(w: Work, f: Frame, id: nat, at: int, limits: Limits, problem: Option<nat>)
    requires Good(w) && OpenBut(w, None)
    requires f.userData.data != [] ==> Current(w.out.frames, w.runStart, f, id)
    ensures var r := Interpret(w, f, id, at, limits, problem);
            r.Ok? ==> Kept(w, r.value)
  {
    hide Good, OpenBut, Current, Drop, Segment, Packets, SameDirection, DirectionDiffers, Cleared;
    if problem.Some? {
      DropGood(w, f.address, LinkIssue(problem.value), Packets(f.raw), at, limits);
    } else if f.userData.data == [] {
    } else if !f.CarriesUserData() {
      DropGood(w, f.address, UnsupportedFunctionWithData, Packets(f.userData), at, limits);
    } else {
      DirectionAgrees(w, f);
      if DirectionDiffers(w, f.address, f.Forward()) {
        DropGood(w, f.address, DirectionChanged, Packets(f.userData), at, limits);
        var dropped := Drop(w, f.address, DirectionChanged, Packets(f.userData), at, limits);
        if dropped.Ok? {
          DirectionAgrees(dropped.value, f);
          SegmentGood(dropped.value, f, id, at, limits);
        }
      } else {
        SegmentGood(w, f, id, at, limits);
      }
    }
  }

  /** A frame can be pushed when it continues the current run. */
  ghost predicate Follows(w: Work, f: Frame) {
    |w.out.frames| > w.runStart ==>
      var last := w.out.frames[|w.out.frames| - 1];
      f.chunk == last.chunk && f.start == last.End()
  }

  lemma {:induction false} PushGood(w: Work, f: Frame)
    requires Good(w) && OpenBut(w, None) && Canonical(f.userData) && Follows(w, f)
    ensures Good(PushFrame(w, f)) && OpenBut(PushFrame(w, f), None)
    ensures f.userData.data != [] ==> Current(PushFrame(w, f).out.frames, w.runStart, f, |w.out.frames|)
  {
    hide AssembliesOk, AppsOk, FragmentsOk, MessagesOk, Canonical;
    var more := w.out.(frames := w.out.frames + [f]);
    forall i | w.runStart <= i && i + 1 < |more.frames| ensures Adjacent(more.frames, i) {
      if i + 1 < |w.out.frames| {
        assert Adjacent(w.out.frames, i);
      }
    }
    GoodGrows(w, more);
    OpenGrows(w, more);
  }

  /** Accepting a good frame keeps every claim about fragments and messages, old and new. */
  lemma {:induction false} AcceptGood(w: Work, f: Frame, at: int, limits: Limits, rules: LinkRules)
    requires Good(w) && OpenBut(w, None) && Canonical(f.userData) && Follows(w, f)
    ensures var r := AcceptFrame(w, f, at, limits, rules);
            r.Ok? ==> Good(r.value) && OpenBut(r.value, None) && r.value.runStart == w.runStart
                      && r.value.out.frames == w.out.frames + [f]
  {
    hide Good, OpenBut, Canonical, Report, Interpret, Packets, Current;
    var r := AcceptFrame(w, f, at, limits, rules);
    if r.Ok? {
      ReportGood(w, ReservedControlBit, Packets(f.raw), at, limits, None);
      var w1 := ReportIf(f.ReservedBit(), w, ReservedControlBit, Packets(f.raw), at, limits).value;
      ReportGood(w1, UnsupportedLinkFunction, Packets(f.raw), at, limits, None);
      var w2 := ReportIf(f.UnknownFunction(), w1, UnsupportedLinkFunction, Packets(f.raw), at, limits).value;
      PushGood(w2, f);
      InterpretGood(PushFrame(w2, f), f, |w.out.frames|, at, limits,
                    rules(f.control, f.address.source, f.address.destination, |f.userData.data|));
    }
  }

  // ---------------------------------------------------------------- frames of one chunk in a row

  /** Accept the first k frames of a chunk whose stream offset is base. */
  function AcceptAll(w: Work, fs: seq<Frame>, base: int, limits: Limits, rules: LinkRules, k: nat): Result<Work>
    requires k <= |fs|
  {
    if k == 0 then Ok(w)
    else
      var before :- AcceptAll(w, fs, base, limits, rules, k - 1);
      AcceptFrame(before, fs[k - 1], base + fs[k - 1].start, limits, rules)
  }

  /** Nothing open and nothing put out. */
  const FRESH: Work := Work(Output([], [], [], [], []), map[], map[], 0)

  lemma {:induction false} AcceptJoin(w: Work, fs: seq<Frame>, gs: seq<Frame>, base: int, limits: Limits, rules: LinkRules, k: nat)
    requires k <= |gs| && AcceptAll(w, fs, base, limits, rules, |fs|).Ok?
    ensures AcceptAll(w, fs + gs, base, limits, rules, |fs| + k)
            == AcceptAll(AcceptAll(w, fs, base, limits, rules, |fs|).value, gs, base, limits, rules, k)
  {
    hide AcceptFrame;
    if k == 0 {
      AcceptFront(w, fs, gs, base, limits, rules, |fs|);
    } else {
      AcceptJoin(w, fs, gs, base, limits, rules, k - 1);
      assert (fs + gs)[|fs| + k - 1] == gs[k - 1];
    }
  }

  lemma {:induction false} AcceptFront(w: Work, fs: seq<Frame>, gs: seq<Frame>, base: int, limits: Limits, rules: LinkRules, k: nat)
    requires k <= |fs|
    ensures AcceptAll(w, fs + gs, base, limits, rules, k) == AcceptAll(w, fs, base, limits, rules, k)
  {
    hide AcceptFrame;
    if k > 0 {
      AcceptFront(w, fs, gs, base, limits, rules, k - 1);
    }
  }

  lemma {:induction false} PrefixAccepted(before: Work, fs: seq<Frame>, base: int, limits: Limits, rules: LinkRules, k: nat)
    requires k <= |fs| && AcceptAll(before, fs, base, limits, rules, |fs|).Ok?
    ensures AcceptAll(before, fs, base, limits, rules, k).Ok?
    decreases |fs| - k
  {
    hide AcceptFrame;
    if k < |fs| {
      PrefixAccepted(before, fs, base, limits, rules, k + 1);
    }
  }
}
