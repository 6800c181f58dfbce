/** Every step of DNP3 reassembly keeps the whole state meaningful. */
module Dnp3Safety {
  import opened Common
  import opened Provenance
  import opened Dnp3Model
  import opened Dnp3Shape

  // ---------------------------------------------------------------- output grows

  ghost predicate NewFragmentsOk(out: Output, more: Output) {
    forall i | |out.fragments| <= i < |more.fragments| :: FragmentOk(more.frames, more.fragments[i])
  }

  lemma {:induction false} GoodGrows(w: Work, more: Output)
    requires Good(w) && Grows(w.out, more) && more.messages == w.out.messages
    requires FramesOk(more.frames) && Run(more.frames, w.runStart, |more.frames|) && NewFragmentsOk(w.out, more)
    ensures Good(w.(out := more))
  {
    hide AssemblyOk, AppOk, FragmentOk, MessageOk, Run, FramesOk;
    var v := w.(out := more);
    forall a | a in v.transport ensures AssemblyOk(v.out.frames, v.runStart, a, v.transport[a]) {
      AssemblyGrows(w.out.frames, more.frames, w.runStart, a, w.transport[a]);
    }
    forall k | k in v.apps ensures AppOk(v.out, v.runStart, k, v.apps[k]) {
      AppGrows(w.out, more, w.runStart, k, w.apps[k]);
    }
    forall i | 0 <= i < |more.fragments| ensures FragmentOk(more.frames, more.fragments[i]) {
      if i < |w.out.fragments| {
        assert FragmentOk(w.out.frames, w.out.fragments[i]);
        FragmentGrows(w.out.frames, more.frames, w.out.fragments[i]);
      }
    }
    MessagesGrow(w.out, more);
  }

  /** Two states that differ only in reported issues. */
  ghost predicate SameButIssues(w: Work, v: Work) {
    v == w.(out := w.out.(issues := v.out.issues))
  }

  lemma {:induction false} ReportGood(w: Work, code: IssueCode, packets: set<PacketId>, at: int, limits: Limits, key: Option<AppKey>)
    requires Good(w) && OpenBut(w, key)
    ensures var r := Report(w, code, packets, at, limits);
            r.Ok? ==> Good(r.value) && OpenBut(r.value, key) && SameButIssues(w, r.value)
  {
    hide Good, EndsFinal;
    var r := Report(w, code, packets, at, limits);
    if r.Ok? {
      SameGood(w, r.value);
    }
  }

  lemma {:induction false} SameGood(w: Work, v: Work)
    requires Good(w) && SameButIssues(w, v)
    ensures Good(v)
  {
    hide AssembliesOk, AppsOk, FragmentsOk, MessagesOk;
    GoodGrows(w, v.out);
  }

  // ---------------------------------------------------------------- messages leave

  lemma {:induction false} MessageOfApp(out: Output, runStart: nat, key: AppKey, a: App, complete: bool)
    requires AppOk(out, runStart, key, a) && (complete <==> EndsFinal(out.fragments, a.fragments))
    ensures MessageOk(out, MessageOf(a, complete))
  {
    hide PartsIn, Assembled;
    assert PartsIn(out, a.fragments, key, a.direction, runStart, |out.frames|);
    assert key == AppKey(a.address, a.class_);
  }

  lemma {:induction false} EmitGood(w: Work, key: AppKey, complete: bool, limits: Limits, except_: Option<AppKey>)
    requires Good(w) && key in w.apps && OpenBut(w, except_)
    requires complete <==> EndsFinal(w.out.fragments, w.apps[key].fragments)
    ensures var r := Emit(w, key, complete, limits);
            r.Ok? ==>
              && Good(r.value) && OpenBut(r.value, except_) && r.value.apps == w.apps - {key}
              && r.value.transport == w.transport && r.value.runStart == w.runStart
              && r.value.out.frames == w.out.frames && r.value.out.fragments == w.out.fragments
              && r.value.out.messages == w.out.messages + [MessageOf(w.apps[key], complete)]
  {
    hide AppOk, MessageOk, AssemblyOk, FragmentOk, Run, FramesOk, EndsFinal;
    var r := Emit(w, key, complete, limits);
    if r.Ok? {
      var v := r.value;
      MessageOfApp(w.out, w.runStart, key, w.apps[key], complete);
      forall k | k in v.apps ensures AppOk(v.out, v.runStart, k, v.apps[k]) {
        AppGrows(w.out, v.out, w.runStart, k, w.apps[k]);
      }
      forall i | 0 <= i < |v.out.messages| ensures MessageOk(v.out, v.out.messages[i]) {
        if i < |w.out.messages| {
          assert MessageOk(w.out, w.out.messages[i]);
          MessageGrows(w.out, v.out, w.out.messages[i]);
        } else {
          MessageGrows(w.out, v.out, MessageOf(w.apps[key], complete));
        }
      }
      assert FragmentsOk(v.out);
    }
  }

  /** Frames, fragments and transport are as before; some open messages may have been emitted. */
  ghost predicate OnlyEmits(w: Work, v: Work) {
    && v.transport == w.transport && v.runStart == w.runStart && v.out.frames == w.out.frames && v.out.fragments == w.out.fragments
    && (forall k | k in v.apps :: k in w.apps && v.apps[k] == w.apps[k])
  }

  lemma {:induction false} EmitIfOpenGood(w: Work, key: AppKey, limits: Limits)
    requires Good(w) && OpenBut(w, None)
    ensures var r := EmitIfOpen(w, key, false, limits);
            r.Ok? ==> Good(r.value) && OpenBut(r.value, None) && OnlyEmits(w, r.value) && key !in r.value.apps
  {
    hide Good, EndsFinal, Emit;
    if key in w.apps {
      EmitGood(w, key, false, limits, None);
    }
  }

  lemma {:induction false} InterruptGood(w: Work, a: Address, limits: Limits)
    requires Good(w) && OpenBut(w, None)
    ensures var r := Interrupt(w, a, limits);
            r.Ok? ==> Good(r.value) && OpenBut(r.value, None) && OnlyEmits(w, r.value)
                      && forall c: Class :: AppKey(a, c) !in r.value.apps
  {
    hide Good, EmitIfOpen, OpenBut;
    var r := Interrupt(w, a, limits);
    if r.Ok? {
      EmitIfOpenGood(w, AppKey(a, Request), limits);
      var w1 := EmitIfOpen(w, AppKey(a, Request), false, limits).value;
      EmitIfOpenGood(w1, AppKey(a, Response), limits);
      var w2 := EmitIfOpen(w1, AppKey(a, Response), false, limits).value;
      EmitIfOpenGood(w2, AppKey(a, Unsolicited), limits);
      var w3 := EmitIfOpen(w2, AppKey(a, Unsolicited), false, limits).value;
      EmitIfOpenGood(w3, AppKey(a, Confirm), limits);
      var w4 := EmitIfOpen(w3, AppKey(a, Confirm), false, limits).value;
      EmitIfOpenGood(w4, AppKey(a, UnknownClass), limits);
      forall c: Class ensures AppKey(a, c) !in r.value.apps {
        assert c == Request || c == Response || c == Unsolicited || c == Confirm || c == UnknownClass;
      }
    }
  }

  lemma {:induction false} WithoutTransport(w: Work, a: Address)
    requires Good(w) && OpenBut(w, None)
    ensures Good(w.(transport := w.transport - {a})) && OpenBut(w.(transport := w.transport - {a}), None)
  {
    hide AssemblyOk, AppOk, FragmentsOk, MessagesOk, Run, FramesOk, EndsFinal;
  }

  /** After a discontinuity nothing of the address is left open. */
  ghost predicate Cleared(w: Work, a: Address) {
    a !in w.transport && forall c: Class :: AppKey(a, c) !in w.apps
  }

  lemma {:induction false} DropGood(w: Work, a: Address, code: IssueCode, packets: set<PacketId>, at: int, limits: Limits)
    requires Good(w) && OpenBut(w, None)
    ensures var r := Drop(w, a, code, packets, at, limits);
            r.Ok? ==> Good(r.value) && OpenBut(r.value, None) && Cleared(r.value, a)
                      && r.value.out.frames == w.out.frames && r.value.runStart == w.runStart
  {
    hide Good, OpenBut, Report, Interrupt;
    var r := Drop(w, a, code, packets, at, limits);
    if r.Ok? {
      ReportGood(w, code, packets, at, limits, None);
      var w1 := Report(w, code, packets, at, limits).value;
      WithoutTransport(w1, a);
      InterruptGood(w1.(transport := w1.transport - {a}), a, limits);
    }
  }

  // ---------------------------------------------------------------- a fragment joins its message

  lemma {:induction false} OpenAppOk(out: Output, runStart: nat, f: Fragment, id: nat, d: bool)
    requires id < |out.fragments| && out.fragments[id] == f && f.First() && FragmentOk(out.frames, f)
    requires FragmentIn(out.frames, f, d, runStart, |out.frames|)
    ensures AppOk(out, runStart, AppKey(f.address, f.class_), OpenApp(f, id, d, FramePackets(out.frames, f.frames)))
  {
    hide Run, AllBelong, Built, Tiled, Coalesced, FramePackets, View;
    var key, ids := AppKey(f.address, f.class_), [id];
    FragmentInRun(out.frames, f, d, runStart, |out.frames|);
    assert PartIn(out, id, key, d, runStart, |out.frames|);
    assert Ordered(out.fragments, ids, f.function_, 0);
    assert ObjectsOk(out.fragments, ids);
    assert Objects(out.fragments, ids, 0) == [];
    assert Objects(out.fragments, ids, 1) == View(f.objects);
    assert PartPackets(out, ids, 0) == {};
    assert PartPackets(out, ids, 1) == FramePackets(out.frames, f.frames);
  }

  lemma {:induction false} FragmentInRun(frames: seq<Frame>, f: Fragment, d: bool, lo: nat, hi: nat)
    requires FragmentIn(frames, f, d, lo, hi)
    ensures Run(frames, lo, hi)
  {
  }

  lemma {:induction false} OrderedSnoc(fragments: seq<Fragment>, ids: seq<nat>, function_: u8, id: nat)
    requires AllOrdered(fragments, ids, function_) && id < |fragments| && !EndsFinal(fragments, ids)
    requires fragments[id].function_ == function_ && !fragments[id].First()
    requires ids != [] && ids[|ids| - 1] < |fragments|
    requires fragments[id].SequenceNumber() == NextFragment(fragments[ids[|ids| - 1]].SequenceNumber())
    ensures AllOrdered(fragments, ids + [id], function_)
  {
    var more := ids + [id];
    forall j: nat | j < |more| ensures Ordered(fragments, more, function_, j) {
      if j < |ids| {
        assert Ordered(fragments, ids, function_, j);
      } else {
        assert Ordered(fragments, ids, function_, j - 1);
      }
    }
  }

  lemma {:induction false} ObjectsAlike(fragments: seq<Fragment>, ids: seq<nat>, id: nat, k: nat)
    requires ObjectsOk(fragments, ids) && id < |fragments| && Canonical(fragments[id].objects) && k <= |ids|
    ensures ObjectsOk(fragments, ids + [id]) && Objects(fragments, ids + [id], k) == Objects(fragments, ids, k)
  {
    hide Canonical, View;
    if k > 0 {
      ObjectsAlike(fragments, ids, id, k - 1);
    }
  }

  lemma {:induction false} PacketsAlike(out: Output, ids: seq<nat>, id: nat, k: nat)
    requires k <= |ids|
    ensures PartPackets(out, ids + [id], k) == PartPackets(out, ids, k)
  {
    hide FramePackets;
    if k > 0 {
      PacketsAlike(out, ids, id, k - 1);
    }
  }

  lemma {:induction false} PartsSnoc(out: Output, ids: seq<nat>, key: AppKey, d: bool, lo: nat, hi: nat, id: nat)
    requires PartsIn(out, ids, key, d, lo, hi) && PartIn(out, id, key, d, lo, hi)
    ensures PartsIn(out, ids + [id], key, d, lo, hi)
  {
    hide Run, PartIn;
  }

  lemma {:induction false} ExtendAppOk(out: Output, runStart: nat, key: AppKey, a: App, f: Fragment, id: nat, limits: Limits)
    requires AppOk(out, runStart, key, a) && !EndsFinal(out.fragments, a.fragments)
    requires id < |out.fragments| && out.fragments[id] == f && !f.First() && FragmentOk(out.frames, f)
    requires key == AppKey(f.address, f.class_) && FragmentIn(out.frames, f, a.direction, runStart, |out.frames|) && Continues(a, f)
    ensures var r := ExtendApp(a, f, id, FramePackets(out.frames, f.frames), limits);
            r.Ok? ==> AppOk(out, runStart, key, r.value) && r.value.fragments == a.fragments + [id] && r.value.direction == a.direction
  {
    hide Run, PartsIn, Built, Tiled, Coalesced, FramePackets, View, FragmentIn, AllOrdered, ObjectsOk, Append;
    var r := ExtendApp(a, f, id, FramePackets(out.frames, f.frames), limits);
    if r.Ok? {
      var ids, more := a.fragments, a.fragments + [id];
      AppendView(a.objects, f.objects, limits.maxApplicationBytes);
      OrderedNonempty(out.fragments, ids, a.function_);
      OrderedSnoc(out.fragments, ids, a.function_, id);
      assert PartIn(out, id, key, a.direction, runStart, |out.frames|);
      PartsSnoc(out, ids, key, a.direction, runStart, |out.frames|, id);
      ObjectsAlike(out.fragments, ids, id, |ids|);
      PacketsAlike(out, ids, id, |ids|);
      assert Objects(out.fragments, more, |more|) == Objects(out.fragments, more, |ids|) + View(f.objects);
      assert PartPackets(out, more, |more|) == PartPackets(out, more, |ids|) + FramePackets(out.frames, f.frames);
    }
  }

  lemma {:induction false} StoreApp(w: Work, key: AppKey, a: App)
    requires Good(w) && OpenBut(w, Some(key)) && AppOk(w.out, w.runStart, key, a)
    ensures Good(w.(apps := w.apps[key := a])) && OpenBut(w.(apps := w.apps[key := a]), Some(key))
  {
    hide AssemblyOk, AppOk, FragmentsOk, MessagesOk, Run, FramesOk, EndsFinal;
  }

  lemma {:induction false} OpenWeaker(w: Work, key: AppKey)
    requires OpenBut(w, None)
    ensures OpenBut(w, Some(key))
  {
    hide EndsFinal;
  }

  lemma {:induction false} OpenGone(w: Work, key: AppKey)
    requires OpenBut(w, Some(key)) && (key in w.apps ==> !EndsFinal(w.out.fragments, w.apps[key].fragments))
    ensures OpenBut(w, None)
  {
    hide EndsFinal;
  }

  /** What joining leaves behind: at most the new fragment's own message may now end with FIN. */
  ghost predicate Joined(w: Work, v: Work, key: AppKey, id: nat) {
    && Good(v) && OpenBut(v, Some(key)) && v.out.frames == w.out.frames && v.out.fragments == w.out.fragments
    && v.runStart == w.runStart && v.transport == w.transport
    && (key in v.apps ==> v.apps[key].fragments != [] && v.apps[key].fragments[|v.apps[key].fragments| - 1] == id)
  }

  lemma {:induction false} JoinGood(w: Work, f: Fragment, id: nat, key: AppKey, d: bool, at: int, limits: Limits)
    requires Good(w) && OpenBut(w, None) && id < |w.out.fragments| && w.out.fragments[id] == f && key == AppKey(f.address, f.class_)
    requires FragmentIn(w.out.frames, f, d, w.runStart, |w.out.frames|)
    requires key in w.apps ==> w.apps[key].direction == d
    ensures var r := JoinMessage(w, f, id, key, d, FramePackets(w.out.frames, f.frames), at, limits);
            r.Ok? ==> Joined(w, r.value, key, id)
  {
    hide Good, OpenBut, FragmentIn, AppOk, FragmentOk, FramePackets, Report, EmitIfOpen, Emit, ExtendApp, EndsFinal, OpenApp;
    var packets := FramePackets(w.out.frames, f.frames);
    var r := JoinMessage(w, f, id, key, d, packets, at, limits);
    GoodFragment(w, id);
    if r.Ok? {
      if f.First() {
        EmitIfOpenGood(w, key, limits);
        var w1 := EmitIfOpen(w, key, false, limits).value;
        OpenWeaker(w1, key);
        GoodFragment(w1, id);
        OpenAppOk(w1.out, w1.runStart, f, id, d);
        StoreApp(w1, key, OpenApp(f, id, d, packets));
        OpenAppFragments(f, id, d, packets);
      } else if key !in w.apps {
        ReportGood(w, OrphanFragment, packets, at, limits, None);
        OpenWeaker(r.value, key);
      } else if Continues(w.apps[key], f) {
        GoodApp(w, key);
        ExtendAppOk(w.out, w.runStart, key, w.apps[key], f, id, limits);
        OpenWeaker(w, key);
        StoreApp(w, key, ExtendApp(w.apps[key], f, id, packets, limits).value);
      } else {
        ReportGood(w, FragmentGap, packets, at, limits, None);
        var w1 := Report(w, FragmentGap, packets, at, limits).value;
        GoodApp(w1, key);
        EmitGood(w1, key, false, limits, None);
        OpenWeaker(r.value, key);
      }
    }
  }

  lemma {:induction false} OpenAppFragments(f: Fragment, id: nat, d: bool, packets: set<PacketId>)
    ensures OpenApp(f, id, d, packets).fragments == [id]
  {
  }

  lemma {:induction false} GoodFragment(w: Work, id: nat)
    requires Good(w) && id < |w.out.fragments|
    ensures FragmentOk(w.out.frames, w.out.fragments[id]) && Run(w.out.frames, w.runStart, |w.out.frames|)
  {
    hide AssembliesOk, AppsOk, MessagesOk, FramesOk, FragmentOk;
  }

  lemma {:induction false} GoodApp(w: Work, key: AppKey)
    requires Good(w) && OpenBut(w, None) && key in w.apps
    ensures AppOk(w.out, w.runStart, key, w.apps[key]) && !EndsFinal(w.out.fragments, w.apps[key].fragments)
  {
    hide AssembliesOk, FragmentsOk, MessagesOk, FramesOk, AppOk, EndsFinal;
  }

  // ---------------------------------------------------------------- a completed fragment

  /** An assembly whose last accepted segment may be the final one. */
  ghost predicate AssemblyShape(frames: seq<Frame>, runStart: nat, a: Address, t: Assembly, last: bool) {
    && AllBelong(frames, t.frames, a, t.direction, runStart, |frames|)
    && Built(frames, t.frames, t.accepted, t.bytes) && Remembered(frames, t.accepted, t.seen)
    && HasSegment(frames, t.accepted[|t.accepted| - 1])
    && t.lastSequence == Sequence(Header(frames, t.accepted[|t.accepted| - 1]))
    && (Last(Header(frames, t.accepted[|t.accepted| - 1])) <==> last)
  }

  lemma {:induction false} ParseFragmentOk(frames: seq<Frame>, runStart: nat, a: Address, t: Assembly)
    requires AssemblyShape(frames, runStart, a, t, true) && Run(frames, runStart, |frames|)
    ensures var r := ParseFragment(t, a);
            r.Ok? ==> FragmentOk(frames, r.value) && r.value.address == a && FragmentIn(frames, r.value, t.direction, runStart, |frames|)
                      && r.value.frames == t.frames
  {
    hide Built, AllBelong, Remembered, Run, Tiled, Coalesced, View, Slice;
    var r := ParseFragment(t, a);
    if r.Ok? {
      BuiltNonempty(frames, t.frames, t.accepted, t.bytes);
      BuiltCanonical(frames, t.frames, t.accepted, t.bytes);
      var n := HeaderLength(r.value.function_);
      SliceView(t.bytes, n, |t.bytes.data|);
      ViewSize(t.bytes);
      assert View(t.bytes)[n..|t.bytes.data|] == View(t.bytes)[n..];
      assert FragmentIn(frames, r.value, t.direction, runStart, |frames|);
    }
  }

  lemma {:induction false} ViewSize(e: Evidence)
    requires Valid(e)
    ensures |View(e)| == |e.data|
  {
    hide Tiled;
  }

  lemma {:induction false} BuiltCanonical(frames: seq<Frame>, ids: seq<nat>, accepted: seq<nat>, bytes: Evidence)
    requires Built(frames, ids, accepted, bytes)
    ensures Canonical(bytes)
  {
    hide Chained, AllSegments, AllRepeat, View, Carried;
  }

  lemma {:induction false} PushFragmentGood(w: Work, f: Fragment)
    requires Good(w) && OpenBut(w, None) && FragmentOk(w.out.frames, f)
    ensures var v := w.(out := w.out.(fragments := w.out.fragments + [f]));
            Good(v) && OpenBut(v, None)
  {
    hide AssembliesOk, AppsOk, FragmentsOk, MessagesOk, FragmentOk, Run, FramesOk;
    var more := w.out.(fragments := w.out.fragments + [f]);
    GoodParts(w);
    assert NewFragmentsOk(w.out, more);
    GoodGrows(w, more);
    OpenGrows(w, more);
  }

  lemma {:induction false} GoodParts(w: Work)
    requires Good(w)
    ensures FramesOk(w.out.frames) && Run(w.out.frames, w.runStart, |w.out.frames|)
  {
  }

  lemma {:induction false} OpenGrows(w: Work, more: Output)
    requires Good(w) && OpenBut(w, None) && Grows(w.out, more)
    ensures OpenBut(w.(out := more), None)
  {
    hide AssembliesOk, FragmentsOk, MessagesOk, Run, FramesOk, PartsIn, Assembled;
    forall k | k in w.apps ensures !EndsFinal(more.fragments, w.apps[k].fragments) {
      var a := w.apps[k];
      assert AppOk(w.out, w.runStart, k, a);
      AssembledNonempty(w.out, a.fragments, a.function_, a.firstSequence, a.objects, a.packets);
    }
  }

  lemma {:induction false} AddFragmentGood(w: Work, f: Fragment, d: bool, at: int, limits: Limits)
    requires Good(w) && OpenBut(w, None) && FragmentOk(w.out.frames, f) && FragmentIn(w.out.frames, f, d, w.runStart, |w.out.frames|)
    requires AppKey(f.address, f.class_) in w.apps ==> w.apps[AppKey(f.address, f.class_)].direction == d
    ensures var r := AddFragment(w, f, d, at, limits);
            r.Ok? ==> Good(r.value) && OpenBut(r.value, None)
                      && r.value.out.frames == w.out.frames && r.value.runStart == w.runStart && r.value.transport == w.transport
  {
    hide Good, OpenBut, FragmentIn, FragmentOk, FramePackets, Report, JoinMessage, Emit;
    var r := AddFragment(w, f, d, at, limits);
    if r.Ok? {
      var id, key := |w.out.fragments|, AppKey(f.address, f.class_);
      var packets := FramePackets(w.out.frames, f.frames);
      ReportGood(w, UnsupportedApplicationFunction, packets, at, limits, None);
      var w1 := ReportIf(f.class_ == UnknownClass, w, UnsupportedApplicationFunction, packets, at, limits).value;
      PushFragmentGood(w1, f);
      var w2 := w1.(out := w1.out.(fragments := w1.out.fragments + [f]));
      JoinGood(w2, f, id, key, d, at, limits);
      var w3 := JoinMessage(w2, f, id, key, d, packets, at, limits).value;
      if f.Final() && key in w3.apps {
        EmitGood(w3, key, true, limits, Some(key));
        OpenGone(r.value, key);
      } else {
        OpenGone(w3, key);
      }
    }
  }

  lemma {:induction false} CompleteGood(w: Work, t: Assembly, a: Address, at: int, limits: Limits)
    requires Good(w) && OpenBut(w, None) && AssemblyShape(w.out.frames, w.runStart, a, t, true)
    requires forall c: Class | AppKey(a, c) in w.apps :: w.apps[AppKey(a, c)].direction == t.direction
    ensures var r := Complete(w, t, a, t.direction, at, limits);
            r.Ok? ==> Good(r.value) && OpenBut(r.value, None) && r.value.out.frames == w.out.frames && r.value.runStart == w.runStart
  {
    hide Good, OpenBut, AssemblyShape, ParseFragment, FragmentOk, FragmentIn, Drop, AddFragment;
    GoodParts(w);
    WithoutTransport(w, a);
    var w1 := w.(transport := w.transport - {a});
    ParseFragmentOk(w.out.frames, w.runStart, a, t);
    match ParseFragment(t, a) {
      case Err(_) => DropGood(w1, a, InvalidApplicationHeader, Packets(t.bytes), at, limits);
      case Ok(f) => AddFragmentGood(w1, f, t.direction, at, limits);
    }
  }
}
