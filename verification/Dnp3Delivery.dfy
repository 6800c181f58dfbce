/** In-order delivery: nothing that arrives whole and in sequence is held back or dropped. */
module Dnp3Delivery {
  import opened Common
  import opened Provenance
  import opened Dnp3Model
  import opened Dnp3Shape
  import opened Dnp3Safety
  import opened Dnp3Transport

  /** A good frame with user data that breaks no link rule. */
  ghost predicate Carries(f: Frame, a: Address, direction: bool, rules: LinkRules) {
    && f.address == a && f.Forward() == direction && f.CarriesUserData() && Canonical(f.userData) && f.userData.data != []
    && rules(f.control, a.source, a.destination, |f.userData.data|) == None
  }

  /** The frames of one application fragment: FIR first, FIN last, sequence numbers consecutive. */
  ghost predicate Train(fs: seq<Frame>, a: Address, direction: bool, rules: LinkRules) {
    && fs != []
    && (forall i | 0 <= i < |fs| :: Carries(fs[i], a, direction, rules))
    && (forall i | 0 <= i < |fs| :: First(fs[i].userData.data[0]) <==> i == 0)
    && (forall i | 0 <= i < |fs| :: Last(fs[i].userData.data[0]) <==> i == |fs| - 1)
    && (forall i | 0 < i < |fs| ::
          Sequence(fs[i].userData.data[0]) == NextSegment(Sequence(fs[i - 1].userData.data[0])))
  }

  /** What the first k frames carry behind their transport headers. */
  function Cargo(fs: seq<Frame>, k: nat): seq<byte>
    requires k <= |fs| && forall i | 0 <= i < |fs| :: fs[i].userData.data != []
  {
    if k == 0 then [] else Cargo(fs, k - 1) + fs[k - 1].userData.data[1..]
  }

  /** Budgets that leave room for the frames and what they carry. */
  ghost predicate Room(w: Work, fs: seq<Frame>, limits: Limits)
    requires forall i | 0 <= i < |fs| :: fs[i].userData.data != []
  {
    |w.out.frames| + |fs| <= limits.maxProtocolMessages && |Cargo(fs, |fs|)| <= Min(limits.maxApplicationBytes, USIZE_MAX)
  }

  ghost predicate Nonempty(fs: seq<Frame>) {
    forall i | 0 <= i < |fs| :: fs[i].userData.data != []
  }

  function Ids(first: nat, k: nat): (r: seq<nat>)
    ensures |r| == k
  {
    seq(k, i requires 0 <= i < k => first + i)
  }

  /** The open assembly after the first k frames. */
  ghost predicate Holding(w: Work, v: Work, fs: seq<Frame>, a: Address, direction: bool, k: nat)
    requires k <= |fs| && Nonempty(fs)
  {
    && 0 < k && a in v.transport
    && var t := v.transport[a];
       && t.direction == direction && t.lastSequence == Sequence(fs[k - 1].userData.data[0])
       && Canonical(t.bytes) && t.bytes.data == Cargo(fs, k)
       && t.frames == Ids(|w.out.frames|, k) && t.accepted == Ids(|w.out.frames|, k)
  }

  ghost predicate Untouched(w: Work, v: Work, fs: seq<Frame>, a: Address, k: nat)
    requires k <= |fs|
  {
    && v.out == w.out.(frames := w.out.frames + fs[..k]) && v.apps == w.apps && v.runStart == w.runStart
    && v.transport - {a} == w.transport - {a}
  }

  lemma {:induction false} CargoGrows(fs: seq<Frame>, k: nat)
    requires Nonempty(fs) && k <= |fs|
    ensures |Cargo(fs, k)| <= |Cargo(fs, |fs|)|
    decreases |fs| - k
  {
    if k < |fs| {
      CargoGrows(fs, k + 1);
    }
  }

  lemma {:induction false} CargoNext(fs: seq<Frame>, k: nat)
    requires Nonempty(fs) && k < |fs|
    ensures Cargo(fs, k + 1) == Cargo(fs, k) + fs[k].userData.data[1..] && Cargo(fs, 0) == []
  {
  }

  lemma {:induction false} IdsNext(first: nat, k: nat)
    ensures Ids(first, k + 1) == Ids(first, k) + [first + k] && Ids(first, 0) == []
  {
  }

  lemma {:induction false} SliceData(e: Evidence)
    requires Canonical(e) && e.data != []
    ensures Slice(e, 1, |e.data|).Ok? && Canonical(Slice(e, 1, |e.data|).value)
    ensures Slice(e, 1, |e.data|).value.data == e.data[1..]
  {
    hide Tiled, Coalesced, SliceSpans;
    TailView(e);
  }

  lemma {:induction false} AppendData(e: Evidence, f: Evidence, limit: nat)
    requires Canonical(e) && Canonical(f) && |e.data| + |f.data| <= Min(limit, USIZE_MAX)
    ensures Append(e, f, limit).Ok? && Canonical(Append(e, f, limit).value)
    ensures Append(e, f, limit).value.data == e.data + f.data
  {
    hide Tiled, Coalesced, AppendSpans, View;
    AppendView(e, f, limit);
  }

  // ---------------------------------------------------------------- one frame of the train

  lemma {:induction false} OpensAssembly(f: Frame, id: nat, limits: Limits)
    requires Canonical(f.userData) && f.userData.data != [] && |f.userData.data| - 1 <= limits.maxApplicationBytes
    ensures var r := OpenAssembly(f.userData, id, f.Forward(), limits);
            && r.Ok? && r.value.direction == f.Forward() && r.value.lastSequence == Sequence(f.userData.data[0])
            && Canonical(r.value.bytes) && r.value.bytes.data == f.userData.data[1..]
            && r.value.frames == [id] && r.value.accepted == [id]
  {
    hide Slice, Canonical;
    SliceData(f.userData);
  }

  lemma {:induction false} ExtendsAssembly(t: Assembly, f: Frame, id: nat, limits: Limits)
    requires Canonical(t.bytes) && Canonical(f.userData) && f.userData.data != [] && |t.frames| < limits.maxProtocolMessages
    requires |t.bytes.data| + |f.userData.data| - 1 <= Min(limits.maxApplicationBytes, USIZE_MAX)
    ensures var r := ExtendAssembly(t, f.userData, id, limits);
            && r.Ok? && r.value.direction == t.direction && r.value.lastSequence == Sequence(f.userData.data[0])
            && Canonical(r.value.bytes) && r.value.bytes.data == t.bytes.data + f.userData.data[1..]
            && r.value.frames == t.frames + [id] && r.value.accepted == t.accepted + [id]
  {
    hide Slice, Append, Canonical;
    SliceData(f.userData);
    AppendData(t.bytes, Slice(f.userData, 1, |f.userData.data|).value, limits.maxApplicationBytes);
  }

  /** The assembly that frame k leaves behind, whether or not it is the last. */
  ghost predicate Grown(w: Work, t: Assembly, fs: seq<Frame>, direction: bool, k: nat)
    requires k < |fs| && Nonempty(fs)
  {
    && t.direction == direction && t.lastSequence == Sequence(fs[k].userData.data[0])
    && Canonical(t.bytes) && t.bytes.data == Cargo(fs, k + 1)
    && t.frames == Ids(|w.out.frames|, k + 1) && t.accepted == Ids(|w.out.frames|, k + 1)
  }

  lemma {:induction false} TrainFacts(fs: seq<Frame>, a: Address, d: bool, rules: LinkRules, k: nat)
    requires Train(fs, a, d, rules) && k < |fs|
    ensures Nonempty(fs) && Carries(fs[k], a, d, rules)
    ensures First(fs[k].userData.data[0]) <==> k == 0
    ensures Last(fs[k].userData.data[0]) <==> k == |fs| - 1
    ensures k > 0 ==> Sequence(fs[k].userData.data[0]) == NextSegment(Sequence(fs[k - 1].userData.data[0]))
  {
    hide Carries, First, Last, Sequence;
    forall i | 0 <= i < |fs| ensures fs[i].userData.data != [] {
      CarriesData(fs[i], a, d, rules);
    }
  }

  lemma {:induction false} CarriesData(f: Frame, a: Address, d: bool, rules: LinkRules)
    requires Carries(f, a, d, rules)
    ensures f.userData.data != [] && Canonical(f.userData) && f.address == a && f.Forward() == d && f.CarriesUserData()
    ensures !f.ReservedBit() && !f.UnknownFunction()
    ensures rules(f.control, f.address.source, f.address.destination, |f.userData.data|) == None
  {
    hide Canonical;
  }

  lemma {:induction false} SegmentGrows(w: Work, v: Work, fs: seq<Frame>, a: Address, d: bool, k: nat, at: int, limits: Limits, rules: LinkRules)
    requires Train(fs, a, d, rules) && k < |fs| && Nonempty(fs) && Room(w, fs, limits)
    requires if k == 0 then a !in v.transport else Holding(w, v, fs, a, d, k)
    ensures exists t: Assembly ::
              Grown(w, t, fs, d, k) && Segment(v, fs[k], |w.out.frames| + k, at, limits) == FinishSegment(v, t, fs[k], at, limits)
  {
    hide Train, Carries, Canonical, First, Last, Sequence, NextSegment, FinishSegment, OpenAssembly, ExtendAssembly, Cargo, Ids, Drop, Packets, RepeatSegment;
    TrainFacts(fs, a, d, rules, k);
    CarriesData(fs[k], a, d, rules);
    CargoNext(fs, k);
    CargoGrows(fs, k + 1);
    IdsNext(|w.out.frames|, k);
    IdsSize(|w.out.frames|, k);
    var f, id := fs[k], |w.out.frames| + k;
    if k == 0 {
      CargoNext(fs, 0);
      OpensAssembly(f, id, limits);
      var t := OpenAssembly(f.userData, id, f.Forward(), limits).value;
      assert [] + f.userData.data[1..] == f.userData.data[1..] && [] + [id] == [id];
      assert Grown(w, t, fs, d, k);
    } else {
      var before := v.transport[a];
      ExtendsAssembly(before, f, id, limits);
      var t := ExtendAssembly(before, f.userData, id, limits).value;
      assert Grown(w, t, fs, d, k);
    }
  }

  lemma {:induction false} IdsSize(first: nat, k: nat)
    ensures |Ids(first, k)| == k
  {
  }

  /** Up to the push, accepting a frame of the train is handing its segment on. */
  lemma {:induction false} AcceptIsSegment(v: Work, f: Frame, a: Address, d: bool, at: int, limits: Limits, rules: LinkRules)
    requires Carries(f, a, d, rules) && f.userData.data != [] && |v.out.frames| < limits.maxProtocolMessages
    requires SameDirection(v, f)
    ensures AcceptFrame(v, f, at, limits, rules) == Segment(PushFrame(v, f), f, |v.out.frames|, at, limits)
  {
    hide Carries, Segment, Packets, Report, Drop;
    CarriesData(f, a, d, rules);
  }

  /** Open messages of the address are well formed and were built in the train's direction. */
  ghost predicate Agrees(w: Work, a: Address, d: bool) {
    forall c: Class | AppKey(a, c) in w.apps :: w.apps[AppKey(a, c)].direction == d && Canonical(w.apps[AppKey(a, c)].objects)
  }

  lemma {:induction false} AgreesSame(v: Work, f: Frame, d: bool)
    requires Agrees(v, f.address, d) && f.Forward() == d
    requires f.address in v.transport ==> v.transport[f.address].direction == d
    ensures SameDirection(v, f)
  {
    hide Canonical;
  }

  /** Every frame but the last leaves its bytes waiting and changes nothing else. */
  lemma {:induction false} TrainAdvances(w: Work, fs: seq<Frame>, a: Address, d: bool, base: int, limits: Limits, rules: LinkRules, k: nat)
    requires Train(fs, a, d, rules) && Nonempty(fs) && Room(w, fs, limits) && a !in w.transport && Agrees(w, a, d) && k < |fs|
    ensures AcceptAll(w, fs, base, limits, rules, k).Ok?
    ensures var v := AcceptAll(w, fs, base, limits, rules, k).value;
            Untouched(w, v, fs, a, k) && (if k == 0 then v == w else Holding(w, v, fs, a, d, k))
  {
    hide Train, Holding, AcceptFrame, Untouched, Cargo, Segment, Agrees, Grown, FinishSegment;
    if k == 0 {
      UntouchedNothing(w, fs, a);
    } else {
      TrainAdvances(w, fs, a, d, base, limits, rules, k - 1);
      var v := AcceptAll(w, fs, base, limits, rules, k - 1).value;
      var t := TrainStep(w, v, fs, a, d, base, limits, rules, k - 1);
      TrainFacts(fs, a, d, rules, k - 1);
      StoredHolds(w, v, t, fs, a, d, k, base + fs[k - 1].start, limits, rules);
    }
  }

  lemma {:induction false} UntouchedNothing(w: Work, fs: seq<Frame>, a: Address)
    ensures Untouched(w, w, fs, a, 0)
  {
    assert w.out.frames + fs[..0] == w.out.frames;
  }

  lemma {:induction false} TrainStep(w: Work, v: Work, fs: seq<Frame>, a: Address, d: bool, base: int, limits: Limits, rules: LinkRules, k: nat)
      returns (t: Assembly)
    requires Train(fs, a, d, rules) && Nonempty(fs) && Room(w, fs, limits) && a !in w.transport && Agrees(w, a, d) && k < |fs|
    requires Untouched(w, v, fs, a, k) && (if k == 0 then v == w else Holding(w, v, fs, a, d, k))
    ensures Grown(w, t, fs, d, k)
    ensures AcceptFrame(v, fs[k], base + fs[k].start, limits, rules) == FinishSegment(PushFrame(v, fs[k]), t, fs[k], base + fs[k].start, limits)
  {
    hide Train, AcceptFrame, Cargo, Segment, Grown, FinishSegment, Carries, Canonical;
    var f, at := fs[k], base + fs[k].start;
    TrainFacts(fs, a, d, rules, k);
    CarriesData(f, a, d, rules);
    AgreesSame(v, f, d);
    AcceptIsSegment(v, f, a, d, at, limits, rules);
    var pushed := PushFrame(v, f);
    SegmentGrows(w, pushed, fs, a, d, k, at, limits, rules);
    t :| Grown(w, t, fs, d, k) && Segment(pushed, f, |w.out.frames| + k, at, limits) == FinishSegment(pushed, t, f, at, limits);
  }

  lemma {:induction false} StoredHolds(w: Work, v: Work, t: Assembly, fs: seq<Frame>, a: Address, d: bool, k: nat, at: int, limits: Limits, rules: LinkRules)
    requires 0 < k < |fs| && Nonempty(fs) && Untouched(w, v, fs, a, k - 1) && Grown(w, t, fs, d, k - 1)
    requires fs[k - 1].address == a && !Last(fs[k - 1].userData.data[0])
    ensures var r := FinishSegment(PushFrame(v, fs[k - 1]), t, fs[k - 1], at, limits);
            r.Ok? && Untouched(w, r.value, fs, a, k) && Holding(w, r.value, fs, a, d, k)
  {
    hide Cargo, Canonical, Last, Sequence, Ids, Complete;
    assert fs[..k] == fs[..k - 1] + [fs[k - 1]];
    assert (w.out.frames + fs[..k - 1]) + [fs[k - 1]] == w.out.frames + fs[..k];
  }

  // ---------------------------------------------------------------- the last frame

  /** The cargo is an application fragment: control, function, and for responses the indications. */
  predicate IsFragment(raw: seq<byte>) {
    |raw| >= 2 && |raw| >= HeaderLength(raw[1])
  }

  lemma {:induction false} ParsesFragment(t: Assembly, a: Address)
    requires Canonical(t.bytes)
    ensures ParseFragment(t, a).Ok? <==> IsFragment(t.bytes.data)
    ensures ParseFragment(t, a).Ok? ==>
              var f, raw := ParseFragment(t, a).value, t.bytes.data;
              && f.raw == t.bytes && f.address == a && f.frames == t.frames && f.accepted == t.accepted
              && f.control == raw[0] && f.function_ == raw[1] && f.class_ == ClassOf(raw[1], (raw[0] / 16) % 2 == 1)
              && f.objects.data == raw[HeaderLength(raw[1])..] && Canonical(f.objects)
  {
    hide Tiled, Coalesced, SliceSpans, Canonical, View, ClassOf;
    if IsFragment(t.bytes.data) {
      SliceView(t.bytes, HeaderLength(t.bytes.data[1]), |t.bytes.data|);
    }
  }

  /** The fragment the train delivers. */
  ghost predicate Delivered(w: Work, f: Fragment, fs: seq<Frame>, a: Address)
    requires Nonempty(fs)
  {
    var raw := Cargo(fs, |fs|);
    && IsFragment(raw) && f.raw.data == raw && f.address == a && f.frames == Ids(|w.out.frames|, |fs|) && f.accepted == f.frames
    && f.control == raw[0] && f.function_ == raw[1] && f.class_ == ClassOf(raw[1], (raw[0] / 16) % 2 == 1)
    && f.objects.data == raw[HeaderLength(raw[1])..] && Canonical(f.objects)
  }

  /** Emitting and joining messages touch neither frames nor fragments nor transport. */
  ghost predicate SameBelow(w: Work, v: Work) {
    v.out.fragments == w.out.fragments && v.out.frames == w.out.frames && v.transport == w.transport
  }

  lemma {:induction false} EmitSame(w: Work, key: AppKey, complete: bool, limits: Limits)
    ensures EmitIfOpen(w, key, complete, limits).Ok? ==> SameBelow(w, EmitIfOpen(w, key, complete, limits).value)
  {
  }

  lemma {:induction false} ReportSame(w: Work, code: IssueCode, packets: set<PacketId>, at: int, limits: Limits)
    ensures Report(w, code, packets, at, limits).Ok? ==>
              SameBelow(w, Report(w, code, packets, at, limits).value) && Report(w, code, packets, at, limits).value.apps == w.apps
  {
  }

  lemma {:induction false} JoinSame(w: Work, f: Fragment, id: nat, key: AppKey, d: bool, packets: set<PacketId>, at: int, limits: Limits)
    ensures var r := JoinMessage(w, f, id, key, d, packets, at, limits);
            r.Ok? ==> SameBelow(w, r.value)
  {
    hide ExtendApp, Continues, Report, OpenApp;
    EmitSame(w, key, false, limits);
    ReportSame(w, OrphanFragment, packets, at, limits);
    ReportSame(w, FragmentGap, packets, at, limits);
    if Report(w, FragmentGap, packets, at, limits).Ok? {
      EmitSame(Report(w, FragmentGap, packets, at, limits).value, key, false, limits);
    }
  }

  /** A new fragment is stored whatever becomes of its message, unless joining its objects exceeds their budget. */
  lemma {:induction false} AddStores(w: Work, f: Fragment, d: bool, at: int, limits: Limits)
    ensures var r := AddFragment(w, f, d, at, limits);
            r.Ok? ==> r.value.out.fragments == w.out.fragments + [f] && r.value.out.frames == w.out.frames && r.value.transport == w.transport
  {
    hide FramePackets, JoinMessage, EmitIfOpen, Report;
    var r := AddFragment(w, f, d, at, limits);
    if r.Ok? {
      var id, key := |w.out.fragments|, AppKey(f.address, f.class_);
      var packets := FramePackets(w.out.frames, f.frames);
      ReportSame(w, UnsupportedApplicationFunction, packets, at, limits);
      var w1 := ReportIf(f.class_ == UnknownClass, w, UnsupportedApplicationFunction, packets, at, limits).value;
      var w2 := w1.(out := w1.out.(fragments := w1.out.fragments + [f]));
      JoinSame(w2, f, id, key, d, packets, at, limits);
      EmitSame(JoinMessage(w2, f, id, key, d, packets, at, limits).value, key, true, limits);
    }
  }

  /** Joining this fragment to the message it continues would exceed the object budget. */
  ghost predicate Overflows(w: Work, f: Fragment, limits: Limits) {
    var key := AppKey(f.address, f.class_);
    && !f.First() && key in w.apps && Continues(w.apps[key], f)
    && |w.apps[key].objects.data| + |f.objects.data| > Min(limits.maxApplicationBytes, USIZE_MAX)
  }

  /** Room for a fragment, the two issues it may raise and the two messages it may end. */
  ghost predicate Slack(w: Work, limits: Limits) {
    && |w.out.fragments| < limits.maxProtocolMessages && |w.out.issues| + 1 < limits.maxProtocolMessages
    && |w.out.messages| + 1 < limits.maxProtocolMessages
  }

  /** With room in every other budget, only the objects of a continued message can be too many. */
  lemma {:induction false} AddSucceeds(w: Work, f: Fragment, d: bool, at: int, limits: Limits)
    requires Slack(w, limits) && Canonical(f.objects) && Agrees(w, f.address, d)
    ensures AddFragment(w, f, d, at, limits).Ok? <==> !Overflows(w, f, limits)
  {
    hide FramePackets, Continues, Canonical, AppendSpans;
    var key := AppKey(f.address, f.class_);
    if key in w.apps {
      AppendFits(w.apps[key].objects, f.objects, limits.maxApplicationBytes);
    }
  }

  lemma {:induction false} AppendFits(e: Evidence, f: Evidence, limit: nat)
    requires Canonical(e) && Canonical(f)
    ensures Append(e, f, limit).Ok? <==> |e.data| + |f.data| <= Min(limit, USIZE_MAX)
  {
    hide Tiled, Coalesced, AppendSpans;
  }

  /** A fragment with FIR and FIN is a whole message by itself. */
  lemma {:induction false} WholeMessage(w: Work, f: Fragment, d: bool, at: int, limits: Limits)
    requires f.First() && f.Final() && Slack(w, limits)
    ensures var r := AddFragment(w, f, d, at, limits);
            && r.Ok? && r.value.out.messages != []
            && var m := r.value.out.messages[|r.value.out.messages| - 1];
               m.complete && m.fragments == [|w.out.fragments|] && m.objects == f.objects && m.address == f.address && m.function_ == f.function_
  {
    hide FramePackets, ExtendApp, Continues;
  }

  function WithFrames(w: Work, fs: seq<Frame>): Work {
    w.(out := w.out.(frames := w.out.frames + fs))
  }

  /** Accepting a train is adding the one fragment it carries. */
  lemma {:induction false} TrainArrives(w: Work, fs: seq<Frame>, a: Address, d: bool, base: int, limits: Limits, rules: LinkRules)
      returns (g: Fragment)
    requires Train(fs, a, d, rules) && Nonempty(fs) && Room(w, fs, limits) && a !in w.transport && Agrees(w, a, d)
    requires IsFragment(Cargo(fs, |fs|))
    ensures fs != [] && Delivered(w, g, fs, a)
    ensures AcceptAll(w, fs, base, limits, rules, |fs|) == AddFragment(WithFrames(w, fs), g, d, base + fs[|fs| - 1].start, limits)
  {
    hide Train, Holding, AcceptFrame, Cargo, Agrees, AddFragment, Canonical, Ids, ParseFragment, IsFragment, ClassOf;
    var n := |fs| - 1;
    TrainNonempty(fs, a, d, rules);
    TrainAdvances(w, fs, a, d, base, limits, rules, n);
    var v := AcceptAll(w, fs, base, limits, rules, n).value;
    var t := TrainStep(w, v, fs, a, d, base, limits, rules, n);
    TrainFacts(fs, a, d, rules, n);
    CarriesData(fs[n], a, d, rules);
    ParsesFragment(t, a);
    FragmentBytes(Cargo(fs, |fs|));
    g := ParseFragment(t, a).value;
    LastFrame(w, v, fs, a);
  }

  lemma {:induction false} LastFrame(w: Work, v: Work, fs: seq<Frame>, a: Address)
    requires fs != [] && Untouched(w, v, fs, a, |fs| - 1) && a !in w.transport
    ensures var pushed := PushFrame(v, fs[|fs| - 1]);
            pushed.(transport := pushed.transport - {a}) == WithFrames(w, fs)
  {
    var n := |fs| - 1;
    assert fs == fs[..n] + [fs[n]];
    assert (w.out.frames + fs[..n]) + [fs[n]] == w.out.frames + fs;
    assert w.transport - {a} == w.transport;
  }

  /**
   A train of frames that carries an application fragment delivers it. It fails only when the fragment
   continues a message whose objects would then exceed their budget; otherwise exactly one fragment with
   exactly the carried bytes is put out, and one with FIR and FIN is a complete message at once.
   */
  lemma {:induction false} TrainDelivers(w: Work, fs: seq<Frame>, a: Address, d: bool, base: int, limits: Limits, rules: LinkRules)
      returns (g: Fragment)
    requires Train(fs, a, d, rules) && Nonempty(fs) && Room(w, fs, limits) && Slack(w, limits) && a !in w.transport && Agrees(w, a, d)
    requires IsFragment(Cargo(fs, |fs|))
    ensures Delivered(w, g, fs, a)
    ensures var r := AcceptAll(w, fs, base, limits, rules, |fs|);
            && (r.Ok? <==> !Overflows(w, g, limits))
            && (r.Ok? ==> r.value.out.fragments == w.out.fragments + [g] && r.value.out.frames == w.out.frames + fs
                          && r.value.transport == w.transport)
            && (g.First() && g.Final() ==>
                  && r.Ok? && r.value.out.messages != []
                  && var m := r.value.out.messages[|r.value.out.messages| - 1];
                     m.complete && m.fragments == [|w.out.fragments|] && m.objects == g.objects && m.address == a && m.function_ == g.function_)
  {
    hide Train, AcceptFrame, AcceptAll, Cargo, AddFragment, Canonical, Ids, IsFragment, ClassOf, Continues;
    g := TrainArrives(w, fs, a, d, base, limits, rules);
    var w1, at := WithFrames(w, fs), base + fs[|fs| - 1].start;
    AddSucceeds(w1, g, d, at, limits);
    AddStores(w1, g, d, at, limits);
    if g.First() && g.Final() {
      WholeMessage(w1, g, d, at, limits);
    }
  }

  lemma {:induction false} TrainNonempty(fs: seq<Frame>, a: Address, d: bool, rules: LinkRules)
    requires Train(fs, a, d, rules)
    ensures fs != []
  {
    hide Carries;
  }

  lemma {:induction false} FragmentBytes(raw: seq<byte>)
    requires IsFragment(raw)
    ensures |raw| >= 2 && HeaderLength(raw[1]) <= |raw|
  {
  }

  // ---------------------------------------------------------------- fragments of one message

  /** The fragments of one message in order: FIR first, FIN last, sequence numbers consecutive. */
  ghost predicate Convoy(fs: seq<Fragment>, key: AppKey) {
    && fs != []
    && (forall i | 0 <= i < |fs| :: AppKey(fs[i].address, fs[i].class_) == key && fs[i].function_ == fs[0].function_ && Canonical(fs[i].objects))
    && (forall i | 0 <= i < |fs| :: fs[i].First() <==> i == 0)
    && (forall i | 0 <= i < |fs| :: fs[i].Final() <==> i == |fs| - 1)
    && (forall i | 0 < i < |fs| :: fs[i].SequenceNumber() == NextFragment(fs[i - 1].SequenceNumber()))
  }

  function ObjectBytes(fs: seq<Fragment>, k: nat): seq<byte>
    requires k <= |fs|
  {
    if k == 0 then [] else ObjectBytes(fs, k - 1) + fs[k - 1].objects.data
  }

  function AddAll(w: Work, fs: seq<Fragment>, d: bool, at: int, limits: Limits, k: nat): Result<Work>
    requires k <= |fs|
  {
    if k == 0 then Ok(w)
    else
      var before :- AddAll(w, fs, d, at, limits, k - 1);
      AddFragment(before, fs[k - 1], d, at, limits)
  }

  /** Budgets with room for the fragments and their message; a supported function reports no issue. */
  ghost predicate Space(w: Work, fs: seq<Fragment>, key: AppKey, limits: Limits) {
    && |w.out.fragments| + |fs| <= limits.maxProtocolMessages && |w.out.messages| + 1 < limits.maxProtocolMessages
    && |ObjectBytes(fs, |fs|)| <= Min(limits.maxApplicationBytes, USIZE_MAX) && key.class_ != UnknownClass
  }

  /** The open message after k fragments. */
  ghost predicate Under(w: Work, v: Work, fs: seq<Fragment>, key: AppKey, k: nat)
    requires k <= |fs|
  {
    && 0 < k && key in v.apps && v.out.fragments == w.out.fragments + fs[..k]
    && |v.out.messages| <= |w.out.messages| + 1
    && var a := v.apps[key];
       && a.function_ == fs[0].function_ && a.lastSequence == fs[k - 1].SequenceNumber() && a.firstSequence == fs[0].SequenceNumber()
       && a.fragments == Ids(|w.out.fragments|, k) && Canonical(a.objects) && a.objects.data == ObjectBytes(fs, k)
       && a.address == key.address
  }

  lemma {:induction false} ObjectsBelow(fs: seq<Fragment>, k: nat)
    requires k <= |fs|
    ensures |ObjectBytes(fs, k)| <= |ObjectBytes(fs, |fs|)|
    decreases |fs| - k
  {
    if k < |fs| {
      ObjectsBelow(fs, k + 1);
    }
  }

  lemma {:induction false} ObjectsNext(fs: seq<Fragment>, k: nat)
    requires k < |fs|
    ensures ObjectBytes(fs, k + 1) == ObjectBytes(fs, k) + fs[k].objects.data && ObjectBytes(fs, 0) == []
  {
  }

  lemma {:induction false} FirstJoins(w: Work, f: Fragment, d: bool, at: int, limits: Limits)
    requires f.First() && f.class_ != UnknownClass && |w.out.fragments| < limits.maxProtocolMessages
    requires |w.out.messages| + 1 < limits.maxProtocolMessages
    ensures var id, key := |w.out.fragments|, AppKey(f.address, f.class_);
            var packets := FramePackets(w.out.frames, f.frames);
            var w2 := w.(out := w.out.(fragments := w.out.fragments + [f]));
            var r := JoinMessage(w2, f, id, key, d, packets, at, limits);
            && r.Ok? && key in r.value.apps && r.value.apps[key] == OpenApp(f, id, d, packets)
            && r.value.out.fragments == w.out.fragments + [f] && |r.value.out.messages| <= |w.out.messages| + 1
            && AddFragment(w, f, d, at, limits) == if f.Final() then Emit(r.value, key, true, limits) else r
  {
    hide FramePackets, OpenApp;
  }

  lemma {:induction false} NextJoins(v: Work, f: Fragment, d: bool, at: int, limits: Limits)
    requires var key := AppKey(f.address, f.class_);
             key in v.apps && Continues(v.apps[key], f) && Canonical(v.apps[key].objects)
             && |v.apps[key].objects.data| + |f.objects.data| <= Min(limits.maxApplicationBytes, USIZE_MAX)
    requires !f.First() && f.class_ != UnknownClass && |v.out.fragments| < limits.maxProtocolMessages && Canonical(f.objects)
    ensures var id, key := |v.out.fragments|, AppKey(f.address, f.class_);
            var a := ExtendApp(v.apps[key], f, id, FramePackets(v.out.frames, f.frames), limits);
            && a.Ok? && Canonical(a.value.objects) && a.value.objects.data == v.apps[key].objects.data + f.objects.data
            && a.value.fragments == v.apps[key].fragments + [id] && a.value.lastSequence == f.SequenceNumber()
            && a.value == v.apps[key].(lastSequence := a.value.lastSequence, fragments := a.value.fragments,
                                       packets := a.value.packets, objects := a.value.objects)
            && var w3 := v.(out := v.out.(fragments := v.out.fragments + [f]), apps := v.apps[key := a.value]);
               AddFragment(v, f, d, at, limits) == if f.Final() then Emit(w3, key, true, limits) else Ok(w3)
  {
    hide FramePackets, Append, Canonical;
    var key := AppKey(f.address, f.class_);
    AppendData(v.apps[key].objects, f.objects, limits.maxApplicationBytes);
  }

  /** Every fragment but the last leaves the message open with everything so far in it. */
  lemma {:induction false} ConvoyAdvances(w: Work, fs: seq<Fragment>, key: AppKey, d: bool, at: int, limits: Limits, k: nat)
    requires Convoy(fs, key) && Space(w, fs, key, limits) && 0 < k < |fs|
    ensures AddAll(w, fs, d, at, limits, k).Ok? && Under(w, AddAll(w, fs, d, at, limits, k).value, fs, key, k)
  {
    hide AddFragment, Canonical, ObjectBytes, Ids, FramePackets, Append;
    ObjectsNext(fs, k - 1);
    IdsNext(|w.out.fragments|, k - 1);
    assert fs[..k] == fs[..k - 1] + [fs[k - 1]];
    var f := fs[k - 1];
    if k == 1 {
      hide JoinMessage, Emit;
      FirstJoins(w, f, d, at, limits);
      assert fs[..1] == [f] && [] + f.objects.data == f.objects.data;
      assert AddAll(w, fs, d, at, limits, 0) == Ok(w);
      assert [] + [|w.out.fragments|] == [|w.out.fragments|];
    } else {
      ConvoyAdvances(w, fs, key, d, at, limits, k - 1);
      var v := AddAll(w, fs, d, at, limits, k - 1).value;
      ObjectsBelow(fs, k);
      hide ExtendApp;
      NextJoins(v, f, d, at, limits);
      assert (w.out.fragments + fs[..k - 1]) + [f] == w.out.fragments + fs[..k];
    }
  }

  /** The fragments of a message, added in order, come out as one complete message with all their objects. */
  lemma {:induction false} ConvoyDelivers(w: Work, fs: seq<Fragment>, key: AppKey, d: bool, at: int, limits: Limits)
    requires Convoy(fs, key) && Space(w, fs, key, limits)
    ensures var r := AddAll(w, fs, d, at, limits, |fs|);
            && r.Ok? && r.value.out.messages != [] && key !in r.value.apps
            && var m := r.value.out.messages[|r.value.out.messages| - 1];
               && m.complete && m.address == key.address && m.function_ == fs[0].function_
               && m.firstSequence == fs[0].SequenceNumber()
               && m.fragments == Ids(|w.out.fragments|, |fs|) && m.objects.data == ObjectBytes(fs, |fs|)
  {
    hide AddFragment, Canonical, ObjectBytes, Ids, FramePackets, Append, JoinMessage, ExtendApp;
    var n := |fs|;
    var f := fs[n - 1];
    ObjectsNext(fs, n - 1);
    IdsNext(|w.out.fragments|, n - 1);
    if n == 1 {
      FirstJoins(w, f, d, at, limits);
      assert AddAll(w, fs, d, at, limits, 0) == Ok(w);
      assert [] + f.objects.data == f.objects.data && [] + [|w.out.fragments|] == [|w.out.fragments|];
    } else {
      ConvoyAdvances(w, fs, key, d, at, limits, n - 1);
      var v := AddAll(w, fs, d, at, limits, n - 1).value;
      NextJoins(v, f, d, at, limits);
    }
  }
}
