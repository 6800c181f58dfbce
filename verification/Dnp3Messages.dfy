/** Whole messages: however a message is split into fragments and frames, in order it comes out as sent. */
module Dnp3Messages {
  import opened Common
  import opened Provenance
  import opened Dnp3Model
  import opened Dnp3Transport
  import opened Dnp3Delivery

  /** What the frames of one fragment carry. */
  function RawOf(fs: seq<Frame>): seq<byte>
    requires Nonempty(fs)
  {
    Cargo(fs, |fs|)
  }

  /** The frames of one fragment of this class. */
  ghost predicate Part(fs: seq<Frame>, key: AppKey, d: bool, rules: LinkRules) {
    && Nonempty(fs) && Train(fs, key.address, d, rules) && IsFragment(RawOf(fs))
    && ClassOf(RawOf(fs)[1], (RawOf(fs)[0] / 16) % 2 == 1) == key.class_
  }

  ghost predicate AllParts(ts: seq<seq<Frame>>, key: AppKey, d: bool, rules: LinkRules) {
    forall i | 0 <= i < |ts| :: Part(ts[i], key, d, rules)
  }

  /** The flags and sequence number of fragment i of n, behind a fragment with this header. */
  predicate InPlace(control: byte, before: byte, i: nat, n: nat) {
    && (control / 128 == 1 <==> i == 0) && ((control / 64) % 2 == 1 <==> i == n - 1)
    && (i > 0 ==> control % 16 == NextFragment(before % 16))
  }

  /** The frames of one message: FIR on its first fragment, FIN on its last, numbers consecutive. */
  ghost predicate Sends(ts: seq<seq<Frame>>, key: AppKey, d: bool, rules: LinkRules) {
    && ts != [] && key.class_ != UnknownClass && AllParts(ts, key, d, rules)
    && (forall i | 0 <= i < |ts| :: Headed(ts, i))
  }

  ghost predicate Headed(ts: seq<seq<Frame>>, i: nat) {
    && i < |ts| && Nonempty(ts[0]) && Nonempty(ts[i]) && IsFragment(RawOf(ts[0])) && IsFragment(RawOf(ts[i]))
    && RawOf(ts[i])[1] == RawOf(ts[0])[1]
    && (i > 0 ==> Nonempty(ts[i - 1]) && IsFragment(RawOf(ts[i - 1])))
    && InPlace(RawOf(ts[i])[0], if i > 0 then RawOf(ts[i - 1])[0] else 0, i, |ts|)
  }

  function Flat(ts: seq<seq<Frame>>, k: nat): seq<Frame>
    requires k <= |ts|
  {
    if k == 0 then [] else Flat(ts, k - 1) + ts[k - 1]
  }

  function ObjectsIn(raw: seq<byte>): seq<byte> {
    if IsFragment(raw) then raw[HeaderLength(raw[1])..] else []
  }

  /** The objects of the first k fragments. */
  function Sent(ts: seq<seq<Frame>>, k: nat): seq<byte>
    requires k <= |ts| && forall i | 0 <= i < |ts| :: Nonempty(ts[i])
  {
    if k == 0 then [] else Sent(ts, k - 1) + ObjectsIn(RawOf(ts[k - 1]))
  }

  lemma {:induction false} PartsNonempty(ts: seq<seq<Frame>>, key: AppKey, d: bool, rules: LinkRules)
    requires AllParts(ts, key, d, rules)
    ensures forall i | 0 <= i < |ts| :: Nonempty(ts[i])
  {
    hide Nonempty;
    forall i | 0 <= i < |ts| ensures Nonempty(ts[i]) {
      PartTrain(ts[i], key, d, rules);
    }
  }

  lemma {:induction false} PartTrain(fs: seq<Frame>, key: AppKey, d: bool, rules: LinkRules)
    requires Part(fs, key, d, rules)
    ensures Nonempty(fs) && Train(fs, key.address, d, rules) && IsFragment(RawOf(fs)) && |RawOf(fs)| >= 2
    ensures ClassOf(RawOf(fs)[1], (RawOf(fs)[0] / 16) % 2 == 1) == key.class_
  {
    hide Train, Nonempty, Cargo;
  }

  // ---------------------------------------------------------------- one message

  /** Budgets for the frames, fragments and objects of a message. */
  ghost predicate Affords(w: Work, ts: seq<seq<Frame>>, limits: Limits)
    requires forall i | 0 <= i < |ts| :: Nonempty(ts[i])
  {
    && |w.out.frames| + |Flat(ts, |ts|)| <= limits.maxProtocolMessages && |w.out.fragments| + |ts| <= limits.maxProtocolMessages
    && |w.out.messages| < limits.maxProtocolMessages
    && Fit(ts, limits)
  }

  /** Each fragment and all objects together stay within the application budget. */
  ghost predicate Fit(ts: seq<seq<Frame>>, limits: Limits)
    requires forall i | 0 <= i < |ts| :: Nonempty(ts[i])
  {
    && (forall i | 0 <= i < |ts| :: |RawOf(ts[i])| <= Min(limits.maxApplicationBytes, USIZE_MAX))
    && |Sent(ts, |ts|)| <= Min(limits.maxApplicationBytes, USIZE_MAX)
  }

  /** The open message after k fragments. */
  ghost predicate Gathered(x: App, ts: seq<seq<Frame>>, key: AppKey, d: bool, first: nat, k: nat)
    requires k <= |ts| && forall i | 0 <= i < |ts| :: Nonempty(ts[i])
  {
    && 0 < k && Headed(ts, k - 1) && Headed(ts, 0)
    && x.address == key.address && x.class_ == key.class_ && x.direction == d && x.function_ == RawOf(ts[0])[1]
    && x.firstSequence == RawOf(ts[0])[0] % 16 && x.lastSequence == RawOf(ts[k - 1])[0] % 16
    && x.fragments == Ids(first, k) && Canonical(x.objects) && x.objects.data == Sent(ts, k)
  }

  /** After k fragments only frames and fragments were put out, and only this message is open. */
  ghost predicate Riding(w: Work, v: Work, ts: seq<seq<Frame>>, key: AppKey, d: bool, k: nat)
    requires k <= |ts| && forall i | 0 <= i < |ts| :: Nonempty(ts[i])
  {
    && key in v.apps && v.apps == w.apps[key := v.apps[key]] && v.transport == w.transport && v.runStart == w.runStart
    && v.out == w.out.(frames := w.out.frames + Flat(ts, k), fragments := v.out.fragments)
    && |v.out.fragments| == |w.out.fragments| + k
    && Gathered(v.apps[key], ts, key, d, |w.out.fragments|, k)
  }

  lemma {:induction false} SentBelow(ts: seq<seq<Frame>>, k: nat)
    requires k <= |ts| && forall i | 0 <= i < |ts| :: Nonempty(ts[i])
    ensures |Sent(ts, k)| <= |Sent(ts, |ts|)| && |Flat(ts, k)| <= |Flat(ts, |ts|)|
    decreases |ts| - k
  {
    hide RawOf, ObjectsIn;
    if k < |ts| {
      SentBelow(ts, k + 1);
    }
  }

  lemma {:induction false} SentNext(ts: seq<seq<Frame>>, k: nat)
    requires k < |ts| && forall i | 0 <= i < |ts| :: Nonempty(ts[i])
    ensures Sent(ts, k + 1) == Sent(ts, k) + ObjectsIn(RawOf(ts[k])) && Sent(ts, 0) == []
    ensures Flat(ts, k + 1) == Flat(ts, k) + ts[k] && Flat(ts, 0) == []
  {
    hide RawOf, ObjectsIn;
  }

  /** A first fragment opens its message, and alone may complete it. */
  lemma {:induction false} OpensMessage(w: Work, f: Fragment, d: bool, at: int, limits: Limits)
    requires f.First() && f.class_ != UnknownClass && |w.out.fragments| < limits.maxProtocolMessages
    requires AppKey(f.address, f.class_) !in w.apps
    ensures var id, key := |w.out.fragments|, AppKey(f.address, f.class_);
            var v := w.(out := w.out.(fragments := w.out.fragments + [f]),
                        apps := w.apps[key := OpenApp(f, id, d, FramePackets(w.out.frames, f.frames))]);
            AddFragment(w, f, d, at, limits) == if f.Final() then Emit(v, key, true, limits) else Ok(v)
  {
    hide FramePackets, OpenApp;
  }

  /** The first fragment, if its message stays open behind it. */
  lemma {:induction false} FirstRides(w: Work, ts: seq<seq<Frame>>, key: AppKey, d: bool, g: Fragment, at: int, limits: Limits)
      returns (u: Work)
    requires ts != [] && (forall i | 0 <= i < |ts| :: Nonempty(ts[i])) && |w.out.fragments| < limits.maxProtocolMessages
    requires key !in w.apps && key.class_ != UnknownClass && Headed(ts, 0)
    requires Delivered(w, g, ts[0], key.address) && g.class_ == key.class_
    ensures Riding(w, u, ts, key, d, 1)
    ensures AddFragment(WithFrames(w, ts[0]), g, d, at, limits) == if |ts| == 1 then Emit(u, key, true, limits) else Ok(u)
  {
    hide Canonical, RawOf, Sent, Flat, AddFragment, FramePackets, Append, Emit, ClassOf, Ids, Nonempty;
    SentNext(ts, 0);
    IdsNext(|w.out.fragments|, 0);
    RawIs(ts[0]);
    var x, id := WithFrames(w, ts[0]), |w.out.fragments|;
    HeaderFlags(g, ts, 0);
    OpensMessage(x, g, d, at, limits);
    u := x.(out := x.out.(fragments := x.out.fragments + [g]),
            apps := x.apps[key := OpenApp(g, id, d, FramePackets(x.out.frames, g.frames))]);
    assert [] + ts[0] == ts[0] && [] + g.objects.data == g.objects.data && [] + [id] == [id];
  }

  /** A further fragment, if the message stays open behind it. */
  lemma {:induction false} NextRides(w: Work, v: Work, ts: seq<seq<Frame>>, key: AppKey, d: bool, k: nat, g: Fragment, at: int, limits: Limits)
      returns (u: Work)
    requires 0 < k < |ts| && (forall i | 0 <= i < |ts| :: Nonempty(ts[i])) && Affords(w, ts, limits)
    requires key.class_ != UnknownClass && Riding(w, v, ts, key, d, k) && Headed(ts, k)
    requires Delivered(v, g, ts[k], key.address) && g.class_ == key.class_
    ensures Riding(w, u, ts, key, d, k + 1)
    ensures AddFragment(WithFrames(v, ts[k]), g, d, at, limits) == if k == |ts| - 1 then Emit(u, key, true, limits) else Ok(u)
  {
    hide Canonical, RawOf, Sent, Flat, AddFragment, FramePackets, Append, Emit, Continues, ClassOf, Ids, Nonempty, ExtendApp;
    SentNext(ts, k);
    SentBelow(ts, k + 1);
    IdsNext(|w.out.fragments|, k);
    RawIs(ts[k]);
    var x, id := WithFrames(v, ts[k]), |v.out.fragments|;
    HeaderFlags(g, ts, k);
    ContinuesIn(x.apps[key], g, ts, key, d, |w.out.fragments|, k);
    NextJoins(x, g, d, at, limits);
    var a := ExtendApp(x.apps[key], g, id, FramePackets(x.out.frames, g.frames), limits).value;
    u := x.(out := x.out.(fragments := x.out.fragments + [g]), apps := x.apps[key := a]);
    assert (w.out.frames + Flat(ts, k)) + ts[k] == w.out.frames + Flat(ts, k + 1);
  }

  lemma {:induction false} RawIs(fs: seq<Frame>)
    requires Nonempty(fs)
    ensures RawOf(fs) == Cargo(fs, |fs|)
  {
  }

  lemma {:induction false} HeaderFlags(g: Fragment, ts: seq<seq<Frame>>, k: nat)
    requires Headed(ts, k) && g.control == RawOf(ts[k])[0]
    ensures (g.First() <==> k == 0) && (g.Final() <==> k == |ts| - 1) && g.SequenceNumber() == RawOf(ts[k])[0] % 16
  {
    hide RawOf, Nonempty;
  }

  lemma {:induction false} ContinuesIn(x: App, g: Fragment, ts: seq<seq<Frame>>, key: AppKey, d: bool, first: nat, k: nat)
    requires 0 < k < |ts| && (forall i | 0 <= i < |ts| :: Nonempty(ts[i])) && Gathered(x, ts, key, d, first, k)
    requires Headed(ts, k) && g.control == RawOf(ts[k])[0] && g.function_ == RawOf(ts[k])[1]
    ensures Continues(x, g)
  {
    hide RawOf, Nonempty, Canonical, Sent, Ids;
  }

  /** Everything a message needs from the state it arrives in. */
  ghost predicate Prepared(w: Work, ts: seq<seq<Frame>>, key: AppKey, d: bool, limits: Limits, rules: LinkRules) {
    && Sends(ts, key, d, rules) && (forall i | 0 <= i < |ts| :: Nonempty(ts[i])) && Affords(w, ts, limits)
    && key.address !in w.transport && key !in w.apps && Agrees(w, key.address, d)
  }

  lemma {:induction false} PreparedPart(w: Work, ts: seq<seq<Frame>>, key: AppKey, d: bool, limits: Limits, rules: LinkRules, k: nat)
    requires Prepared(w, ts, key, d, limits, rules) && k < |ts|
    ensures Part(ts[k], key, d, rules) && Headed(ts, k) && Headed(ts, 0) && key.class_ != UnknownClass
    ensures |w.out.fragments| < limits.maxProtocolMessages && |w.out.frames| + |Flat(ts, k)| + |ts[k]| <= limits.maxProtocolMessages
    ensures |RawOf(ts[k])| <= Min(limits.maxApplicationBytes, USIZE_MAX)
  {
    hide Part, Headed, RawOf, Nonempty, Sent, Agrees;
    SentNext(ts, k);
    SentBelow(ts, k + 1);
  }

  lemma {:induction false} RidingAgrees(w: Work, v: Work, ts: seq<seq<Frame>>, key: AppKey, d: bool, k: nat)
    requires k <= |ts| && (forall i | 0 <= i < |ts| :: Nonempty(ts[i])) && Riding(w, v, ts, key, d, k) && Agrees(w, key.address, d)
    ensures Agrees(v, key.address, d)
  {
    hide Nonempty, Headed, RawOf, Sent, Canonical, Flat;
  }

  /** Accepting the frames of fragment k, the message either stays open or is put out. */
  lemma {:induction false} FragmentRides(w: Work, ts: seq<seq<Frame>>, key: AppKey, d: bool, base: int, limits: Limits, rules: LinkRules, k: nat)
      returns (u: Work)
    requires Prepared(w, ts, key, d, limits, rules) && k < |ts|
    ensures Riding(w, u, ts, key, d, k + 1)
    ensures AcceptAll(w, Flat(ts, k + 1), base, limits, rules, |Flat(ts, k + 1)|) == if k == |ts| - 1 then Emit(u, key, true, limits) else Ok(u)
  {
    hide Nonempty, Train, RawOf, IsFragment, ClassOf, AcceptAll, Flat, Riding, Affords, AddFragment, Emit, Headed, Agrees, Delivered, Sends, Part;
    PreparedPart(w, ts, key, d, limits, rules, k);
    PartTrain(ts[k], key, d, rules);
    RawIs(ts[k]);
    SentNext(ts, k);
    if k == 0 {
      assert [] + ts[0] == ts[0];
      var g := TrainArrives(w, ts[0], key.address, d, base, limits, rules);
      DeliveredClass(w, g, ts[0], key);
      u := FirstRides(w, ts, key, d, g, base + ts[0][|ts[0]| - 1].start, limits);
    } else {
      var v := FragmentRides(w, ts, key, d, base, limits, rules, k - 1);
      RidingState(w, v, ts, key, d, k);
      RidingAgrees(w, v, ts, key, d, k);
      var g := TrainArrives(v, ts[k], key.address, d, base, limits, rules);
      DeliveredClass(v, g, ts[k], key);
      u := NextRides(w, v, ts, key, d, k, g, base + ts[k][|ts[k]| - 1].start, limits);
      AcceptJoin(w, Flat(ts, k), ts[k], base, limits, rules, |ts[k]|);
    }
  }

  lemma {:induction false} DeliveredClass(w: Work, g: Fragment, fs: seq<Frame>, key: AppKey)
    requires Nonempty(fs) && Delivered(w, g, fs, key.address) && |RawOf(fs)| >= 2
    requires ClassOf(RawOf(fs)[1], (RawOf(fs)[0] / 16) % 2 == 1) == key.class_
    ensures g.class_ == key.class_
  {
    hide Nonempty, Cargo, ClassOf, Canonical, Ids;
  }

  lemma {:induction false} RidingState(w: Work, v: Work, ts: seq<seq<Frame>>, key: AppKey, d: bool, k: nat)
    requires k <= |ts| && (forall i | 0 <= i < |ts| :: Nonempty(ts[i])) && Riding(w, v, ts, key, d, k)
    ensures v.transport == w.transport && v.out.frames == w.out.frames + Flat(ts, k)
  {
    hide Nonempty, Headed, RawOf, Sent, Canonical, Flat, Gathered;
  }

  /** The message as it was sent. */
  ghost predicate Told(m: Message, ts: seq<seq<Frame>>, key: AppKey, first: nat)
    requires forall i | 0 <= i < |ts| :: Nonempty(ts[i])
  {
    && m.complete && m.address == key.address && m.class_ == key.class_ && m.fragments == Ids(first, |ts|)
    && Headed(ts, 0) && m.function_ == RawOf(ts[0])[1] && m.firstSequence == RawOf(ts[0])[0] % 16
    && m.objects.data == Sent(ts, |ts|)
  }

  /** Only frames, fragments and this one message were put out; nothing else changed. */
  ghost predicate PutOut(w: Work, v: Work, ts: seq<seq<Frame>>, key: AppKey)
    requires forall i | 0 <= i < |ts| :: Nonempty(ts[i])
  {
    && |v.out.messages| == |w.out.messages| + 1 && Told(v.out.messages[|w.out.messages|], ts, key, |w.out.fragments|)
    && v == w.(out := w.out.(frames := w.out.frames + Flat(ts, |ts|), fragments := v.out.fragments,
                             messages := w.out.messages + [v.out.messages[|w.out.messages|]]))
    && |v.out.fragments| == |w.out.fragments| + |ts|
  }

  /** However a message is split into fragments and frames, accepting the frames puts out that message. */
  lemma {:induction false} MessageDelivers(w: Work, ts: seq<seq<Frame>>, key: AppKey, d: bool, base: int, limits: Limits, rules: LinkRules)
    requires Prepared(w, ts, key, d, limits, rules)
    ensures var r := AcceptAll(w, Flat(ts, |ts|), base, limits, rules, |Flat(ts, |ts|)|);
            r.Ok? && PutOut(w, r.value, ts, key)
  {
    hide Nonempty, AcceptAll, Flat, Headed, Agrees, Part, AllParts, RawOf, Sent, Ids, Canonical;
    var u := FragmentRides(w, ts, key, d, base, limits, rules, |ts| - 1);
    assert u.apps - {key} == w.apps;
  }

  // ---------------------------------------------------------------- many messages

  /** A message on the wire: its frames, fragment by fragment. */
  datatype Sending = Sending(trains: seq<seq<Frame>>, key: AppKey, direction: bool)

  ghost predicate Sound(s: Sending, limits: Limits, rules: LinkRules) {
    && Sends(s.trains, s.key, s.direction, rules) && (forall i | 0 <= i < |s.trains| :: Nonempty(s.trains[i]))
    && Fit(s.trains, limits)
  }

  ghost predicate AllSound(ss: seq<Sending>, limits: Limits, rules: LinkRules) {
    forall i | 0 <= i < |ss| :: Sound(ss[i], limits, rules)
  }

  /** All frames of the first k messages, in order. */
  function OnWire(ss: seq<Sending>, k: nat): seq<Frame>
    requires k <= |ss|
  {
    if k == 0 then [] else OnWire(ss, k - 1) + Flat(ss[k - 1].trains, |ss[k - 1].trains|)
  }

  function Fragments(ss: seq<Sending>, k: nat): nat
    requires k <= |ss|
  {
    if k == 0 then 0 else Fragments(ss, k - 1) + |ss[k - 1].trains|
  }

  ghost predicate ToldAs(m: Message, s: Sending, first: nat) {
    (forall i | 0 <= i < |s.trains| :: Nonempty(s.trains[i])) && Told(m, s.trains, s.key, first)
  }

  /** The output is exactly the first k messages, complete and in order, and nothing is open or reported. */
  ghost predicate AllTold(out: Output, ss: seq<Sending>, k: nat)
    requires k <= |ss|
  {
    && out.frames == OnWire(ss, k) && |out.fragments| == Fragments(ss, k) && out.issues == [] && out.rejected == []
    && |out.messages| == k && (forall i | 0 <= i < k :: ToldAs(out.messages[i], ss[i], Fragments(ss, i)))
  }

  lemma {:induction false} WireBelow(ss: seq<Sending>, k: nat)
    requires k <= |ss|
    ensures |OnWire(ss, k)| <= |OnWire(ss, |ss|)| && Fragments(ss, k) <= Fragments(ss, |ss|)
    decreases |ss| - k
  {
    hide Flat;
    if k < |ss| {
      WireBelow(ss, k + 1);
    }
  }

  /** Budgets for everything on the wire. */
  ghost predicate Suffices(ss: seq<Sending>, limits: Limits) {
    && |OnWire(ss, |ss|)| <= limits.maxProtocolMessages && Fragments(ss, |ss|) <= limits.maxProtocolMessages
    && |ss| <= limits.maxProtocolMessages
  }

  /** Nothing is open, and exactly the first k messages were put out. */
  ghost predicate Settled(v: Work, ss: seq<Sending>, k: nat)
    requires k <= |ss|
  {
    AllTold(v.out, ss, k) && v.transport == map[] && v.apps == map[] && v.runStart == 0
  }

  lemma {:induction false} WireNext(ss: seq<Sending>, k: nat)
    requires k < |ss|
    ensures OnWire(ss, k + 1) == OnWire(ss, k) + Flat(ss[k].trains, |ss[k].trains|) && OnWire(ss, 0) == []
    ensures Fragments(ss, k + 1) == Fragments(ss, k) + |ss[k].trains| && Fragments(ss, 0) == 0
  {
    hide Flat;
  }

  lemma {:induction false} FreshSettled(ss: seq<Sending>)
    ensures Settled(FRESH, ss, 0)
  {
    hide ToldAs;
  }

  lemma {:induction false} SettledPrepares(v: Work, ss: seq<Sending>, limits: Limits, rules: LinkRules, k: nat)
    requires k < |ss| && AllSound(ss, limits, rules) && Suffices(ss, limits) && Settled(v, ss, k)
    ensures Prepared(v, ss[k].trains, ss[k].key, ss[k].direction, limits, rules)
  {
    hide Flat, ToldAs, Sends, Fit, Nonempty, Canonical, OnWire, Fragments;
    WireBelow(ss, k + 1);
    WireNext(ss, k);
    assert Sound(ss[k], limits, rules);
  }

  lemma {:induction false} SettledNext(v: Work, u: Work, ss: seq<Sending>, k: nat)
    requires k < |ss| && Settled(v, ss, k)
    requires (forall i | 0 <= i < |ss[k].trains| :: Nonempty(ss[k].trains[i])) && PutOut(v, u, ss[k].trains, ss[k].key)
    ensures Settled(u, ss, k + 1)
  {
    hide Flat, Told, Nonempty;
    forall i | 0 <= i < k + 1 ensures ToldAs(u.out.messages[i], ss[i], Fragments(ss, i)) {
      if i < k {
        assert u.out.messages[i] == v.out.messages[i];
      }
    }
  }

  /** Messages sent one after another come out one after another. */
  lemma {:induction false} AllDelivered(ss: seq<Sending>, base: int, limits: Limits, rules: LinkRules, k: nat)
    requires k <= |ss| && AllSound(ss, limits, rules) && Suffices(ss, limits)
    ensures var r := AcceptAll(FRESH, OnWire(ss, k), base, limits, rules, |OnWire(ss, k)|);
            r.Ok? && Settled(r.value, ss, k)
  {
    hide AcceptAll, Flat, Settled, PutOut, AllSound, Suffices, Prepared, OnWire, Nonempty;
    if k == 0 {
      FreshSettled(ss);
      NoneOnWire(ss, base, limits, rules);
    } else {
      WireNext(ss, k - 1);
      AllDelivered(ss, base, limits, rules, k - 1);
      var before := OnWire(ss, k - 1);
      var v := AcceptAll(FRESH, before, base, limits, rules, |before|).value;
      var s := ss[k - 1];
      SettledPrepares(v, ss, limits, rules, k - 1);
      PreparedNonempty(v, s.trains, s.key, s.direction, limits, rules);
      MessageDelivers(v, s.trains, s.key, s.direction, base, limits, rules);
      var next := Flat(s.trains, |s.trains|);
      SettledNext(v, AcceptAll(v, next, base, limits, rules, |next|).value, ss, k - 1);
      AcceptJoin(FRESH, before, next, base, limits, rules, |next|);
    }
  }

  lemma {:induction false} NoneOnWire(ss: seq<Sending>, base: int, limits: Limits, rules: LinkRules)
    ensures AcceptAll(FRESH, OnWire(ss, 0), base, limits, rules, |OnWire(ss, 0)|) == Ok(FRESH)
  {
  }

  lemma {:induction false} PreparedNonempty(w: Work, ts: seq<seq<Frame>>, key: AppKey, d: bool, limits: Limits, rules: LinkRules)
    requires Prepared(w, ts, key, d, limits, rules)
    ensures forall i | 0 <= i < |ts| :: Nonempty(ts[i])
  {
    hide Sends, Agrees, Affords;
  }
}
