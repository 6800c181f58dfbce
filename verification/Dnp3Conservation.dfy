/** No application fragment is lost or used twice: each one with FIR ends up in exactly one message. */
module Dnp3Conservation {
  import opened Common
  import opened Provenance
  import opened Dnp3Model
  import opened Dnp3Shape

  ghost predicate Apart(a: seq<nat>, b: seq<nat>) {
    forall x | x in a :: x !in b
  }

  ghost predicate Below(ids: seq<nat>, bound: nat) {
    forall x | x in ids :: x < bound
  }

  ghost predicate InMessage(out: Output, id: nat) {
    exists i | 0 <= i < |out.messages| :: id in out.messages[i].fragments
  }

  ghost predicate InApp(w: Work, id: nat) {
    exists k | k in w.apps :: id in w.apps[k].fragments
  }

  /** Among the first `bound` fragments, none is used twice and each with FIR is used. */
  ghost predicate Owned(w: Work, bound: nat) {
    && bound <= |w.out.fragments|
    && (forall i, j | 0 <= i < j < |w.out.messages| :: Apart(w.out.messages[i].fragments, w.out.messages[j].fragments))
    && (forall i, k | 0 <= i < |w.out.messages| && k in w.apps :: Apart(w.out.messages[i].fragments, w.apps[k].fragments))
    && (forall k, m | k in w.apps && m in w.apps && k != m :: Apart(w.apps[k].fragments, w.apps[m].fragments))
    && (forall i | 0 <= i < |w.out.messages| :: Below(w.out.messages[i].fragments, bound))
    && (forall k | k in w.apps :: Below(w.apps[k].fragments, bound))
    && (forall id: nat | id < bound && w.out.fragments[id].First() :: InMessage(w.out, id) || InApp(w, id))
  }

  ghost predicate AllOwned(w: Work) {
    Owned(w, |w.out.fragments|)
  }

  /** Ownership looks at nothing but fragments, messages and open messages. */
  lemma {:induction false} OwnedAlike(w: Work, v: Work, bound: nat)
    requires Owned(w, bound) && v.apps == w.apps && v.out.messages == w.out.messages
    requires bound <= |v.out.fragments| && forall i: nat | i < bound :: v.out.fragments[i] == w.out.fragments[i]
    ensures Owned(v, bound)
  {
    hide Apart, Below;
    forall id: nat | id < bound && v.out.fragments[id].First() ensures InMessage(v.out, id) || InApp(v, id) {
      assert w.out.fragments[id].First();
      if InApp(w, id) {
        var k :| k in w.apps && id in w.apps[k].fragments;
        assert k in v.apps && id in v.apps[k].fragments;
      }
      if InMessage(w.out, id) {
        var i :| 0 <= i < |w.out.messages| && id in w.out.messages[i].fragments;
        assert id in v.out.messages[i].fragments;
      }
    }
  }

  /** Emitting a message hands its fragments over. */
  lemma {:induction false} EmitOwned(w: Work, key: AppKey, complete: bool, limits: Limits, bound: nat)
    requires Owned(w, bound) && key in w.apps
    ensures var r := Emit(w, key, complete, limits);
            r.Ok? ==> Owned(r.value, bound)
  {
    hide Apart, Below;
    var r := Emit(w, key, complete, limits);
    if r.Ok? {
      var v := r.value;
      var n := |w.out.messages|;
      assert v.out.messages[n].fragments == w.apps[key].fragments;
      forall i, k | 0 <= i < |v.out.messages| && k in v.apps
        ensures Apart(v.out.messages[i].fragments, v.apps[k].fragments)
      {
        if i < n {
          assert v.out.messages[i] == w.out.messages[i];
        }
      }
      forall i, j | 0 <= i < j < |v.out.messages| ensures Apart(v.out.messages[i].fragments, v.out.messages[j].fragments) {
        assert v.out.messages[i] == w.out.messages[i];
        if j < n {
          assert v.out.messages[j] == w.out.messages[j];
        }
      }
      forall id: nat | id < bound && v.out.fragments[id].First() ensures InMessage(v.out, id) || InApp(v, id) {
        if InMessage(w.out, id) {
          var i :| 0 <= i < n && id in w.out.messages[i].fragments;
          assert id in v.out.messages[i].fragments;
        } else {
          assert InApp(w, id);
          var k :| k in w.apps && id in w.apps[k].fragments;
          if k == key {
            assert id in v.out.messages[n].fragments;
          } else {
            assert k in v.apps && id in v.apps[k].fragments;
          }
        }
      }
    }
  }

  lemma {:induction false} EmitIfOpenOwned(w: Work, key: AppKey, complete: bool, limits: Limits, bound: nat)
    requires Owned(w, bound)
    ensures var r := EmitIfOpen(w, key, complete, limits);
            r.Ok? ==> Owned(r.value, bound) && r.value.out.fragments == w.out.fragments && r.value.out.frames == w.out.frames
                      && r.value.transport == w.transport
  {
    hide Owned;
    if key in w.apps {
      EmitOwned(w, key, complete, limits, bound);
    }
  }

  lemma {:induction false} ReportOwned(w: Work, code: IssueCode, packets: set<PacketId>, at: int, limits: Limits, bound: nat)
    requires Owned(w, bound)
    ensures var r := Report(w, code, packets, at, limits);
            r.Ok? ==> Owned(r.value, bound) && r.value.out.fragments == w.out.fragments && r.value.out.frames == w.out.frames
                      && r.value.apps == w.apps && r.value.transport == w.transport
  {
    hide Apart, Below, InMessage, InApp;
    var r := Report(w, code, packets, at, limits);
    if r.Ok? {
      OwnedAlike(w, r.value, bound);
    }
  }

  lemma {:induction false} InterruptOwned(w: Work, a: Address, limits: Limits)
    requires AllOwned(w)
    ensures var r := Interrupt(w, a, limits);
            r.Ok? ==> AllOwned(r.value)
  {
    hide Owned, EmitIfOpen;
    var r := Interrupt(w, a, limits);
    if r.Ok? {
      var n := |w.out.fragments|;
      EmitIfOpenOwned(w, AppKey(a, Request), false, limits, n);
      var w1 := EmitIfOpen(w, AppKey(a, Request), false, limits).value;
      EmitIfOpenOwned(w1, AppKey(a, Response), false, limits, n);
      var w2 := EmitIfOpen(w1, AppKey(a, Response), false, limits).value;
      EmitIfOpenOwned(w2, AppKey(a, Unsolicited), false, limits, n);
      var w3 := EmitIfOpen(w2, AppKey(a, Unsolicited), false, limits).value;
      EmitIfOpenOwned(w3, AppKey(a, Confirm), false, limits, n);
      var w4 := EmitIfOpen(w3, AppKey(a, Confirm), false, limits).value;
      EmitIfOpenOwned(w4, AppKey(a, UnknownClass), false, limits, n);
    }
  }

  lemma {:induction false} TransportOwned(w: Work, t: map<Address, Assembly>)
    requires AllOwned(w)
    ensures AllOwned(w.(transport := t))
  {
    hide Apart, Below, InMessage, InApp;
    OwnedAlike(w, w.(transport := t), |w.out.fragments|);
  }

  lemma {:induction false} DropOwned(w: Work, a: Address, code: IssueCode, packets: set<PacketId>, at: int, limits: Limits)
    requires AllOwned(w)
    ensures var r := Drop(w, a, code, packets, at, limits);
            r.Ok? ==> AllOwned(r.value)
  {
    hide Owned, Report, Interrupt;
    var r := Drop(w, a, code, packets, at, limits);
    if r.Ok? {
      ReportOwned(w, code, packets, at, limits, |w.out.fragments|);
      var w1 := Report(w, code, packets, at, limits).value;
      TransportOwned(w1, w1.transport - {a});
      InterruptOwned(w1.(transport := w1.transport - {a}), a, limits);
    }
  }

  // ---------------------------------------------------------------- a new fragment

  lemma {:induction false} SkipOwned(w: Work, id: nat)
    requires Owned(w, id) && id < |w.out.fragments| && !w.out.fragments[id].First()
    ensures Owned(w, id + 1)
  {
    hide Apart, InMessage, InApp;
  }

  /** A fragment not used before may be added to an open message or open one. */
  lemma {:induction false} AddOwned(w: Work, key: AppKey, a: App, id: nat)
    requires Owned(w, id) && id < |w.out.fragments|
    requires if key in w.apps then a.fragments == w.apps[key].fragments + [id] else a.fragments == [id]
    ensures Owned(w.(apps := w.apps[key := a]), id + 1)
  {
    hide InMessage, InApp;
    var v := w.(apps := w.apps[key := a]);
    forall x ensures x in a.fragments <==> x == id || (key in w.apps && x in w.apps[key].fragments) {
    }
    forall i, k | 0 <= i < |v.out.messages| && k in v.apps ensures Apart(v.out.messages[i].fragments, v.apps[k].fragments) {
      assert Below(w.out.messages[i].fragments, id);
      if key in w.apps {
        assert Apart(w.out.messages[i].fragments, w.apps[key].fragments);
      }
    }
    forall k, m | k in v.apps && m in v.apps && k != m ensures Apart(v.apps[k].fragments, v.apps[m].fragments) {
      if k in w.apps {
        assert Below(w.apps[k].fragments, id);
      }
      if m in w.apps {
        assert Below(w.apps[m].fragments, id);
      }
      if k in w.apps && m in w.apps {
        assert Apart(w.apps[k].fragments, w.apps[m].fragments);
      }
    }
    forall k | k in v.apps ensures Below(v.apps[k].fragments, id + 1) {
      if k in w.apps {
        assert Below(w.apps[k].fragments, id);
      }
    }
    forall n: nat | n < id + 1 && v.out.fragments[n].First() ensures InMessage(v.out, n) || InApp(v, n) {
      AddKeeps(w, key, a, id, n);
    }
  }

  lemma {:induction false} AddKeeps(w: Work, key: AppKey, a: App, id: nat, n: nat)
    requires if key in w.apps then a.fragments == w.apps[key].fragments + [id] else a.fragments == [id]
    requires n == id || InMessage(w.out, n) || InApp(w, n)
    ensures InMessage(w.out, n) || InApp(w.(apps := w.apps[key := a]), n)
  {
    var v := w.(apps := w.apps[key := a]);
    if n == id {
      assert key in v.apps && id in v.apps[key].fragments;
    } else if InApp(w, n) {
      var k :| k in w.apps && n in w.apps[k].fragments;
      assert k in v.apps && n in v.apps[k].fragments;
    }
  }

  lemma {:induction false} JoinOwned(w: Work, f: Fragment, id: nat, key: AppKey, d: bool, packets: set<PacketId>, at: int, limits: Limits)
    requires Owned(w, id) && id < |w.out.fragments| && w.out.fragments[id] == f
    ensures var r := JoinMessage(w, f, id, key, d, packets, at, limits);
            r.Ok? ==> Owned(r.value, id + 1) && r.value.out.fragments == w.out.fragments
  {
    hide Owned, Report, EmitIfOpen;
    var r := JoinMessage(w, f, id, key, d, packets, at, limits);
    if r.Ok? {
      if f.First() {
        EmitIfOpenOwned(w, key, false, limits, id);
        var w1 := EmitIfOpen(w, key, false, limits).value;
        EmittedGone(w, key, false, limits);
        AddOwned(w1, key, OpenApp(f, id, d, packets), id);
      } else if key !in w.apps {
        ReportOwned(w, OrphanFragment, packets, at, limits, id);
        SkipOwned(r.value, id);
      } else if Continues(w.apps[key], f) {
        AddOwned(w, key, ExtendApp(w.apps[key], f, id, packets, limits).value, id);
      } else {
        ReportOwned(w, FragmentGap, packets, at, limits, id);
        var w1 := Report(w, FragmentGap, packets, at, limits).value;
        EmitOwned(w1, key, false, limits, id);
        SkipOwned(r.value, id);
      }
    }
  }

  lemma {:induction false} EmittedGone(w: Work, key: AppKey, complete: bool, limits: Limits)
    ensures var r := EmitIfOpen(w, key, complete, limits);
            r.Ok? ==> key !in r.value.apps
  {
  }

  lemma {:induction false} AddFragmentOwned(w: Work, f: Fragment, d: bool, at: int, limits: Limits)
    requires AllOwned(w)
    ensures var r := AddFragment(w, f, d, at, limits);
            r.Ok? ==> AllOwned(r.value)
  {
    hide Owned, Report, JoinMessage, EmitIfOpen, FramePackets;
    var r := AddFragment(w, f, d, at, limits);
    if r.Ok? {
      var id, key := |w.out.fragments|, AppKey(f.address, f.class_);
      var packets := FramePackets(w.out.frames, f.frames);
      ReportOwned(w, UnsupportedApplicationFunction, packets, at, limits, id);
      var w1 := ReportIf(f.class_ == UnknownClass, w, UnsupportedApplicationFunction, packets, at, limits).value;
      var w2 := w1.(out := w1.out.(fragments := w1.out.fragments + [f]));
      OwnedAlike(w1, w2, id);
      JoinOwned(w2, f, id, key, d, packets, at, limits);
      var w3 := JoinMessage(w2, f, id, key, d, packets, at, limits).value;
      EmitIfOpenOwned(w3, key, true, limits, id + 1);
    }
  }

  // ---------------------------------------------------------------- one frame

  lemma {:induction false} FinishOwned(w: Work, t: Assembly, f: Frame, at: int, limits: Limits)
    requires AllOwned(w) && f.userData.data != []
    ensures var r := FinishSegment(w, t, f, at, limits);
            r.Ok? ==> AllOwned(r.value)
  {
    hide AllOwned, Drop, AddFragment, ParseFragment, Packets;
    TransportOwned(w, w.transport[f.address := t]);
    TransportOwned(w, w.transport - {f.address});
    var w1 := w.(transport := w.transport - {f.address});
    match ParseFragment(t, f.address) {
      case Err(_) => DropOwned(w1, f.address, InvalidApplicationHeader, Packets(t.bytes), at, limits);
      case Ok(fragment) => AddFragmentOwned(w1, fragment, f.Forward(), at, limits);
    }
  }

  lemma {:induction false} BeginOwned(w: Work, f: Frame, id: nat, at: int, limits: Limits)
    requires AllOwned(w) && f.userData.data != []
    ensures var r := BeginSegment(w, f, id, at, limits);
            r.Ok? ==> AllOwned(r.value)
  {
    hide AllOwned, Drop, OpenAssembly, FinishSegment, Packets;
    var r := BeginSegment(w, f, id, at, limits);
    if r.Ok? {
      var dropped :=
        if f.address in w.transport
        then Drop(w, f.address, RestartBeforeFin, Packets(w.transport[f.address].bytes), at, limits)
        else Ok(w);
      if f.address in w.transport {
        DropOwned(w, f.address, RestartBeforeFin, Packets(w.transport[f.address].bytes), at, limits);
      }
      FinishOwned(dropped.value, OpenAssembly(f.userData, id, f.Forward(), limits).value, f, at, limits);
    }
  }

  lemma {:induction false} SegmentOwned(w: Work, f: Frame, id: nat, at: int, limits: Limits)
    requires AllOwned(w) && f.userData.data != []
    ensures var r := Segment(w, f, id, at, limits);
            r.Ok? ==> AllOwned(r.value)
  {
    hide AllOwned, Drop, BeginSegment, ExtendAssembly, FinishSegment, Packets, Report;
    var data, a := f.userData.data, f.address;
    var open := a in w.transport;
    if open && Seen(w.transport[a], data) && w.transport[a].seen[Sequence(data[0])] == data {
      var t := w.transport[a];
      var w1 := w.(transport := w.transport[a := t.(frames := t.frames + [id])]);
      TransportOwned(w, w1.transport);
      var code := if t.lastSequence == Sequence(data[0]) then DuplicateSegment else ReorderedDuplicate;
      ReportAllOwned(w1, code, Packets(f.userData), at, limits);
    } else if open && !First(data[0]) && Seen(w.transport[a], data) {
      DropOwned(w, a, ConflictingDuplicate, Packets(w.transport[a].bytes) + Packets(f.userData), at, limits);
    } else if First(data[0]) {
      BeginOwned(w, f, id, at, limits);
    } else if !open {
      DropOwned(w, a, OrphanSegment, Packets(f.userData), at, limits);
    } else if Sequence(data[0]) != NextSegment(w.transport[a].lastSequence) {
      DropOwned(w, a, SegmentGap, Packets(w.transport[a].bytes) + Packets(f.userData), at, limits);
    } else if ExtendAssembly(w.transport[a], f.userData, id, limits).Ok? {
      FinishOwned(w, ExtendAssembly(w.transport[a], f.userData, id, limits).value, f, at, limits);
    }
  }

  lemma {:induction false} ReportAllOwned(w: Work, code: IssueCode, packets: set<PacketId>, at: int, limits: Limits)
    requires AllOwned(w)
    ensures var r := Report(w, code, packets, at, limits);
            r.Ok? ==> AllOwned(r.value)
  {
    hide Owned, Report;
    ReportOwned(w, code, packets, at, limits, |w.out.fragments|);
  }

  /** Accepting a frame loses no fragment and uses none twice. */
  lemma {:induction false} AcceptOwned(w: Work, f: Frame, at: int, limits: Limits, rules: LinkRules)
    requires AllOwned(w)
    ensures var r := AcceptFrame(w, f, at, limits, rules);
            r.Ok? ==> AllOwned(r.value)
  {
    hide AllOwned, Drop, Segment, Packets, Report, DirectionDiffers;
    var r := AcceptFrame(w, f, at, limits, rules);
    if r.Ok? {
      var id, a := |w.out.frames|, f.address;
      ReportAllOwned(w, ReservedControlBit, Packets(f.raw), at, limits);
      var w1 := ReportIf(f.ReservedBit(), w, ReservedControlBit, Packets(f.raw), at, limits).value;
      ReportAllOwned(w1, UnsupportedLinkFunction, Packets(f.raw), at, limits);
      var w2 := ReportIf(f.UnknownFunction(), w1, UnsupportedLinkFunction, Packets(f.raw), at, limits).value;
      PushOwned(w2, f);
      InterpretOwned(PushFrame(w2, f), f, id, at, limits, rules(f.control, a.source, a.destination, |f.userData.data|));
    }
  }

  lemma {:induction false} PushOwned(w: Work, f: Frame)
    requires AllOwned(w)
    ensures AllOwned(PushFrame(w, f))
  {
    hide Apart, Below, InMessage, InApp;
    OwnedAlike(w, PushFrame(w, f), |w.out.fragments|);
  }

  lemma {:induction false} InterpretOwned(w: Work, f: Frame, id: nat, at: int, limits: Limits, problem: Option<nat>)
    requires AllOwned(w)
    ensures var r := Interpret(w, f, id, at, limits, problem);
            r.Ok? ==> AllOwned(r.value)
  {
    hide AllOwned, Drop, Segment, Packets, DirectionDiffers;
    var a := f.address;
    if problem.Some? {
      DropOwned(w, a, LinkIssue(problem.value), Packets(f.raw), at, limits);
    } else if f.userData.data == [] {
    } else if !f.CarriesUserData() {
      DropOwned(w, a, UnsupportedFunctionWithData, Packets(f.userData), at, limits);
    } else if DirectionDiffers(w, a, f.Forward()) {
      DropOwned(w, a, DirectionChanged, Packets(f.userData), at, limits);
      var dropped := Drop(w, a, DirectionChanged, Packets(f.userData), at, limits);
      if dropped.Ok? {
        SegmentOwned(dropped.value, f, id, at, limits);
      }
    } else {
      SegmentOwned(w, f, id, at, limits);
    }
  }

  // ---------------------------------------------------------------- the end

  /** Every fragment with FIR is in exactly one message, and no fragment is in two. */
  ghost predicate EachFragmentOnce(out: Output) {
    && (forall i, j | 0 <= i < j < |out.messages| :: Apart(out.messages[i].fragments, out.messages[j].fragments))
    && (forall id: nat | id < |out.fragments| && out.fragments[id].First() :: InMessage(out, id))
  }

  lemma {:induction false} NothingOwnedOpen(w: Work)
    requires AllOwned(w) && w.apps == map[]
    ensures EachFragmentOnce(w.out)
  {
    hide Apart, Below, InMessage;
  }

  lemma {:induction false} StartOwned()
    ensures AllOwned(Work(Output([], [], [], [], []), map[], map[], 0))
  {
  }

  lemma {:induction false} SameOwned(w: Work, v: Work)
    requires AllOwned(w) && v.apps == w.apps && v.out.messages == w.out.messages && v.out.fragments == w.out.fragments
    ensures AllOwned(v)
  {
    hide Apart, Below, InMessage, InApp;
    OwnedAlike(w, v, |w.out.fragments|);
  }
}
