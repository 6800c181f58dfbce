/** What one segment and one fragment do, case by case, and that other addresses never notice. */
module Dnp3Effects {
  import opened Common
  import opened Provenance
  import opened Dnp3Model

  // ---------------------------------------------------------------- open messages end

  function KeysOf(a: Address): set<AppKey> {
    {AppKey(a, Request), AppKey(a, Response), AppKey(a, Unsolicited), AppKey(a, Confirm), AppKey(a, UnknownClass)}
  }

  lemma {:induction false} KeysExact(a: Address, k: AppKey)
    ensures k in KeysOf(a) <==> k.address == a
  {
    var c := k.class_;
    assert c == Request || c == Response || c == Unsolicited || c == Confirm || c == UnknownClass;
  }

  /** An open message, as it goes out unfinished. */
  function Closing(apps: map<AppKey, App>, k: AppKey): seq<Message> {
    if k in apps then [MessageOf(apps[k], false)] else []
  }

  function ClosingAll(apps: map<AppKey, App>, a: Address): seq<Message> {
    Closing(apps, AppKey(a, Request)) + Closing(apps, AppKey(a, Response)) + Closing(apps, AppKey(a, Unsolicited))
    + Closing(apps, AppKey(a, Confirm)) + Closing(apps, AppKey(a, UnknownClass))
  }

  /** The state once these messages went out. */
  function Closed(w: Work, keys: set<AppKey>, messages: seq<Message>): Work {
    w.(out := w.out.(messages := w.out.messages + messages), apps := w.apps - keys)
  }

  lemma {:induction false} EmitCloses(w: Work, keys: set<AppKey>, messages: seq<Message>, k: AppKey, limits: Limits)
    requires k !in keys
    ensures var r := EmitIfOpen(Closed(w, keys, messages), k, false, limits);
            r.Ok? ==> r.value == Closed(w, keys + {k}, messages + Closing(w.apps, k))
  {
    var v := Closed(w, keys, messages);
    if k in w.apps {
      assert (w.apps - keys) - {k} == w.apps - (keys + {k});
      assert (w.out.messages + messages) + Closing(w.apps, k) == w.out.messages + (messages + Closing(w.apps, k));
    } else {
      assert w.apps - keys == w.apps - (keys + {k});
      assert messages + Closing(w.apps, k) == messages;
    }
  }

  /** A discontinuity puts out every open message of the address unfinished, and none of another. */
  lemma {:induction false} InterruptCloses(w: Work, a: Address, limits: Limits)
    ensures var r := Interrupt(w, a, limits);
            r.Ok? ==> r.value == Closed(w, KeysOf(a), ClosingAll(w.apps, a))
  {
    hide EmitIfOpen, Closed, Closing;
    var r := Interrupt(w, a, limits);
    if r.Ok? {
      var k1, k2, k3, k4, k5 := AppKey(a, Request), AppKey(a, Response), AppKey(a, Unsolicited), AppKey(a, Confirm), AppKey(a, UnknownClass);
      var m1 := Closing(w.apps, k1);
      var m2 := m1 + Closing(w.apps, k2);
      var m3 := m2 + Closing(w.apps, k3);
      var m4 := m3 + Closing(w.apps, k4);
      ClosedNothing(w);
      EmitCloses(w, {}, [], k1, limits);
      assert [] + m1 == m1 && {} + {k1} == {k1};
      EmitCloses(w, {k1}, m1, k2, limits);
      EmitCloses(w, {k1} + {k2}, m2, k3, limits);
      EmitCloses(w, {k1} + {k2} + {k3}, m3, k4, limits);
      EmitCloses(w, {k1} + {k2} + {k3} + {k4}, m4, k5, limits);
      assert {k1} + {k2} + {k3} + {k4} + {k5} == KeysOf(a);
    }
  }

  lemma {:induction false} ClosedNothing(w: Work)
    ensures Closed(w, {}, []) == w
  {
    assert w.apps - {} == w.apps && w.out.messages + [] == w.out.messages;
  }

  /** The address has nothing open any more, and the reason is on record. */
  ghost predicate Discarded(w: Work, v: Work, a: Address, code: IssueCode) {
    && v.transport == w.transport - {a} && v.apps == w.apps - KeysOf(a)
    && v.out == w.out.(messages := w.out.messages + ClosingAll(w.apps, a), issues := v.out.issues)
    && |v.out.issues| == |w.out.issues| + 1 && v.out.issues[..|w.out.issues|] == w.out.issues
    && v.out.issues[|w.out.issues|].code == code && v.runStart == w.runStart
  }

  lemma {:induction false} DropDiscards(w: Work, a: Address, code: IssueCode, packets: set<PacketId>, at: int, limits: Limits)
    ensures var r := Drop(w, a, code, packets, at, limits);
            r.Ok? ==> Discarded(w, r.value, a, code)
  {
    hide Interrupt, ClosingAll, KeysOf;
    var told := Report(w, code, packets, at, limits);
    if told.Ok? {
      InterruptCloses(told.value.(transport := told.value.transport - {a}), a, limits);
    }
  }

  // ---------------------------------------------------------------- confinement

  ghost predicate Extends<T>(s: seq<T>, t: seq<T>) {
    |s| <= |t| && t[..|s|] == s
  }

  /** Every open message is filed under its own address and class. */
  ghost predicate Keyed(apps: map<AppKey, App>) {
    forall k | k in apps :: apps[k].address == k.address && apps[k].class_ == k.class_
  }

  /** Whatever was put out is the address's own. */
  ghost predicate NewOf(w: Work, v: Work, a: Address) {
    && (forall i | |w.out.fragments| <= i < |v.out.fragments| :: v.out.fragments[i].address == a)
    && (forall i | |w.out.messages| <= i < |v.out.messages| :: v.out.messages[i].address == a)
  }

  /** Output only grows, by the address's own, and nothing that other addresses have open changes. */
  ghost predicate Confined(w: Work, v: Work, a: Address) {
    && (Keyed(w.apps) ==> Keyed(v.apps) && NewOf(w, v, a))
    && v.transport - {a} == w.transport - {a} && v.apps - KeysOf(a) == w.apps - KeysOf(a) && v.runStart == w.runStart
    && Extends(w.out.frames, v.out.frames) && Extends(w.out.fragments, v.out.fragments)
    && Extends(w.out.messages, v.out.messages) && Extends(w.out.issues, v.out.issues) && v.out.rejected == w.out.rejected
  }

  lemma {:induction false} ExtendsTransitive<T>(r: seq<T>, s: seq<T>, t: seq<T>)
    requires Extends(r, s) && Extends(s, t)
    ensures Extends(r, t)
  {
    assert t[..|r|] == t[..|s|][..|r|];
  }

  lemma {:induction false} NewTransitive(u: Work, v: Work, w: Work, a: Address)
    requires Extends(v.out.fragments, w.out.fragments) && Extends(v.out.messages, w.out.messages)
    ensures NewOf(u, v, a) && NewOf(v, w, a) ==> NewOf(u, w, a)
  {
    if NewOf(u, v, a) && NewOf(v, w, a) {
      forall i | |u.out.fragments| <= i < |w.out.fragments| ensures w.out.fragments[i].address == a {
        if i < |v.out.fragments| {
          assert w.out.fragments[i] == v.out.fragments[i];
        }
      }
      forall i | |u.out.messages| <= i < |w.out.messages| ensures w.out.messages[i].address == a {
        if i < |v.out.messages| {
          assert w.out.messages[i] == v.out.messages[i];
        }
      }
    }
  }

  lemma {:induction false} ConfinedTransitive(u: Work, v: Work, w: Work, a: Address)
    requires Confined(u, v, a) && Confined(v, w, a)
    ensures Confined(u, w, a)
  {
    hide Extends, KeysOf, Keyed, NewOf;
    NewTransitive(u, v, w, a);
    ExtendsTransitive(u.out.frames, v.out.frames, w.out.frames);
    ExtendsTransitive(u.out.fragments, v.out.fragments, w.out.fragments);
    ExtendsTransitive(u.out.messages, v.out.messages, w.out.messages);
    ExtendsTransitive(u.out.issues, v.out.issues, w.out.issues);
  }

  lemma {:induction false} ConfinedReflexive(w: Work, a: Address)
    ensures Confined(w, w, a)
  {
    hide KeysOf;
  }

  lemma {:induction false} ClosingOwn(apps: map<AppKey, App>, a: Address)
    requires Keyed(apps)
    ensures forall i | 0 <= i < |ClosingAll(apps, a)| :: ClosingAll(apps, a)[i].address == a
  {
  }

  lemma {:induction false} DiscardedConfined(w: Work, v: Work, a: Address, code: IssueCode)
    requires Discarded(w, v, a, code)
    ensures Confined(w, v, a)
  {
    hide KeysOf, ClosingAll;
    if Keyed(w.apps) {
      ClosingOwn(w.apps, a);
    }
    assert (w.apps - KeysOf(a)) - KeysOf(a) == w.apps - KeysOf(a);
  }

  lemma {:induction false} ReportConfined(w: Work, code: IssueCode, packets: set<PacketId>, at: int, limits: Limits, a: Address)
    ensures var r := Report(w, code, packets, at, limits);
            r.Ok? ==> Confined(w, r.value, a) && r.value == w.(out := w.out.(issues := r.value.out.issues))
  {
    hide KeysOf;
  }

  lemma {:induction false} EmitConfined(w: Work, k: AppKey, complete: bool, limits: Limits)
    ensures var r := EmitIfOpen(w, k, complete, limits);
            r.Ok? ==> Confined(w, r.value, k.address)
  {
    hide KeysOf;
    KeysExact(k.address, k);
    assert (w.apps - {k}) - KeysOf(k.address) == w.apps - KeysOf(k.address);
  }

  // ---------------------------------------------------------------- a fragment joins a message

  ghost predicate SameOutput(w: Work, v: Work) {
    v.out.frames == w.out.frames && v.out.fragments == w.out.fragments && v.transport == w.transport && v.runStart == w.runStart
  }

  /** What a message gains from a fragment that continues it, and nothing else changes. */
  ghost predicate Gained(w: Work, v: Work, k: AppKey, f: Fragment, id: nat) {
    && k in w.apps && k in v.apps && v == w.(apps := w.apps[k := v.apps[k]])
    && v.apps[k].fragments == w.apps[k].fragments + [id] && v.apps[k].objects.data == w.apps[k].objects.data + f.objects.data
    && v.apps[k].function_ == w.apps[k].function_ && v.apps[k].firstSequence == w.apps[k].firstSequence
    && v.apps[k].lastSequence == f.SequenceNumber()
  }

  /**
   A fragment with FIR ends the open message of its address and class unfinished and begins one of its
   own. Any other extends the open message exactly when it has the next sequence number and the same
   function; otherwise that message ends unfinished, and the fragment is in no message.
   */
  lemma {:induction false} JoinCases(w: Work, f: Fragment, id: nat, k: AppKey, d: bool, packets: set<PacketId>, at: int, limits: Limits)
    requires k == AppKey(f.address, f.class_) && JoinMessage(w, f, id, k, d, packets, at, limits).Ok?
    ensures var v := JoinMessage(w, f, id, k, d, packets, at, limits).value;
            && Confined(w, v, f.address) && SameOutput(w, v) && v.apps - {k} == w.apps - {k}
            && (f.First() ==> k in v.apps && v.apps[k].fragments == [id] && v.apps[k].objects == f.objects && v.apps[k].direction == d
                              && v.out.messages == w.out.messages + Closing(w.apps, k))
            && (!f.First() && k in w.apps && Continues(w.apps[k], f) ==> Gained(w, v, k, f, id))
            && (!f.First() && !(k in w.apps && Continues(w.apps[k], f)) ==>
                  k !in v.apps && v.out.messages == w.out.messages + Closing(w.apps, k) && |v.out.issues| == |w.out.issues| + 1)
  {
    hide KeysOf, Extends, Continues, Append;
    var v := JoinMessage(w, f, id, k, d, packets, at, limits).value;
    KeysExact(f.address, k);
    EmitConfined(w, k, false, limits);
    ConfinedReflexive(w, f.address);
    if f.First() {
      StoredConfined(EmitIfOpen(w, k, false, limits).value, k, v.apps[k]);
      ConfinedTransitive(w, EmitIfOpen(w, k, false, limits).value, v, f.address);
      assert w.out.messages + [] == w.out.messages;
    } else if k !in w.apps {
      ReportConfined(w, OrphanFragment, packets, at, limits, f.address);
    } else if Continues(w.apps[k], f) {
      AppendJoins(w.apps[k].objects, f.objects, limits.maxApplicationBytes);
      StoredConfined(w, k, v.apps[k]);
    } else {
      ReportConfined(w, FragmentGap, packets, at, limits, f.address);
      var told := Report(w, FragmentGap, packets, at, limits).value;
      EmitConfined(told, k, false, limits);
      ConfinedTransitive(w, told, v, f.address);
    }
  }

  lemma {:induction false} AppendJoins(e: Evidence, f: Evidence, limit: nat)
    ensures Append(e, f, limit).Ok? ==> Append(e, f, limit).value.data == e.data + f.data
  {
  }

  lemma {:induction false} StoredConfined(w: Work, k: AppKey, x: App)
    requires Keyed(w.apps) ==> x.address == k.address && x.class_ == k.class_
    ensures Confined(w, w.(apps := w.apps[k := x]), k.address)
  {
    hide KeysOf;
    KeysExact(k.address, k);
    assert w.apps[k := x] - KeysOf(k.address) == w.apps - KeysOf(k.address);
  }

  lemma {:induction false} AddConfined(w: Work, f: Fragment, d: bool, at: int, limits: Limits)
    ensures var r := AddFragment(w, f, d, at, limits);
            r.Ok? ==> Confined(w, r.value, f.address) && r.value.transport == w.transport && r.value.out.fragments == w.out.fragments + [f]
  {
    hide Confined, JoinMessage, FramePackets, Report, Closing, Gained, Continues;
    var r := AddFragment(w, f, d, at, limits);
    if r.Ok? {
      var id, k := |w.out.fragments|, AppKey(f.address, f.class_);
      var packets := FramePackets(w.out.frames, f.frames);
      ConfinedReflexive(w, f.address);
      ReportConfined(w, UnsupportedApplicationFunction, packets, at, limits, f.address);
      var w1 := ReportIf(f.class_ == UnknownClass, w, UnsupportedApplicationFunction, packets, at, limits).value;
      var w2 := w1.(out := w1.out.(fragments := w1.out.fragments + [f]));
      FragmentConfined(w1, f, f.address);
      ConfinedTransitive(w, w1, w2, f.address);
      JoinCases(w2, f, id, k, d, packets, at, limits);
      var w3 := JoinMessage(w2, f, id, k, d, packets, at, limits).value;
      ConfinedTransitive(w, w2, w3, f.address);
      EmitConfined(w3, k, true, limits);
      if f.Final() {
        ConfinedTransitive(w, w3, r.value, f.address);
      }
    }
  }

  lemma {:induction false} FragmentConfined(w: Work, f: Fragment, a: Address)
    requires f.address == a
    ensures Confined(w, w.(out := w.out.(fragments := w.out.fragments + [f])), a)
  {
    hide KeysOf;
  }

  // ---------------------------------------------------------------- a segment

  ghost predicate IsOpen(w: Work, f: Frame) {
    f.address in w.transport
  }

  /** The assembly already holds this sequence number, and it is not the next one. */
  ghost predicate Known(w: Work, f: Frame)
    requires f.userData.data != []
  {
    IsOpen(w, f) && Seen(w.transport[f.address], f.userData.data)
  }

  /** A retransmission: same sequence number, same octets. */
  ghost predicate Repeat(w: Work, f: Frame)
    requires f.userData.data != []
  {
    Known(w, f) && w.transport[f.address].seen[Sequence(f.userData.data[0])] == f.userData.data
  }

  /** The next segment of the open assembly. */
  ghost predicate NextInLine(w: Work, f: Frame)
    requires f.userData.data != []
  {
    && IsOpen(w, f) && !First(f.userData.data[0])
    && Sequence(f.userData.data[0]) == NextSegment(w.transport[f.address].lastSequence)
  }

  /** Why a segment that neither begins, repeats nor continues an assembly is refused. */
  function Refusal(w: Work, f: Frame): IssueCode
    requires f.userData.data != []
  {
    if f.address !in w.transport then OrphanSegment
    else if Seen(w.transport[f.address], f.userData.data) then ConflictingDuplicate
    else SegmentGap
  }

  /** The assembly a segment leaves waiting, if it is not the last of its fragment. */
  ghost predicate Waiting(v: Work, a: Address, accepted: seq<nat>, data: seq<byte>) {
    a in v.transport && v.transport[a].accepted == accepted && v.transport[a].bytes.data == data
  }

  /**
   A repeat is noted and adds nothing. A segment that neither begins nor continues an assembly drops
   everything its address has open, with the reason. One with FIR starts from its own octets, the next
   in line adds its octets, and the last of a fragment leaves nothing waiting.
   */
  lemma {:induction false} SegmentCases(w: Work, f: Frame, id: nat, at: int, limits: Limits)
    requires f.userData.data != [] && Segment(w, f, id, at, limits).Ok?
    ensures var v, a, data := Segment(w, f, id, at, limits).value, f.address, f.userData.data;
            && Confined(w, v, a)
            && (Repeat(w, f) ==>
                  && v.transport == w.transport[a := w.transport[a].(frames := w.transport[a].frames + [id])]
                  && v.apps == w.apps && v.out == w.out.(issues := v.out.issues))
            && (!Repeat(w, f) && !First(data[0]) && !NextInLine(w, f) ==> Discarded(w, v, a, Refusal(w, f)))
            && (!Repeat(w, f) && First(data[0]) && !Last(data[0]) ==> Waiting(v, a, [id], data[1..]))
            && (NextInLine(w, f) && !Last(data[0]) ==>
                  Waiting(v, a, w.transport[a].accepted + [id], w.transport[a].bytes.data + data[1..])
                  && v.apps == w.apps && v.out == w.out)
            && (!Repeat(w, f) && Last(data[0]) ==> a !in v.transport)
  {
    hide Drop, RepeatSegment, BeginSegment, ExtendAssembly, FinishSegment, Packets, First, Last, Confined, Discarded;
    var v, a, data := Segment(w, f, id, at, limits).value, f.address, f.userData.data;
    if Repeat(w, f) {
      RepeatEffect(w, f, id, at, limits);
    } else if First(data[0]) {
      BeginEffect(w, f, id, at, limits);
    } else if NextInLine(w, f) {
      var t := ExtendAssembly(w.transport[a], f.userData, id, limits).value;
      ExtendEffect(w.transport[a], f.userData, id, limits);
      FinishEffect(w, t, f, at, limits);
    } else {
      var packets := if a in w.transport then Packets(w.transport[a].bytes) + Packets(f.userData) else Packets(f.userData);
      DropDiscards(w, a, Refusal(w, f), packets, at, limits);
      DiscardedConfined(w, v, a, Refusal(w, f));
      DiscardedGone(w, v, a, Refusal(w, f));
    }
  }

  lemma {:induction false} DiscardedGone(w: Work, v: Work, a: Address, code: IssueCode)
    requires Discarded(w, v, a, code)
    ensures a !in v.transport
  {
    hide KeysOf, ClosingAll;
  }

  lemma {:induction false} RepeatEffect(w: Work, f: Frame, id: nat, at: int, limits: Limits)
    requires f.address in w.transport && f.userData.data != []
    ensures var r, a := RepeatSegment(w, f, id, at, limits), f.address;
            r.Ok? ==> && Confined(w, r.value, a) && r.value.apps == w.apps && r.value.out == w.out.(issues := r.value.out.issues)
                      && r.value.transport == w.transport[a := w.transport[a].(frames := w.transport[a].frames + [id])]
  {
    hide KeysOf, Packets;
  }

  lemma {:induction false} ExtendEffect(t: Assembly, data: Evidence, id: nat, limits: Limits)
    requires data.data != []
    ensures var r := ExtendAssembly(t, data, id, limits);
            r.Ok? ==> r.value.accepted == t.accepted + [id] && r.value.bytes.data == t.bytes.data + data.data[1..]
  {
    hide SliceSpans, AppendSpans;
  }

  lemma {:induction false} OpenEffect(data: Evidence, id: nat, d: bool, limits: Limits)
    requires data.data != []
    ensures var r := OpenAssembly(data, id, d, limits);
            r.Ok? ==> r.value.accepted == [id] && r.value.bytes.data == data.data[1..]
  {
    hide SliceSpans;
  }

  lemma {:induction false} FinishEffect(w: Work, t: Assembly, f: Frame, at: int, limits: Limits)
    requires f.userData.data != []
    ensures var r, a := FinishSegment(w, t, f, at, limits), f.address;
            r.Ok? ==> && Confined(w, r.value, a) && (Last(f.userData.data[0]) ==> a !in r.value.transport)
                      && (!Last(f.userData.data[0]) ==> r.value == w.(transport := w.transport[a := t]))
  {
    hide Confined, Last, Discarded, Drop, AddFragment, ParseFragment, Packets;
    var r, a := FinishSegment(w, t, f, at, limits), f.address;
    if r.Ok? && Last(f.userData.data[0]) {
      var w1 := w.(transport := w.transport - {a});
      TransportConfined(w, w1.transport, a);
      match ParseFragment(t, a) {
        case Err(_) =>
          DropDiscards(w1, a, InvalidApplicationHeader, Packets(t.bytes), at, limits);
          DiscardedConfined(w1, r.value, a, InvalidApplicationHeader);
          DiscardedGone(w1, r.value, a, InvalidApplicationHeader);
        case Ok(g) =>
          AddConfined(w1, g, f.Forward(), at, limits);
          ParsedAddress(t, a);
      }
      ConfinedTransitive(w, w1, r.value, a);
    } else {
      TransportConfined(w, w.transport[a := t], a);
    }
  }

  lemma {:induction false} ParsedAddress(t: Assembly, a: Address)
    ensures ParseFragment(t, a).Ok? ==> ParseFragment(t, a).value.address == a
  {
    hide Slice;
  }

  lemma {:induction false} TransportConfined(w: Work, m: map<Address, Assembly>, a: Address)
    requires m - {a} == w.transport - {a}
    ensures Confined(w, w.(transport := m), a)
  {
    hide KeysOf;
  }

  lemma {:induction false} BeginEffect(w: Work, f: Frame, id: nat, at: int, limits: Limits)
    requires f.userData.data != []
    ensures var r, a, data := BeginSegment(w, f, id, at, limits), f.address, f.userData.data;
            r.Ok? ==> && Confined(w, r.value, a) && (Last(data[0]) ==> a !in r.value.transport)
                      && (!Last(data[0]) ==> Waiting(r.value, a, [id], data[1..]))
  {
    hide Confined, Last, Discarded, Drop, FinishSegment, OpenAssembly, Packets;
    var r, a, data := BeginSegment(w, f, id, at, limits), f.address, f.userData.data;
    if r.Ok? {
      ConfinedReflexive(w, a);
      var w1 := w;
      if a in w.transport {
        DropDiscards(w, a, RestartBeforeFin, Packets(w.transport[a].bytes), at, limits);
        w1 := Drop(w, a, RestartBeforeFin, Packets(w.transport[a].bytes), at, limits).value;
        DiscardedConfined(w, w1, a, RestartBeforeFin);
      }
      OpenEffect(f.userData, id, f.Forward(), limits);
      FinishEffect(w1, OpenAssembly(f.userData, id, f.Forward(), limits).value, f, at, limits);
      ConfinedTransitive(w, w1, r.value, a);
    }
  }

  // ---------------------------------------------------------------- a frame

  /** Whatever a frame does, it does to its own address pair. */
  lemma {:induction false} AcceptConfined(w: Work, f: Frame, at: int, limits: Limits, rules: LinkRules)
    ensures var r := AcceptFrame(w, f, at, limits, rules);
            r.Ok? ==> Confined(w, r.value, f.address)
  {
    hide Report, Interpret, Packets, Confined;
    var r, a := AcceptFrame(w, f, at, limits, rules), f.address;
    if r.Ok? {
      ConfinedReflexive(w, a);
      ReportConfined(w, ReservedControlBit, Packets(f.raw), at, limits, a);
      var w1 := ReportIf(f.ReservedBit(), w, ReservedControlBit, Packets(f.raw), at, limits).value;
      ConfinedReflexive(w1, a);
      ReportConfined(w1, UnsupportedLinkFunction, Packets(f.raw), at, limits, a);
      var w2 := ReportIf(f.UnknownFunction(), w1, UnsupportedLinkFunction, Packets(f.raw), at, limits).value;
      ConfinedTransitive(w, w1, w2, a);
      PushConfined(w2, f, a);
      ConfinedTransitive(w, w2, PushFrame(w2, f), a);
      InterpretConfined(PushFrame(w2, f), f, |w.out.frames|, at, limits, rules(f.control, a.source, a.destination, |f.userData.data|));
      ConfinedTransitive(w, PushFrame(w2, f), r.value, a);
    }
  }

  lemma {:induction false} PushConfined(w: Work, f: Frame, a: Address)
    ensures Confined(w, PushFrame(w, f), a)
  {
    hide KeysOf;
  }

  lemma {:induction false} InterpretConfined(w: Work, f: Frame, id: nat, at: int, limits: Limits, problem: Option<nat>)
    ensures var r := Interpret(w, f, id, at, limits, problem);
            r.Ok? ==> Confined(w, r.value, f.address)
  {
    hide Confined, Discarded, Drop, Segment, Packets, DirectionDiffers, Waiting, Repeat, NextInLine, First, Last;
    var r, a := Interpret(w, f, id, at, limits, problem), f.address;
    ConfinedReflexive(w, a);
    if r.Ok? {
      if problem.Some? {
        DropDiscards(w, a, LinkIssue(problem.value), Packets(f.raw), at, limits);
        DiscardedConfined(w, r.value, a, LinkIssue(problem.value));
      } else if f.userData.data == [] {
      } else if !f.CarriesUserData() {
        DropDiscards(w, a, UnsupportedFunctionWithData, Packets(f.userData), at, limits);
        DiscardedConfined(w, r.value, a, UnsupportedFunctionWithData);
      } else if DirectionDiffers(w, a, f.Forward()) {
        DropDiscards(w, a, DirectionChanged, Packets(f.userData), at, limits);
        var w1 := Drop(w, a, DirectionChanged, Packets(f.userData), at, limits).value;
        DiscardedConfined(w, w1, a, DirectionChanged);
        SegmentCases(w1, f, id, at, limits);
        ConfinedTransitive(w, w1, r.value, a);
      } else {
        SegmentCases(w, f, id, at, limits);
      }
    }
  }
}
